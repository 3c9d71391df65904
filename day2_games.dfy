/**
 * Day 2: a game is a list of rounds, each showing some red, green and blue cubes drawn
 * from a bag. Part 1 adds up the ids of the games possible with a bag of 12 red, 13 green
 * and 14 blue cubes; part 2 adds up each game's power, the product of the fewest cubes of
 * each colour its rounds need.
 */
module Day2Games {
  import opened Wrappers
  import opened Text

  /** One more than the largest `u32`, the width of the counts and ids. */
  const U32Limit: nat := 0x1_0000_0000

  /** `str::parse::<u32>()`: a number, if it fits in 32 bits. */
  function ParseU32(s: string): (r: Option<nat>)
    ensures r.Some? <==> ParseNat(s).Some? && ParseNat(s).value < U32Limit
    ensures r.Some? ==> r.value == ParseNat(s).value
  {
    match ParseNat(s)
    case Some(n) => if n < U32Limit then Some(n) else None
    case None => None
  }

  // ---------------------------------------------------------------------------
  // Colours and bags.

  datatype Color = Red | Green | Blue

  /** `Colors`: a number of cubes of each colour. */
  datatype Colors = Colors(red: nat, green: nat, blue: nat)

  /** The cubes of one colour. */
  function Count(c: Colors, k: Color): nat {
    match k
    case Red => c.red
    case Green => c.green
    case Blue => c.blue
  }

  /** `Colors::is_possible_with`: no colour exceeds what `bag` holds. */
  predicate PossibleWith(c: Colors, bag: Colors) {
    c.red <= bag.red && c.green <= bag.green && c.blue <= bag.blue
  }

  /** Being possible with a bag is being possible colour by colour. */
  lemma PossibleWithByColor(c: Colors, bag: Colors)
    ensures PossibleWith(c, bag) <==> forall k: Color :: Count(c, k) <= Count(bag, k)
  {
    assert Count(c, Red) == c.red && Count(c, Green) == c.green && Count(c, Blue) == c.blue;
  }

  /** What `increase_max` leaves in `a`: the larger count of each colour. */
  function Max(a: Colors, b: Colors): (m: Colors)
    ensures PossibleWith(a, m) && PossibleWith(b, m)
    ensures forall bag :: PossibleWith(a, bag) && PossibleWith(b, bag) ==> PossibleWith(m, bag)
    ensures forall k :: Count(m, k) == Count(a, k) || Count(m, k) == Count(b, k)
  {
    Colors(if a.red < b.red then b.red else a.red,
           if a.green < b.green then b.green else a.green,
           if a.blue < b.blue then b.blue else a.blue)
  }

  /** Raising the maxima to a count they already cover changes nothing, so `increase_max` is idempotent. */
  lemma MaxAbsorbs(m: Colors, c: Colors)
    requires PossibleWith(c, m)
    ensures Max(m, c) == m
  {
  }

  lemma MaxIdempotent(a: Colors, b: Colors)
    ensures Max(Max(a, b), b) == Max(a, b)
  {
    MaxAbsorbs(Max(a, b), b);
  }

  /** `Colors::power`: the product of the three counts. */
  function Power(c: Colors): (p: nat)
    ensures p == 0 <==> exists k :: Count(c, k) == 0
  {
    assert c.red == 0 ==> Count(c, Red) == 0;
    assert c.green == 0 ==> Count(c, Green) == 0;
    assert c.blue == 0 ==> Count(c, Blue) == 0;
    c.red * c.green * c.blue
  }

  /**
   * The running maxima `color_power` keeps in its local `max_colors`, a `Colors` updated in
   * place by `increase_max`.
   */
  class MaxColors {
    var red: nat
    var green: nat
    var blue: nat

    function Value(): Colors
      reads this
    {
      Colors(red, green, blue)
    }

    /** `Colors::default()`: no cubes. */
    constructor Default()
      ensures Value() == Colors(0, 0, 0)
    {
      red, green, blue := 0, 0, 0;
    }

    /** `increase_max`: each colour rises to `other`'s count if that is larger. */
    method IncreaseMax(other: Colors)
      modifies this
      ensures Value() == Max(old(Value()), other)
    {
      red := if red < other.red then other.red else red;
      green := if green < other.green then other.green else green;
      blue := if blue < other.blue then other.blue else blue;
    }
  }

  // ---------------------------------------------------------------------------
  // Rounds.

  /** The colour names `Round::parse` accepts; any other is unreachable there, a panic. */
  function ParseColor(s: string): (r: Option<Color>)
    ensures r.Some? <==> s == "red" || s == "green" || s == "blue"
  {
    if s == "red" then Some(Red) else if s == "green" then Some(Green) else if s == "blue" then Some(Blue) else None
  }

  function ColorName(k: Color): (s: string)
    ensures ParseColor(s) == Some(k)
  {
    match k
    case Red => "red"
    case Green => "green"
    case Blue => "blue"
  }

  /** One "n colour" of a round. */
  datatype Draw = Draw(count: nat, color: Color)

  /** A piece of a round, trimmed and split at its first space into count and colour; None where the source panics. */
  function ParseDraw(piece: string): (r: Option<Draw>)
    ensures r.Some? ==> r.value.count < U32Limit
  {
    match SplitOnce(Trim(piece), ' ')
    case None => None
    case Some((num, color)) =>
      match (ParseU32(num), ParseColor(color))
      case (Some(n), Some(k)) => Some(Draw(n, k))
      case _ => None
  }

  /** The draws of all pieces, or None if a piece does not parse. */
  function DrawsOf(pieces: seq<string>): Option<seq<Draw>> {
    Collect(seq(|pieces|, i requires 0 <= i < |pieces| => ParseDraw(pieces[i])))
  }

  /** A piece that does not parse fails the whole round. */
  lemma DrawsOfFails(pieces: seq<string>, i: nat)
    requires i < |pieces| && ParseDraw(pieces[i]).None?
    ensures DrawsOf(pieces).None?
  {
    var rs := seq(|pieces|, j requires 0 <= j < |pieces| => ParseDraw(pieces[j]));
    assert rs[i].None?;
  }

  /** Pieces that all parse give their draws. */
  lemma DrawsOfAll(pieces: seq<string>, ds: seq<Draw>)
    requires |ds| == |pieces| && forall j :: 0 <= j < |pieces| ==> ParseDraw(pieces[j]) == Some(ds[j])
    ensures DrawsOf(pieces) == Some(ds)
  {
    var rs := seq(|pieces|, j requires 0 <= j < |pieces| => ParseDraw(pieces[j]));
    CollectAll(rs, ds);
  }

  /** The counts with one colour set to a draw's count. */
  function SetCount(c: Colors, d: Draw): Colors {
    match d.color
    case Red => c.(red := d.count)
    case Green => c.(green := d.count)
    case Blue => c.(blue := d.count)
  }

  /** The counts after the draws, in order, each setting its colour; unmentioned colours stay 0. */
  function Tally(ds: seq<Draw>): Colors
    decreases |ds|
  {
    if ds == [] then Colors(0, 0, 0) else SetCount(Tally(ds[..|ds| - 1]), ds[|ds| - 1])
  }

  /** One more draw sets its colour in the tally. */
  lemma TallySnoc(ds: seq<Draw>, d: Draw)
    ensures Tally(ds + [d]) == SetCount(Tally(ds), d)
  {
    assert (ds + [d])[..|ds|] == ds;
  }

  /** A colour no draw mentions has no cubes. */
  lemma {:induction false} TallyUnmentioned(ds: seq<Draw>, k: Color)
    requires forall i :: 0 <= i < |ds| ==> ds[i].color != k
    ensures Count(Tally(ds), k) == 0
    decreases |ds|
  {
    if ds != [] {
      TallyUnmentioned(ds[..|ds| - 1], k);
    }
  }

  /** A colour takes the count of its last mention. */
  lemma {:induction false} TallyLastMention(ds: seq<Draw>, k: Color, i: nat)
    requires i < |ds| && ds[i].color == k
    requires forall j :: i < j < |ds| ==> ds[j].color != k
    ensures Count(Tally(ds), k) == ds[i].count
    decreases |ds|
  {
    if i < |ds| - 1 {
      TallyLastMention(ds[..|ds| - 1], k, i);
    }
  }

  /** `Round::parse` as a value: the tally of the draws between the commas. */
  function RoundOf(substr: string): Option<Colors> {
    match DrawsOf(Split(substr, ','))
    case Some(ds) => Some(Tally(ds))
    case None => None
  }

  /** The draws of the first pieces, followed by the draw of the next one. */
  lemma DrawsSnoc(pieces: seq<string>, ds: seq<Draw>, d: Draw)
    requires |ds| < |pieces| && forall j :: 0 <= j < |ds| ==> ParseDraw(pieces[j]) == Some(ds[j])
    requires ParseDraw(pieces[|ds|]) == Some(d)
    ensures forall j :: 0 <= j < |ds| + 1 ==> ParseDraw(pieces[j]) == Some((ds + [d])[j])
  {
  }

  /** `Round::parse`: one piece at a time, each setting the count of its colour. */
  method ParseRound(substr: string) returns (r: Option<Colors>)
    ensures r == RoundOf(substr)
  {
    var pieces := Split(substr, ',');
    var red, green, blue := 0, 0, 0;
    ghost var ds: seq<Draw> := [];
    for i := 0 to |pieces|
      invariant |ds| == i && forall j :: 0 <= j < i ==> ParseDraw(pieces[j]) == Some(ds[j])
      invariant Tally(ds) == Colors(red, green, blue)
    {
      var d := ParseDraw(pieces[i]);
      if d.None? {
        DrawsOfFails(pieces, i);
        return None;
      }
      var c := SetCount(Colors(red, green, blue), d.value);
      red, green, blue := c.red, c.green, c.blue;
      TallySnoc(ds, d.value);
      DrawsSnoc(pieces, ds, d.value);
      ds := ds + [d.value];
    }
    DrawsOfAll(pieces, ds);
    return Some(Colors(red, green, blue));
  }

  // ---------------------------------------------------------------------------
  // Games.

  datatype Game = Game(id: nat, rounds: seq<Colors>)

  /** `Game::parse_id`: "Game" and the id after the first space; None where the source panics. */
  function ParseId(substr: string): (r: Option<nat>)
    ensures r.Some? ==> r.value < U32Limit
  {
    match SplitOnce(substr, ' ')
    case None => None
    case Some((prefix, id)) => if prefix == "Game" then ParseU32(id) else None
  }

  /** `Game::parse_rounds`: the rounds between the semicolons. */
  function ParseRounds(substr: string): Option<seq<Colors>> {
    var pieces := Split(substr, ';');
    Collect(seq(|pieces|, i requires 0 <= i < |pieces| => RoundOf(pieces[i])))
  }

  /** `Game::parse`: the id before the first ':' and the rounds after it; None where the source panics. */
  function ParseGame(line: string): (r: Option<Game>)
    ensures r.Some? ==> r.value.rounds != []
  {
    match SplitOnce(line, ':')
    case None => None
    case Some((head, rest)) =>
      match (ParseId(head), ParseRounds(rest))
      case (Some(id), Some(rounds)) => Some(Game(id, rounds))
      case _ => None
  }

  /** `Game::is_possible_with`: every round fits the bag, checked in order up to the first that does not. */
  method IsPossibleWith(game: Game, bag: Colors) returns (r: bool)
    ensures r <==> forall i :: 0 <= i < |game.rounds| ==> PossibleWith(game.rounds[i], bag)
  {
    for i := 0 to |game.rounds|
      invariant forall j :: 0 <= j < i ==> PossibleWith(game.rounds[j], bag)
    {
      if !PossibleWith(game.rounds[i], bag) {
        return false;
      }
    }
    return true;
  }

  /** A game is possible with a bag when all its rounds are. */
  predicate GamePossible(game: Game, bag: Colors) {
    forall i :: 0 <= i < |game.rounds| ==> PossibleWith(game.rounds[i], bag)
  }

  /** The largest count of each colour over the rounds. */
  function MaxOf(rounds: seq<Colors>): Colors
    decreases |rounds|
  {
    if rounds == [] then Colors(0, 0, 0) else Max(MaxOf(rounds[..|rounds| - 1]), rounds[|rounds| - 1])
  }

  /** Every round fits its game's maxima, and the maxima fit every bag that all rounds fit. */
  lemma {:induction false} MaxOfIsLeastBag(rounds: seq<Colors>, bag: Colors)
    ensures forall i :: 0 <= i < |rounds| ==> PossibleWith(rounds[i], MaxOf(rounds))
    ensures (forall i :: 0 <= i < |rounds| ==> PossibleWith(rounds[i], bag)) ==> PossibleWith(MaxOf(rounds), bag)
    decreases |rounds|
  {
    if rounds != [] {
      var init := rounds[..|rounds| - 1];
      MaxOfIsLeastBag(init, bag);
      assert forall i :: 0 <= i < |init| ==> init[i] == rounds[i];
    }
  }

  /** Each maximum is 0 or the count of some round. */
  lemma {:induction false} MaxOfAttained(rounds: seq<Colors>, k: Color)
    ensures Count(MaxOf(rounds), k) == 0 || exists i :: 0 <= i < |rounds| && Count(rounds[i], k) == Count(MaxOf(rounds), k)
    decreases |rounds|
  {
    if rounds != [] {
      var init := rounds[..|rounds| - 1];
      MaxOfAttained(init, k);
      if Count(MaxOf(rounds), k) != Count(rounds[|rounds| - 1], k) && Count(MaxOf(rounds), k) != 0 {
        var i :| 0 <= i < |init| && Count(init[i], k) == Count(MaxOf(init), k);
        assert init[i] == rounds[i];
      }
    }
  }

  /** A game is possible with a bag exactly when its fewest cubes are: part 1 could be read off part 2's maxima. */
  lemma GamePossibleIffMaxima(game: Game, bag: Colors)
    ensures GamePossible(game, bag) <==> PossibleWith(MaxOf(game.rounds), bag)
  {
    MaxOfIsLeastBag(game.rounds, bag);
    if PossibleWith(MaxOf(game.rounds), bag) {
      forall i | 0 <= i < |game.rounds|
        ensures PossibleWith(game.rounds[i], bag)
      {
        assert PossibleWith(game.rounds[i], MaxOf(game.rounds));
      }
    }
  }

  /** `Game::color_power`: the maxima over the rounds, kept in place, and their power. */
  method ColorPower(game: Game) returns (p: nat)
    ensures p == Power(MaxOf(game.rounds))
  {
    var maxColors := new MaxColors.Default();
    for i := 0 to |game.rounds|
      invariant maxColors.Value() == MaxOf(game.rounds[..i])
    {
      assert game.rounds[..i + 1][..i] == game.rounds[..i];
      maxColors.IncreaseMax(game.rounds[i]);
    }
    assert game.rounds[..|game.rounds|] == game.rounds;
    return Power(maxColors.Value());
  }

  /** No round shows colour `k`. */
  predicate Missing(rounds: seq<Colors>, k: Color) {
    forall i :: 0 <= i < |rounds| ==> Count(rounds[i], k) == 0
  }

  /** A game's power is 0 exactly when some colour shows in none of its rounds. */
  lemma PowerZeroIffColorMissing(game: Game)
    ensures Power(MaxOf(game.rounds)) == 0 <==> exists k :: Missing(game.rounds, k)
  {
    var m := MaxOf(game.rounds);
    MaxOfIsLeastBag(game.rounds, m);
    if Power(m) == 0 {
      var k :| Count(m, k) == 0;
      forall i | 0 <= i < |game.rounds|
        ensures Count(game.rounds[i], k) == 0
      {
        PossibleWithByColor(game.rounds[i], m);
      }
      assert Missing(game.rounds, k);
    } else {
      forall k
        ensures !Missing(game.rounds, k)
      {
        MaxOfAttained(game.rounds, k);
      }
    }
  }

  // ---------------------------------------------------------------------------
  // The two parts.

  /** The bag of part 1. */
  const Bag: Colors := Colors(12, 13, 14)

  /** The games of all lines, or None if a line does not parse. */
  function GamesOf(lines: seq<string>): Option<seq<Game>> {
    Collect(seq(|lines|, i requires 0 <= i < |lines| => ParseGame(lines[i])))
  }

  /** GamesOf fails exactly on a line that does not parse, and otherwise holds each line's game. */
  lemma GamesOfMeaning(lines: seq<string>)
    ensures GamesOf(lines).None? <==> exists i :: 0 <= i < |lines| && ParseGame(lines[i]).None?
    ensures GamesOf(lines).Some? ==> |GamesOf(lines).value| == |lines|
    ensures GamesOf(lines).Some? ==> forall i :: 0 <= i < |lines| ==> GamesOf(lines).value[i] == ParseGame(lines[i]).value
  {
    var rs := seq(|lines|, i requires 0 <= i < |lines| => ParseGame(lines[i]));
    assert forall i :: 0 <= i < |lines| ==> rs[i] == ParseGame(lines[i]);
  }

  /** The ids of the games possible with `bag`, added up. */
  function SumPossibleIds(games: seq<Game>, bag: Colors): nat {
    if games == [] then 0
    else (if GamePossible(games[0], bag) then games[0].id else 0) + SumPossibleIds(games[1..], bag)
  }

  /** The ids of the games whose maxima fit in `bag`, added up. */
  function SumIdsWithinMaxima(games: seq<Game>, bag: Colors): nat {
    if games == [] then 0
    else (if PossibleWith(MaxOf(games[0].rounds), bag) then games[0].id else 0) + SumIdsWithinMaxima(games[1..], bag)
  }

  /** Summing the possible games' ids is summing those whose maxima fit. */
  lemma {:induction false} PossibleIdsByMaxima(games: seq<Game>, bag: Colors)
    ensures SumPossibleIds(games, bag) == SumIdsWithinMaxima(games, bag)
    decreases |games|
  {
    if games != [] {
      GamePossibleIffMaxima(games[0], bag);
      PossibleIdsByMaxima(games[1..], bag);
    }
  }

  /** Every possible game's id is in the sum, and a bigger bag never gives a smaller sum. */
  lemma {:induction false} SumPossibleIdsGrows(games: seq<Game>, small: Colors, big: Colors)
    requires PossibleWith(small, big)
    ensures forall i :: 0 <= i < |games| && GamePossible(games[i], small) ==> games[i].id <= SumPossibleIds(games, small)
    ensures SumPossibleIds(games, small) <= SumPossibleIds(games, big)
    decreases |games|
  {
    if games != [] {
      SumPossibleIdsGrows(games[1..], small, big);
      assert forall i :: 1 <= i < |games| ==> games[i] == games[1..][i - 1];
      if GamePossible(games[0], small) {
        forall i | 0 <= i < |games[0].rounds|
          ensures PossibleWith(games[0].rounds[i], big)
        {
          assert PossibleWith(games[0].rounds[i], small);
        }
      }
    }
  }

  /** The powers of the games, added up. */
  function SumPowers(games: seq<Game>): nat {
    if games == [] then 0 else Power(MaxOf(games[0].rounds)) + SumPowers(games[1..])
  }

  /**
   * `part1`: the ids of the games possible with 12 red, 13 green and 14 blue cubes,
   * added up; None exactly when some line does not parse, where the source panics.
   * The sum is that of the games whose maxima fit in the bag, and holds every
   * possible game's id.
   */
  function Part1(input: string): (r: Option<nat>)
    ensures r.None? <==> exists i :: 0 <= i < |Lines(input)| && ParseGame(Lines(input)[i]).None?
    ensures r.Some? ==> r.value == SumIdsWithinMaxima(GamesOf(Lines(input)).value, Bag)
    ensures r.Some? ==> forall i :: 0 <= i < |Lines(input)| && GamePossible(ParseGame(Lines(input)[i]).value, Bag)
                          ==> ParseGame(Lines(input)[i]).value.id <= r.value
  {
    match GamesOf(Lines(input))
    case Some(games) =>
      GamesOfMeaning(Lines(input));
      PossibleIdsByMaxima(games, Bag);
      SumPossibleIdsGrows(games, Bag, Bag);
      Some(SumPossibleIds(games, Bag))
    case None => GamesOfMeaning(Lines(input)); None
  }

  /** Every game's power is in the sum, which is 0 exactly when every power is. */
  lemma {:induction false} SumPowersBounds(games: seq<Game>)
    ensures forall i :: 0 <= i < |games| ==> Power(MaxOf(games[i].rounds)) <= SumPowers(games)
    ensures SumPowers(games) == 0 <==> forall i :: 0 <= i < |games| ==> Power(MaxOf(games[i].rounds)) == 0
    decreases |games|
  {
    if games != [] {
      SumPowersBounds(games[1..]);
      assert forall i :: 1 <= i < |games| ==> games[i] == games[1..][i - 1];
    }
  }

  /** Some colour shows in none of the game's rounds. */
  predicate LeavesColorOut(game: Game) {
    exists k :: Missing(game.rounds, k)
  }

  /** PowerZeroIffColorMissing for every game of a list. */
  lemma PowersZeroIffColorMissing(games: seq<Game>)
    ensures forall i :: 0 <= i < |games| ==> (Power(MaxOf(games[i].rounds)) == 0 <==> LeavesColorOut(games[i]))
  {
    forall i | 0 <= i < |games|
      ensures Power(MaxOf(games[i].rounds)) == 0 <==> LeavesColorOut(games[i])
    {
      PowerZeroIffColorMissing(games[i]);
    }
  }

  /**
   * `part2`: the powers of all games, added up; None exactly when some line does not
   * parse. Each game's power is in the sum, which is 0 exactly when every game
   * leaves some colour out of all its rounds.
   */
  function Part2(input: string): (r: Option<nat>)
    ensures r.None? <==> exists i :: 0 <= i < |Lines(input)| && ParseGame(Lines(input)[i]).None?
    ensures r.Some? ==> forall i :: 0 <= i < |Lines(input)|
                          ==> Power(MaxOf(ParseGame(Lines(input)[i]).value.rounds)) <= r.value
    ensures r.Some? ==> (r.value == 0 <==> forall i :: 0 <= i < |Lines(input)| ==> LeavesColorOut(ParseGame(Lines(input)[i]).value))
  {
    match GamesOf(Lines(input))
    case Some(games) =>
      GamesOfMeaning(Lines(input));
      SumPowersBounds(games);
      PowersZeroIffColorMissing(games);
      Some(SumPowers(games))
    case None => GamesOfMeaning(Lines(input)); None
  }

  // ---------------------------------------------------------------------------
  // Printing a game and parsing it back.

  /** A draw as the puzzle writes it, after the ',' or ';' before it: " 3 blue". */
  function DrawText(d: Draw): string {
    " " + NatToString(d.count) + " " + ColorName(d.color)
  }

  /** The draws of a round, separated by commas. */
  function RoundText(ds: seq<Draw>): string
    requires ds != []
  {
    Join(seq(|ds|, i requires 0 <= i < |ds| => DrawText(ds[i])), ',')
  }

  /** A game line: "Game <id>:" and the rounds, separated by semicolons. */
  function GameText(id: nat, rounds: seq<seq<Draw>>): string
    requires rounds != [] && forall i :: 0 <= i < |rounds| ==> rounds[i] != []
  {
    "Game " + NatToString(id) + ":" + Join(RoundTexts(rounds), ';')
  }

  /** A string of digits holds no other char. */
  lemma DigitsOnly(s: string, c: char)
    requires AllDigits(s) && !IsDigit(c)
    ensures c !in s
  {
  }

  /** A colour name is a plain lower-case word. */
  lemma ColorNamePlain(k: Color)
    ensures var s := ColorName(k); s != [] && !IsWhitespace(s[|s| - 1]) && ' ' !in s && ',' !in s && ';' !in s
  {
  }

  /** A printed draw, trimmed, is its count, a space and its colour. */
  lemma TrimDrawText(d: Draw)
    ensures Trim(DrawText(d)) == NatToString(d.count) + [' '] + ColorName(d.color)
  {
    var num, name := NatToString(d.count), ColorName(d.color);
    var x := num + [' '] + name;
    assert DrawText(d) == [' '] + x;
    assert x[0] == num[0];
    ColorNamePlain(d.color);
    assert x[|x| - 1] == name[|name| - 1];
    TrimLeadingSpace(x);
  }

  /** A printed draw parses back. */
  lemma ParseDrawText(d: Draw)
    requires d.count < U32Limit
    ensures ParseDraw(DrawText(d)) == Some(d)
  {
    var num, name := NatToString(d.count), ColorName(d.color);
    assert SplitOnce(Trim(DrawText(d)), ' ') == Some((num, name)) by {
      TrimDrawText(d);
      SplitOnceAfter(num, ' ', name);
    }
    assert ParseU32(num) == Some(d.count) by {
      ParseNatToString(d.count);
    }
  }

  /** A printed draw holds no ',' or ';'. */
  lemma DrawTextPlain(d: Draw)
    ensures ',' !in DrawText(d) && ';' !in DrawText(d)
  {
    var num, name := NatToString(d.count), ColorName(d.color);
    DigitsOnly(num, ';');
    ColorNamePlain(d.color);
    assert DrawText(d) == [' '] + num + [' '] + name;
  }

  /** A printed round parses back to the tally of its draws. */
  lemma ParseRoundText(ds: seq<Draw>)
    requires ds != [] && forall i :: 0 <= i < |ds| ==> ds[i].count < U32Limit
    ensures RoundOf(RoundText(ds)) == Some(Tally(ds))
    ensures ';' !in RoundText(ds)
  {
    var texts := seq(|ds|, i requires 0 <= i < |ds| => DrawText(ds[i]));
    forall i | 0 <= i < |ds|
      ensures ParseDraw(texts[i]) == Some(ds[i]) && ',' !in texts[i] && ';' !in texts[i]
    {
      ParseDrawText(ds[i]);
      DrawTextPlain(ds[i]);
    }
    SplitJoin(texts, ',');
    DrawsOfAll(texts, ds);
    JoinAvoids(texts, ',', ';');
  }

  /** The texts of the rounds. */
  function RoundTexts(rounds: seq<seq<Draw>>): (ts: seq<string>)
    requires forall i :: 0 <= i < |rounds| ==> rounds[i] != []
    ensures |ts| == |rounds|
  {
    seq(|rounds|, i requires 0 <= i < |rounds| => RoundText(rounds[i]))
  }

  /** The tallies of the rounds. */
  function Tallies(rounds: seq<seq<Draw>>): (cs: seq<Colors>)
    ensures |cs| == |rounds|
  {
    seq(|rounds|, i requires 0 <= i < |rounds| => Tally(rounds[i]))
  }

  /** The rounds of a text are those of its pieces between the semicolons. */
  lemma ParseRoundsOfSplit(substr: string, pieces: seq<string>)
    requires Split(substr, ';') == pieces
    ensures ParseRounds(substr) == Collect(seq(|pieces|, i requires 0 <= i < |pieces| => RoundOf(pieces[i])))
  {
  }

  /** Pieces that each parse to a round collect into those rounds. */
  lemma ParseRoundsAll(pieces: seq<string>, cs: seq<Colors>)
    requires |pieces| == |cs| && forall i :: 0 <= i < |pieces| ==> RoundOf(pieces[i]) == Some(cs[i])
    ensures Collect(seq(|pieces|, i requires 0 <= i < |pieces| => RoundOf(pieces[i]))) == Some(cs)
  {
    var rs := seq(|pieces|, i requires 0 <= i < |pieces| => RoundOf(pieces[i]));
    CollectAll(rs, cs);
  }

  /** Printed rounds, separated by semicolons, parse back to their tallies. */
  lemma ParseRoundsText(rounds: seq<seq<Draw>>)
    requires rounds != [] && forall i :: 0 <= i < |rounds| ==> rounds[i] != []
    requires forall i, j :: 0 <= i < |rounds| && 0 <= j < |rounds[i]| ==> rounds[i][j].count < U32Limit
    ensures ParseRounds(Join(RoundTexts(rounds), ';')) == Some(Tallies(rounds))
  {
    var texts := RoundTexts(rounds);
    forall i | 0 <= i < |rounds|
      ensures RoundOf(texts[i]) == Some(Tally(rounds[i])) && ';' !in texts[i]
    {
      ParseRoundText(rounds[i]);
    }
    SplitJoin(texts, ';');
    ParseRoundsOfSplit(Join(texts, ';'), texts);
    var tallies := Tallies(rounds);
    ParseRoundsAll(texts, tallies);
  }

  /** A line whose head and rounds both parse is parsed to the game they make up. */
  lemma ParseGameOfParts(line: string, head: string, tail: string, id: nat, rounds: seq<Colors>)
    requires SplitOnce(line, ':') == Some((head, tail))
    requires ParseId(head) == Some(id) && ParseRounds(tail) == Some(rounds)
    ensures ParseGame(line) == Some(Game(id, rounds))
  {
  }

  /** The text of a game splits at its colon into the id part and the rounds part. */
  lemma GameTextSplits(id: nat, rounds: seq<seq<Draw>>)
    requires rounds != [] && forall i :: 0 <= i < |rounds| ==> rounds[i] != []
    ensures SplitOnce(GameText(id, rounds), ':') == Some(("Game " + NatToString(id), Join(RoundTexts(rounds), ';')))
  {
    var idText := NatToString(id);
    var head := "Game " + idText;
    var tail := Join(RoundTexts(rounds), ';');
    DigitsOnly(idText, ':');
    assert GameText(id, rounds) == head + [':'] + tail;
    SplitOnceAfter(head, ':', tail);
  }

  /** The id part of a game's text parses back to the id. */
  lemma GameHeadParses(id: nat)
    requires id < U32Limit
    ensures ParseId("Game " + NatToString(id)) == Some(id)
  {
    var idText := NatToString(id);
    assert "Game " + idText == "Game" + [' '] + idText;
    SplitOnceAfter("Game", ' ', idText);
    ParseNatToString(id);
  }

  /** A printed game parses back to its id and the tallies of its rounds. */
  lemma ParseGameText(id: nat, rounds: seq<seq<Draw>>)
    requires id < U32Limit && rounds != []
    requires forall i :: 0 <= i < |rounds| ==> rounds[i] != []
    requires forall i, j :: 0 <= i < |rounds| && 0 <= j < |rounds[i]| ==> rounds[i][j].count < U32Limit
    ensures ParseGame(GameText(id, rounds)) == Some(Game(id, Tallies(rounds)))
  {
    GameTextSplits(id, rounds);
    GameHeadParses(id);
    ParseRoundsText(rounds);
    ParseGameOfParts(GameText(id, rounds), "Game " + NatToString(id), Join(RoundTexts(rounds), ';'), id, Tallies(rounds));
  }
}
