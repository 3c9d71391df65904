/**
 * Day 4, "Scratchcards": each card lists winning numbers and the numbers one has; its
 * matches score points (part 1), and win copies of the cards after it, which are stacked
 * on a pile and scratched in turn until the pile is empty (part 2).
 */
module Day4Main {
  import opened Wrappers
  import opened Text

  /** A scratchcard; `isCopy` marks a card won from another one. */
  datatype Card = Card(id: nat, isCopy: bool, winning: seq<nat>, chosen: seq<nat>)

  /** `Card::clone`: a won copy, with the original's id and numbers. */
  function Clone(c: Card): (r: Card)
    ensures r.isCopy && r.id == c.id && r.winning == c.winning && r.chosen == c.chosen
  {
    c.(isCopy := true)
  }

  /** How many of `chosen` occur in `winning`, each occurrence in `chosen` counted. */
  function MatchCount(chosen: seq<nat>, winning: seq<nat>): (m: nat)
    ensures m <= |chosen|
    ensures m == 0 <==> forall i :: 0 <= i < |chosen| ==> chosen[i] !in winning
    ensures m == |chosen| <==> forall i :: 0 <= i < |chosen| ==> chosen[i] in winning
  {
    if chosen == [] then 0
    else
      assert forall i :: 1 <= i < |chosen| ==> chosen[i] == chosen[1..][i - 1];
      (if chosen[0] in winning then 1 else 0) + MatchCount(chosen[1..], winning)
  }

  /** Counting over two stretches of chosen numbers adds up. */
  lemma {:induction false} MatchCountAppend(a: seq<nat>, b: seq<nat>, winning: seq<nat>)
    ensures MatchCount(a + b, winning) == MatchCount(a, winning) + MatchCount(b, winning)
  {
    if a == [] {
      assert a + b == b;
    } else {
      assert (a + b)[1..] == a[1..] + b;
      MatchCountAppend(a[1..], b, winning);
    }
  }

  /** `Card::matches`. */
  function Matches(c: Card): nat {
    MatchCount(c.chosen, c.winning)
  }

  function Pow2(k: nat): (r: nat)
    ensures r >= 1
  {
    if k == 0 then 1 else 2 * Pow2(k - 1)
  }

  /** `Card::points`: nothing without a match, else one point doubled for every further match. */
  function Points(c: Card): nat {
    if Matches(c) == 0 then 0 else Pow2(Matches(c) - 1)
  }

  /**
   * A card scores iff one of its chosen numbers wins, and one more winning number doubles a
   * scoring card's points.
   */
  lemma PointsDouble(c: Card, x: nat)
    requires x in c.winning
    ensures Points(c) > 0 <==> exists i :: 0 <= i < |c.chosen| && c.chosen[i] in c.winning
    ensures Points(c) > 0 ==> Points(c.(chosen := c.chosen + [x])) == 2 * Points(c)
  {
    MatchCountAppend(c.chosen, [x], c.winning);
  }

  /** A copy scores and matches as its original does. */
  lemma CloneScores(c: Card)
    ensures Matches(Clone(c)) == Matches(c) && Points(Clone(c)) == Points(c)
  {
  }

  /** `Card::parse_num_array`: the numbers between runs of spaces; None where it panics. */
  function ParseNumArray(s: string): Option<seq<nat>> {
    ParseAll(NonEmpty(Split(s, ' ')))
  }

  /**
   * `Card::parse`: the id is the second word before ':', the numbers before and after '|'
   * are the winning and the chosen ones; None where the source panics.
   */
  function ParseCard(line: string): (r: Option<Card>)
    ensures r.Some? ==> !r.value.isCopy
  {
    match SplitOnce(line, ':')
    case None => None
    case Some((prefix, numbers)) =>
      var words := NonEmpty(Split(prefix, ' '));
      if |words| < 2 then None
      else
        match (ParseNat(words[1]), SplitOnce(numbers, '|'))
        case (Some(id), Some((w, c))) =>
          (match (ParseNumArray(w), ParseNumArray(c))
           case (Some(ws), Some(cs)) => Some(Card(id, false, ws, cs))
           case _ => None)
        case _ => None
  }

  function Spaces(n: nat): (s: string)
    ensures |s| == n && forall i :: 0 <= i < n ==> s[i] == ' '
  {
    if n == 0 then [] else [' '] + Spaces(n - 1)
  }

  /** Numbers written each after one space. */
  function Spaced(ns: seq<nat>): (s: string)
    ensures '|' !in s && ':' !in s && '\n' !in s
    ensures ns != [] ==> |s| > 0 && s[0] == ' '
  {
    if ns == [] then [] else [' '] + NatToString(ns[0]) + Spaced(ns[1..])
  }

  /** The part of a written card before ':'; `pad` extra spaces precede the id. */
  function CardPrefix(pad: nat, id: nat): string {
    "Card" + Spaces(pad + 1) + NatToString(id)
  }

  /** The part of a written card after ':'. */
  function CardNumbers(winning: seq<nat>, chosen: seq<nat>): string {
    (Spaced(winning) + [' ']) + ['|'] + Spaced(chosen)
  }

  /** A card as the puzzle writes it. */
  function CardLine(pad: nat, id: nat, winning: seq<nat>, chosen: seq<nat>): string {
    CardPrefix(pad, id) + [':'] + CardNumbers(winning, chosen)
  }

  /** A leading space splits off an empty piece. */
  lemma SplitSpace(rest: string)
    ensures Split([' '] + rest, ' ') == [[]] + Split(rest, ' ')
  {
    SplitAfter([], ' ', rest);
    assert [] + [' '] + rest == [' '] + rest;
  }

  /** A word without spaces is a single piece. */
  lemma SplitPlain(word: string)
    requires ' ' !in word
    ensures Split(word, ' ') == [word]
  {
  }

  /** A word and what follows it from a space on: the word is the first piece. */
  lemma WordPieces(word: string, rest: string)
    requires word != [] && ' ' !in word
    requires rest == [] || rest[0] == ' '
    ensures NonEmpty(Split(word + rest, ' ')) == [word] + NonEmpty(Split(rest, ' '))
  {
    if rest == [] {
      assert word + rest == word;
      SplitPlain(word);
      SplitPlain(rest);
      NonEmptyCons(word, []);
      NonEmptyCons([], []);
    } else {
      var after := rest[1..];
      assert rest == [' '] + after;
      assert word + rest == word + [' '] + after;
      SplitAfter(word, ' ', after);
      NonEmptyCons(word, Split(after, ' '));
      SplitSpace(after);
      NonEmptyCons([], Split(after, ' '));
    }
  }

  /** A space, a word and what follows it from a space on: the word is the next piece. */
  lemma SplitWord(word: string, rest: string)
    requires word != [] && ' ' !in word
    requires rest == [] || rest[0] == ' '
    ensures NonEmpty(Split([' '] + word + rest, ' ')) == [word] + NonEmpty(Split(rest, ' '))
  {
    Assoc([' '], word, rest);
    SplitSpace(word + rest);
    NonEmptyCons([], Split(word + rest, ' '));
    WordPieces(word, rest);
  }

  lemma Assoc<T>(a: seq<T>, b: seq<T>, c: seq<T>)
    ensures (a + b) + c == a + (b + c)
  {
  }

  lemma Regroup<T>(a: seq<T>, b: seq<T>, c: seq<T>, d: seq<T>)
    ensures (a + b + c) + d == a + b + (c + d)
  {
  }

  /** The pieces of spaced numbers are the numbers' texts. */
  lemma {:induction false} SpacedPieces(ns: seq<nat>, tail: string)
    requires tail == [] || tail[0] == ' '
    ensures NonEmpty(Split(Spaced(ns) + tail, ' ')) == Texts(ns) + NonEmpty(Split(tail, ' '))
  {
    if ns == [] {
      assert Spaced(ns) + tail == tail;
      assert Texts(ns) == [];
    } else {
      var t := NatToString(ns[0]);
      var later := ns[1..];
      var rest := Spaced(later) + tail;
      Regroup([' '], t, Spaced(later), tail);
      if later == [] {
        assert rest == tail;
      } else {
        assert rest[0] == ' ';
      }
      SplitWord(t, rest);
      SpacedPieces(later, tail);
      TextsCons(ns);
      Assoc([t], Texts(later), NonEmpty(Split(tail, ' ')));
    }
  }

  /** Spaced numbers, with or without one more space, parse back. */
  lemma ParseSpaced(ns: seq<nat>, tail: string)
    requires tail == [] || tail == [' ']
    ensures ParseNumArray(Spaced(ns) + tail) == Some(ns)
  {
    SpacedPieces(ns, tail);
    if tail == [' '] {
      SplitSpace([]);
      assert tail == [' '] + [];
      NonEmptyCons([], [[]]);
    }
    NonEmptyCons([], []);
    assert NonEmpty(Split(tail, ' ')) == [];
    assert Texts(ns) + [] == Texts(ns);
    ParseAllTexts(ns);
  }

  /** Spaces before a word leave only the word. */
  lemma {:induction false} PaddedWord(pad: nat, word: string)
    requires word != [] && ' ' !in word
    ensures NonEmpty(Split(Spaces(pad) + word, ' ')) == [word]
  {
    if pad == 0 {
      assert Spaces(pad) + word == word;
      SplitPlain(word);
      NonEmptyCons(word, []);
    } else {
      Assoc([' '], Spaces(pad - 1), word);
      SplitSpace(Spaces(pad - 1) + word);
      NonEmptyCons([], Split(Spaces(pad - 1) + word, ' '));
      PaddedWord(pad - 1, word);
    }
  }

  /** Two words apart by runs of spaces are the two pieces. */
  lemma TwoWords(first: string, pad: nat, second: string)
    requires first != [] && ' ' !in first && second != [] && ' ' !in second
    ensures NonEmpty(Split(first + Spaces(pad + 1) + second, ' ')) == [first, second]
  {
    assert first + Spaces(pad + 1) + second == first + [' '] + (Spaces(pad) + second);
    SplitAfter(first, ' ', Spaces(pad) + second);
    NonEmptyCons(first, Split(Spaces(pad) + second, ' '));
    PaddedWord(pad, second);
  }

  lemma CardWord(w: string)
    requires w == "Card"
    ensures w != [] && ' ' !in w && ':' !in w
  {
  }

  /** The written prefix has the id as its second word and no ':'. */
  lemma PrefixWords(pad: nat, id: nat)
    ensures NonEmpty(Split(CardPrefix(pad, id), ' ')) == ["Card", NatToString(id)]
    ensures ':' !in CardPrefix(pad, id)
  {
    CardWord("Card");
    TwoWords("Card", pad, NatToString(id));
  }

  /** The written numbers split at '|' and parse back. */
  lemma NumbersParts(winning: seq<nat>, chosen: seq<nat>)
    ensures var parts := SplitOnce(CardNumbers(winning, chosen), '|');
      parts.Some? && ParseNumArray(parts.value.0) == Some(winning)
      && ParseNumArray(parts.value.1) == Some(chosen)
  {
    var w := Spaced(winning) + [' '];
    assert '|' !in w;
    SplitOnceAfter(w, '|', Spaced(chosen));
    ParseSpaced(winning, [' ']);
    ParseSpaced(chosen, []);
    assert Spaced(chosen) + [] == Spaced(chosen);
  }

  /** A written card parses back to the card it shows. */
  lemma ParseCardLine(pad: nat, id: nat, winning: seq<nat>, chosen: seq<nat>)
    ensures ParseCard(CardLine(pad, id, winning, chosen)) == Some(Card(id, false, winning, chosen))
  {
    var prefix := CardPrefix(pad, id);
    PrefixWords(pad, id);
    SplitOnceAfter(prefix, ':', CardNumbers(winning, chosen));
    ParseNatToString(id);
    NumbersParts(winning, chosen);
  }

  lemma {:induction false} SpacedAppend(ns: seq<nat>, n: nat)
    ensures Spaced(ns + [n]) == Spaced(ns) + [' '] + NatToString(n)
  {
    if ns == [] {
      assert ns + [n] == [n];
      assert [n][1..] == [];
    } else {
      assert (ns + [n])[1..] == ns[1..] + [n];
      SpacedAppend(ns[1..], n);
    }
  }

  /** The cards of the input's lines: `lines().map(Card::parse)`; None where a line panics. */
  function ParseCards(lines: seq<string>): Option<seq<Card>> {
    Collect(seq(|lines|, i requires 0 <= i < |lines| => ParseCard(lines[i])))
  }

  function ParseDeck(input: string): Option<seq<Card>> {
    ParseCards(Lines(input))
  }

  function SumPoints(cards: seq<Card>): nat {
    if cards == [] then 0 else Points(cards[0]) + SumPoints(cards[1..])
  }

  /** `part1`: the points of all cards together; None where parsing panics. */
  function Part1(input: string): (r: Option<nat>)
    ensures r.Some? <==> ParseDeck(input).Some?
  {
    match ParseDeck(input)
    case None => None
    case Some(cards) => Some(SumPoints(cards))
  }

  /** Each card written as its own line. */
  function Written(cards: seq<Card>): (ls: seq<string>)
    ensures |ls| == |cards|
    ensures forall i :: 0 <= i < |cards| ==> ls[i] == CardLine(0, cards[i].id, cards[i].winning, cards[i].chosen)
  {
    seq(|cards|, i requires 0 <= i < |cards| => CardLine(0, cards[i].id, cards[i].winning, cards[i].chosen))
  }

  lemma DigitsPlain(s: string)
    requires AllDigits(s)
    ensures '\n' !in s && '\r' !in s
  {
  }

  lemma {:induction false} SpacedPlain(ns: seq<nat>)
    ensures '\r' !in Spaced(ns)
  {
    if ns != [] {
      DigitsPlain(NatToString(ns[0]));
      SpacedPlain(ns[1..]);
    }
  }

  /** A written card is one line, and not one that `lines` trims. */
  lemma CardLinePlain(pad: nat, id: nat, winning: seq<nat>, chosen: seq<nat>)
    ensures var line := CardLine(pad, id, winning, chosen);
      line != [] && '\n' !in line && '\r' !in line && StripCr(line) == line
  {
    var line := CardLine(pad, id, winning, chosen);
    DigitsPlain(NatToString(id));
    SpacedPlain(winning);
    SpacedPlain(chosen);
    CardWord("Card");
    assert '\n' !in "Card" && '\r' !in "Card";
    assert line[|line| - 1] != '\r';
  }

  /** Written cards parse back. */
  lemma ParseWritten(cards: seq<Card>)
    requires forall i :: 0 <= i < |cards| ==> !cards[i].isCopy
    ensures ParseCards(Written(cards)) == Some(cards)
  {
    var ls := Written(cards);
    forall i | 0 <= i < |ls|
      ensures ParseCard(ls[i]) == Some(cards[i])
    {
      ParseCardLine(0, cards[i].id, cards[i].winning, cards[i].chosen);
    }
    var rs := seq(|ls|, i requires 0 <= i < |ls| => ParseCard(ls[i]));
    assert forall i :: 0 <= i < |ls| ==> rs[i] == Some(cards[i]);
    var r := Collect(rs);
    assert r.Some?;
    assert r.value == cards;
  }

  /** Written cards, joined by line breaks, read back as their lines. */
  lemma LinesOfWritten(cards: seq<Card>)
    requires cards != []
    ensures Lines(Join(Written(cards), '\n')) == Written(cards)
  {
    var ls := Written(cards);
    forall i | 0 <= i < |ls|
      ensures ls[i] != [] && '\n' !in ls[i] && StripCr(ls[i]) == ls[i]
    {
      CardLinePlain(0, cards[i].id, cards[i].winning, cards[i].chosen);
    }
    LinesOfJoin(ls);
  }

  /** `part1` on cards written one per line: the sum of their points. */
  lemma Part1OfWritten(cards: seq<Card>)
    requires cards != [] && forall i :: 0 <= i < |cards| ==> !cards[i].isCopy
    ensures Part1(Join(Written(cards), '\n')) == Some(SumPoints(cards))
  {
    LinesOfWritten(cards);
    ParseWritten(cards);
  }

  function Reverse<T>(s: seq<T>): (r: seq<T>)
    ensures |r| == |s| && forall i :: 0 <= i < |s| ==> r[i] == s[|s| - 1 - i]
  {
    seq(|s|, i requires 0 <= i < |s| => s[|s| - 1 - i])
  }

  lemma ReverseAppend<T>(a: seq<T>, b: seq<T>)
    ensures Reverse(a + b) == Reverse(b) + Reverse(a)
  {
    var r := Reverse(b) + Reverse(a);
    assert forall i :: 0 <= i < |a| + |b| ==> r[i] == (a + b)[|a| + |b| - 1 - i];
  }

  lemma ReverseReverse<T>(s: seq<T>)
    ensures Reverse(Reverse(s)) == s
  {
  }

  /** A pile made from a deck yields the deck's first card, then the pile of the rest. */
  lemma PileOrder(deck: seq<Card>)
    requires deck != []
    ensures var cs := Reverse(deck);
      cs[|cs| - 1] == deck[0] && cs[..|cs| - 1] == Reverse(deck[1..])
  {
    ReverseAppend([deck[0]], deck[1..]);
    assert [deck[0]] + deck[1..] == deck;
  }

  /**
   * The cards won by the card on top: the next `n` cards that are not copies and have a larger
   * id than `above`, looking from the top (`topFirst` is the pile read from its top), cloned.
   */
  function Copies(topFirst: seq<Card>, above: nat, n: nat): (r: seq<Card>)
    ensures |r| <= n && |r| <= NonCopies(topFirst)
    ensures forall j :: 0 <= j < |r| ==> r[j].isCopy && above < r[j].id
  {
    if n == 0 || topFirst == [] then []
    else
      var c := topFirst[0];
      var later := topFirst[1..];
      assert forall q :: 0 <= q < |later| ==> later[q] == topFirst[q + 1];
      if !c.isCopy && c.id > above then [Clone(c)] + Copies(later, above, n - 1)
      else Copies(later, above, n)
  }

  /** Every won copy is a clone of an original card in the pile. */
  lemma {:induction false} CopiesAreClones(topFirst: seq<Card>, above: nat, n: nat, r: seq<Card>)
    requires r == Copies(topFirst, above, n)
    ensures forall j :: 0 <= j < |r| ==>
      exists q :: 0 <= q < |topFirst| && !topFirst[q].isCopy && r[j] == Clone(topFirst[q])
  {
    if n > 0 && topFirst != [] {
      var c := topFirst[0];
      var later := topFirst[1..];
      if !c.isCopy && c.id > above {
        CopiesAreClones(later, above, n - 1, Copies(later, above, n - 1));
        assert r == [Clone(c)] + Copies(later, above, n - 1);
        forall j | 1 <= j < |r|
          ensures exists q :: 0 <= q < |topFirst| && !topFirst[q].isCopy && r[j] == Clone(topFirst[q])
        {
          var q :| 0 <= q < |later| && !later[q].isCopy && r[j] == Clone(later[q]);
          assert topFirst[q + 1] == later[q];
        }
        assert r[0] == Clone(topFirst[0]);
      } else {
        CopiesAreClones(later, above, n, r);
        forall j | 0 <= j < |r|
          ensures exists q :: 0 <= q < |topFirst| && !topFirst[q].isCopy && r[j] == Clone(topFirst[q])
        {
          var q :| 0 <= q < |later| && !later[q].isCopy && r[j] == Clone(later[q]);
          assert topFirst[q + 1] == later[q];
        }
      }
    }
  }

  function NonCopies(cards: seq<Card>): (k: nat)
    ensures k <= |cards|
  {
    if cards == [] then 0 else (if cards[0].isCopy then 0 else 1) + NonCopies(cards[1..])
  }

  /** The originals in `topFirst` come in increasing id order. */
  ghost predicate AscendingOriginals(topFirst: seq<Card>) {
    forall i, j :: 0 <= i < j < |topFirst| && !topFirst[i].isCopy && !topFirst[j].isCopy ==>
      topFirst[i].id < topFirst[j].id
  }

  predicate IdsAscending(cards: seq<Card>) {
    forall i, j :: 0 <= i < j < |cards| ==> cards[i].id < cards[j].id
  }

  lemma AscendingCons(c: Card, rest: seq<Card>)
    requires IdsAscending(rest) && forall j :: 0 <= j < |rest| ==> c.id < rest[j].id
    ensures IdsAscending([c] + rest)
  {
    var r := [c] + rest;
    forall i, j | 0 <= i < j < |r|
      ensures r[i].id < r[j].id
    {
      assert r[j] == rest[j - 1];
      if i > 0 {
        assert r[i] == rest[i - 1];
      }
    }
  }

  lemma LaterAscending(topFirst: seq<Card>)
    requires topFirst != [] && AscendingOriginals(topFirst)
    ensures AscendingOriginals(topFirst[1..])
  {
    var later := topFirst[1..];
    assert forall q :: 0 <= q < |later| ==> later[q] == topFirst[q + 1];
  }

  /** An original on top has a smaller id than every copy taken from below it. */
  lemma FirstBelow(topFirst: seq<Card>, above: nat, n: nat, rest: seq<Card>)
    requires topFirst != [] && !topFirst[0].isCopy && AscendingOriginals(topFirst)
    requires rest == Copies(topFirst[1..], above, n)
    ensures forall j :: 0 <= j < |rest| ==> topFirst[0].id < rest[j].id
  {
    var later := topFirst[1..];
    CopiesAreClones(later, above, n, rest);
    forall j | 0 <= j < |rest|
      ensures topFirst[0].id < rest[j].id
    {
      var q :| 0 <= q < |later| && !later[q].isCopy && rest[j] == Clone(later[q]);
      assert later[q] == topFirst[q + 1];
    }
  }

  /** Copies taken from originals in increasing id order come in increasing id order. */
  lemma {:induction false} CopiesAscending(topFirst: seq<Card>, above: nat, n: nat)
    requires AscendingOriginals(topFirst)
    ensures IdsAscending(Copies(topFirst, above, n))
  {
    if n > 0 && topFirst != [] {
      var c := topFirst[0];
      LaterAscending(topFirst);
      if !c.isCopy && c.id > above {
        CopiesAscending(topFirst[1..], above, n - 1);
        FirstBelow(topFirst, above, n - 1, Copies(topFirst[1..], above, n - 1));
        AscendingCons(Clone(c), Copies(topFirst[1..], above, n - 1));
      } else {
        CopiesAscending(topFirst[1..], above, n);
      }
    }
  }

  /** The top of the pile, which `Pop` takes. */
  function Top(cards: seq<Card>): Card
    requires cards != []
  {
    cards[|cards| - 1]
  }

  /** The pile with the card just popped put back on top. */
  function Stack(cards: seq<Card>, popped: Option<Card>): seq<Card> {
    if popped.Some? then cards + [popped.value] else cards
  }

  /**
   * The pile of part 2, as a vector whose last card is on top. Won copies are put on top so
   * that the first of them comes off next.
   */
  class Pile {
    var cards: seq<Card>

    /** `Pile::new` on cards already parsed: the first card ends up on top. */
    constructor (deck: seq<Card>)
      ensures cards == Reverse(deck)
    {
      cards := Reverse(deck);
    }

    /** `Pile::new`: the input's cards, the first on top; None where parsing panics. */
    static method New(input: string) returns (r: Option<Pile>)
      ensures r.None? <==> ParseDeck(input).None?
      ensures r.Some? ==> fresh(r.value) && r.value.cards == Reverse(ParseDeck(input).value)
    {
      match ParseDeck(input)
      case None =>
        r := None;
      case Some(deck) =>
        var p := new Pile(deck);
        r := Some(p);
    }

    /** `Pile::pop`: takes the top card, if any. */
    method Pop() returns (c: Option<Card>)
      modifies this
      ensures c.None? <==> old(cards) == []
      ensures Stack(cards, c) == old(cards)
    {
      if cards == [] {
        c := None;
      } else {
        c := Some(cards[|cards| - 1]);
        cards := cards[..|cards| - 1];
      }
    }

    /** `Pile::process_card`: puts the copies `card` wins on top, the first of them topmost. */
    method ProcessCard(card: Card)
      modifies this
      ensures cards == old(cards) + Reverse(Copies(Reverse(old(cards)), card.id, Matches(card)))
    {
      var copies := Copies(Reverse(cards), card.id, Matches(card));
      cards := cards + Reverse(copies);
    }
  }

  /** After `process_card` the won copies are the next cards to come off the pile, in order. */
  lemma CopiesOnTop(cards: seq<Card>, copies: seq<Card>)
    ensures var after := cards + Reverse(copies);
      forall i :: 0 <= i < |copies| ==> after[|after| - 1 - i] == copies[i]
  {
  }

  /** One round of `part2`: the top card comes off and the copies it wins go on top. */
  function Scratch(stack: seq<Card>): seq<Card>
    requires stack != []
  {
    var rest := stack[..|stack| - 1];
    var c := stack[|stack| - 1];
    rest + Reverse(Copies(Reverse(rest), c.id, Matches(c)))
  }

  // Termination of part 2. A card with id `i` weighs `base^(top - i)`, where `top` is the
  // largest id and `base` one more than the number of originals: the copies a card wins all
  // have larger ids, and there are fewer of them than `base`, so they weigh less than it.

  function Pow(base: nat, e: nat): (r: nat)
    ensures base >= 1 ==> r >= 1
  {
    if e == 0 then 1 else base * Pow(base, e - 1)
  }

  lemma {:induction false} PowMonotone(base: nat, d: nat, e: nat)
    requires base >= 1 && d <= e
    ensures Pow(base, d) <= Pow(base, e)
    decreases e
  {
    if d < e {
      PowMonotone(base, d, e - 1);
      MulGrow(base, Pow(base, e - 1));
    }
  }

  function Weight(cards: seq<Card>, base: nat, top: nat): nat {
    if cards == [] then 0
    else (if cards[0].id <= top then Pow(base, top - cards[0].id) else 0) + Weight(cards[1..], base, top)
  }

  predicate IdsAtMost(cards: seq<Card>, top: nat) {
    forall i :: 0 <= i < |cards| ==> cards[i].id <= top
  }

  lemma {:induction false} WeightAppend(a: seq<Card>, b: seq<Card>, base: nat, top: nat)
    ensures Weight(a + b, base, top) == Weight(a, base, top) + Weight(b, base, top)
  {
    if a == [] {
      assert a + b == b;
    } else {
      assert (a + b)[1..] == a[1..] + b;
      WeightAppend(a[1..], b, base, top);
    }
  }

  lemma {:induction false} NonCopiesAppend(a: seq<Card>, b: seq<Card>)
    ensures NonCopies(a + b) == NonCopies(a) + NonCopies(b)
  {
    if a == [] {
      assert a + b == b;
    } else {
      assert (a + b)[1..] == a[1..] + b;
      NonCopiesAppend(a[1..], b);
    }
  }

  lemma {:induction false} ReverseSums(cards: seq<Card>, base: nat, top: nat)
    ensures Weight(Reverse(cards), base, top) == Weight(cards, base, top)
    ensures NonCopies(Reverse(cards)) == NonCopies(cards)
  {
    if cards != [] {
      var c := cards[0];
      ReverseAppend([c], cards[1..]);
      assert [c] + cards[1..] == cards;
      assert Reverse([c]) == [c];
      ReverseSums(cards[1..], base, top);
      WeightAppend(Reverse(cards[1..]), [c], base, top);
      NonCopiesAppend(Reverse(cards[1..]), [c]);
    }
  }

  lemma {:induction false} AllCopies(cards: seq<Card>)
    requires forall i :: 0 <= i < |cards| ==> cards[i].isCopy
    ensures NonCopies(cards) == 0
  {
    if cards != [] {
      AllCopies(cards[1..]);
    }
  }

  /** Cards with ids above `above` and at most `top` each weigh at most `base^(top - above - 1)`. */
  lemma {:induction false} WeightAbove(cards: seq<Card>, base: nat, top: nat, above: nat)
    requires base >= 1 && above < top
    requires forall i :: 0 <= i < |cards| ==> above < cards[i].id <= top
    ensures Weight(cards, base, top) <= |cards| * Pow(base, top - above - 1)
  {
    if cards != [] {
      var bound := Pow(base, top - above - 1);
      PowMonotone(base, top - cards[0].id, top - above - 1);
      WeightAbove(cards[1..], base, top, above);
      assert Weight(cards, base, top) <= bound + (|cards| - 1) * bound;
      MulSucc(|cards| - 1, bound);
    }
  }

  lemma MulSucc(k: nat, p: nat)
    ensures p + k * p == (k + 1) * p
  {
  }

  lemma MulGrow(a: nat, b: nat)
    requires a >= 1
    ensures a * b >= b
  {
  }

  lemma MulBelow(k: nat, size: nat, p: nat)
    requires k <= size && p >= 1
    ensures k * p < (size + 1) * p
  {
    assert k * p <= size * p;
  }

  /** The copies won from a pile with bounded ids have larger ids than their winner and stay bounded. */
  lemma CopiesBounded(rest: seq<Card>, c: Card, top: nat, copies: seq<Card>)
    requires IdsAtMost(rest, top) && copies == Copies(Reverse(rest), c.id, Matches(c))
    ensures forall j :: 0 <= j < |copies| ==> c.id < copies[j].id <= top
  {
    CopiesAreClones(Reverse(rest), c.id, Matches(c), copies);
    forall j | 0 <= j < |copies|
      ensures c.id < copies[j].id <= top
    {
      var q :| 0 <= q < |Reverse(rest)| && !Reverse(rest)[q].isCopy && copies[j] == Clone(Reverse(rest)[q]);
    }
  }

  /** Fewer than `base` cards with ids above `id` weigh less than one card with id `id`. */
  lemma CopiesLighter(copies: seq<Card>, base: nat, top: nat, size: nat, id: nat)
    requires base == size + 1 && |copies| <= size && id <= top
    requires forall j :: 0 <= j < |copies| ==> id < copies[j].id <= top
    ensures Weight(copies, base, top) < Pow(base, top - id)
  {
    if copies == [] {
    } else {
      assert id < copies[0].id;
      WeightAbove(copies, base, top, id);
      MulBelow(|copies|, size, Pow(base, top - id - 1));
      assert Pow(base, top - id) == base * Pow(base, top - id - 1);
    }
  }

  lemma IdsAtMostAppend(a: seq<Card>, b: seq<Card>, top: nat)
    requires IdsAtMost(a, top) && IdsAtMost(b, top)
    ensures IdsAtMost(a + b, top)
  {
  }

  /** What one card wins weighs less than the card. */
  lemma WonLighter(rest: seq<Card>, c: Card, base: nat, top: nat, size: nat)
    requires base == size + 1 && IdsAtMost(rest, top) && NonCopies(rest) <= size && c.id <= top
    ensures Weight(Copies(Reverse(rest), c.id, Matches(c)), base, top) < Pow(base, top - c.id)
  {
    var copies := Copies(Reverse(rest), c.id, Matches(c));
    ReverseSums(rest, base, top);
    CopiesBounded(rest, c, top, copies);
    CopiesLighter(copies, base, top, size, c.id);
  }

  /** A round keeps the ids bounded and the originals few. */
  lemma MeasureBounds(stack: seq<Card>, top: nat, size: nat)
    requires stack != [] && IdsAtMost(stack, top) && NonCopies(stack) <= size
    ensures IdsAtMost(Scratch(stack), top) && NonCopies(Scratch(stack)) <= size
  {
    var rest := stack[..|stack| - 1];
    var c := stack[|stack| - 1];
    var copies := Copies(Reverse(rest), c.id, Matches(c));
    assert stack == rest + [c];
    NonCopiesAppend(rest, [c]);
    ReverseSums(copies, 1, top);
    AllCopies(copies);
    NonCopiesAppend(rest, Reverse(copies));
    CopiesBounded(rest, c, top, copies);
    assert IdsAtMost(Reverse(copies), top);
    IdsAtMostAppend(rest, Reverse(copies), top);
  }

  /** A round lowers the weight of the pile. */
  lemma MeasureStep(stack: seq<Card>, base: nat, top: nat, size: nat)
    requires stack != [] && base == size + 1
    requires IdsAtMost(stack, top) && NonCopies(stack) <= size
    ensures Weight(Scratch(stack), base, top) < Weight(stack, base, top)
  {
    var rest := stack[..|stack| - 1];
    var c := stack[|stack| - 1];
    var copies := Copies(Reverse(rest), c.id, Matches(c));
    assert stack == rest + [c];
    WeightAppend(rest, [c], base, top);
    assert Weight(stack, base, top) == Weight(rest, base, top) + Pow(base, top - c.id);
    NonCopiesAppend(rest, [c]);
    ReverseSums(rest, base, top);
    ReverseSums(copies, base, top);
    WeightAppend(rest, Reverse(copies), base, top);
    assert Weight(Scratch(stack), base, top) == Weight(rest, base, top) + Weight(copies, base, top);
    WonLighter(rest, c, base, top, size);
  }

  // What part 2 counts. With the cards in increasing id order, card `p` and the copies it
  // brings in account for `Won(ms, p)` cards, where `ms` are the cards' match counts: itself,
  // and what each of the next `ms[p]` cards brings in.

  function Min(a: nat, b: nat): nat {
    if a <= b then a else b
  }

  /** The cards card `p` accounts for, itself included. */
  function Won(ms: seq<nat>, p: nat): (w: nat)
    requires p < |ms|
    ensures w >= 1
    decreases |ms| - p, 0
  {
    1 + WonRange(ms, p + 1, Min(p + 1 + ms[p], |ms|))
  }

  /** The cards that cards `from` up to `to` account for. */
  function WonRange(ms: seq<nat>, from: nat, to: nat): nat
    requires from <= to <= |ms|
    decreases |ms| - from, 1
  {
    if from == to then 0 else Won(ms, from) + WonRange(ms, from + 1, to)
  }

  /** The number of cards one ends up with. */
  function Total(ms: seq<nat>): nat {
    WonRange(ms, 0, |ms|)
  }

  function MatchesOf(deck: seq<Card>): (ms: seq<nat>)
    ensures |ms| == |deck| && forall p :: 0 <= p < |deck| ==> ms[p] == Matches(deck[p])
  {
    seq(|deck|, p requires 0 <= p < |deck| => Matches(deck[p]))
  }

  /** The sum of `Won` over positions. */
  function SumWon(ms: seq<nat>, ps: seq<nat>): nat
    requires forall j :: 0 <= j < |ps| ==> ps[j] < |ms|
  {
    if ps == [] then 0 else Won(ms, ps[0]) + SumWon(ms, ps[1..])
  }

  lemma {:induction false} SumWonAppend(ms: seq<nat>, a: seq<nat>, b: seq<nat>)
    requires forall j :: 0 <= j < |a| ==> a[j] < |ms|
    requires forall j :: 0 <= j < |b| ==> b[j] < |ms|
    ensures SumWon(ms, a + b) == SumWon(ms, a) + SumWon(ms, b)
  {
    if a == [] {
      assert a + b == b;
    } else {
      assert (a + b)[1..] == a[1..] + b;
      SumWonAppend(ms, a[1..], b);
    }
  }

  /** The positions from `a` up to `b`. */
  function Range(a: nat, b: nat): (r: seq<nat>)
    requires a <= b
    ensures |r| == b - a && forall i :: 0 <= i < b - a ==> r[i] == a + i
  {
    seq(b - a, i requires 0 <= i < b - a => a + i)
  }

  /** Summing over positions `a` up to `b`, taken downwards, gives `WonRange`. */
  lemma {:induction false} SumWonRange(ms: seq<nat>, a: nat, b: nat)
    requires a <= b <= |ms|
    ensures SumWon(ms, Reverse(Range(a, b))) == WonRange(ms, a, b)
    decreases b - a
  {
    if a < b {
      assert Range(a, b) == [a] + Range(a + 1, b);
      ReverseAppend([a], Range(a + 1, b));
      assert Reverse([a]) == [a];
      SumWonRange(ms, a + 1, b);
      SumWonAppend(ms, Reverse(Range(a + 1, b)), [a]);
    } else {
      assert Range(a, b) == [];
    }
  }

  function Clones(cards: seq<Card>): (r: seq<Card>)
    ensures |r| == |cards| && forall i :: 0 <= i < |cards| ==> r[i] == Clone(cards[i])
  {
    seq(|cards|, i requires 0 <= i < |cards| => Clone(cards[i]))
  }

  /** Ids increase from each card to the next. */
  predicate Ordered(deck: seq<Card>) {
    forall i, j :: 0 <= i < j < |deck| ==> deck[i].id < deck[j].id
  }

  predicate Originals(deck: seq<Card>) {
    forall i :: 0 <= i < |deck| ==> !deck[i].isCopy
  }

  /** Copies at the top of the pile are passed over. */
  lemma {:induction false} SkipCopies(a: seq<Card>, b: seq<Card>, above: nat, n: nat)
    requires forall i :: 0 <= i < |a| ==> a[i].isCopy
    ensures Copies(a + b, above, n) == Copies(b, above, n)
  {
    if a == [] {
      assert a + b == b;
    } else if n > 0 {
      assert (a + b)[0] == a[0];
      assert (a + b)[1..] == a[1..] + b;
      SkipCopies(a[1..], b, above, n);
    }
  }

  /** Cards up to `p` in an ordered deck have no larger id than card `p`, and are passed over. */
  lemma {:induction false} SkipLower(deck: seq<Card>, k: nat, p: nat, n: nat)
    requires Ordered(deck) && k <= p + 1 && p < |deck|
    ensures Copies(deck[k..], deck[p].id, n) == Copies(deck[p + 1..], deck[p].id, n)
    decreases p + 1 - k
  {
    if k < p + 1 && n > 0 {
      assert deck[k..][0] == deck[k];
      assert deck[k].id <= deck[p].id;
      assert deck[k..][1..] == deck[k + 1..];
      SkipLower(deck, k + 1, p, n);
    }
  }

  /** Originals all with larger ids are taken, `n` of them at most. */
  lemma {:induction false} TakeAbove(cards: seq<Card>, above: nat, n: nat)
    requires forall i :: 0 <= i < |cards| ==> !cards[i].isCopy && above < cards[i].id
    ensures Copies(cards, above, n) == Clones(cards[..Min(n, |cards|)])
  {
    if n > 0 && cards != [] {
      TakeAbove(cards[1..], above, n - 1);
      assert cards[1..][..Min(n - 1, |cards| - 1)] == cards[..Min(n, |cards|)][1..];
    }
  }

  lemma SliceTake<T>(s: seq<T>, a: nat, m: nat)
    requires a <= |s|
    ensures s[a..][..Min(m, |s| - a)] == s[a..Min(a + m, |s|)]
  {
  }

  lemma ReverseBack<T>(a: seq<T>, b: seq<T>)
    ensures Reverse(Reverse(a) + b) == Reverse(b) + a
  {
    ReverseAppend(Reverse(a), b);
    ReverseReverse(a);
  }

  /** The cards after `p` in an ordered deck of originals are originals with larger ids. */
  lemma AfterAbove(deck: seq<Card>, p: nat, after: seq<Card>)
    requires Ordered(deck) && Originals(deck) && p < |deck| && after == deck[p + 1..]
    ensures forall i :: 0 <= i < |after| ==> !after[i].isCopy && deck[p].id < after[i].id
  {
    assert forall i :: 0 <= i < |after| ==> after[i] == deck[p + 1 + i];
  }

  /**
   * With the originals from `k` on at the bottom of the pile and only copies above them, card
   * `p` (at or after `k - 1`) wins clones of the cards right after it.
   */
  lemma StackCopies(deck: seq<Card>, k: nat, p: nat, mid: seq<Card>)
    requires Ordered(deck) && Originals(deck) && k <= p + 1 && p < |deck|
    requires forall i :: 0 <= i < |mid| ==> mid[i].isCopy
    ensures var e := Min(p + 1 + Matches(deck[p]), |deck|);
      Copies(Reverse(Reverse(deck[k..]) + mid), deck[p].id, Matches(deck[p]))
      == Clones(deck[p + 1..e])
  {
    var m := Matches(deck[p]);
    var above := deck[p].id;
    ReverseBack(deck[k..], mid);
    SkipCopies(Reverse(mid), deck[k..], above, m);
    SkipLower(deck, k, p, m);
    AfterAbove(deck, p, deck[p + 1..]);
    TakeAbove(deck[p + 1..], above, m);
    SliceTake(deck, p + 1, m);
  }

  /**
   * The pile during part 2, for an ordered deck: the originals from `k` on, the first on top,
   * under copies of the cards at positions `ps`.
   */
  ghost predicate Tracks(deck: seq<Card>, stack: seq<Card>, k: nat, ps: seq<nat>) {
    k <= |deck| && |stack| == |deck| - k + |ps|
    && stack[..|deck| - k] == Reverse(deck[k..])
    && forall j :: 0 <= j < |ps| ==>
         k <= ps[j] < |deck| && stack[|deck| - k + j] == Clone(deck[ps[j]])
  }

  /** Copies of cards after `p` put on top extend the picture. */
  lemma AppendTracks(deck: seq<Card>, rest: seq<Card>, k: nat, ps: seq<nat>, p: nat, e: nat)
    requires Tracks(deck, rest, k, ps) && k <= p + 1 && p + 1 <= e <= |deck|
    ensures Tracks(deck, rest + Reverse(Clones(deck[p + 1..e])), k, ps + Reverse(Range(p + 1, e)))
  {
    var n := |deck|;
    var added := Reverse(Clones(deck[p + 1..e]));
    var stack := rest + added;
    var nps := ps + Reverse(Range(p + 1, e));
    assert stack[..n - k] == rest[..n - k];
    forall j | 0 <= j < |nps|
      ensures k <= nps[j] < n && stack[n - k + j] == Clone(deck[nps[j]])
    {
      if j >= |ps| {
        var i := j - |ps|;
        assert nps[j] == e - 1 - i;
        assert stack[n - k + j] == added[i];
      }
    }
  }

  /** Popping a copy leaves the picture of the positions before it. */
  lemma PopCopy(deck: seq<Card>, stack: seq<Card>, k: nat, ps: seq<nat>)
    requires Tracks(deck, stack, k, ps) && ps != []
    ensures stack != [] && Top(stack) == Clone(deck[ps[|ps| - 1]])
    ensures Tracks(deck, stack[..|stack| - 1], k, ps[..|ps| - 1])
  {
    var rest := stack[..|stack| - 1];
    assert rest[..|deck| - k] == stack[..|deck| - k];
  }

  /** Popping an original leaves the picture with the originals after it. */
  lemma PopOriginal(deck: seq<Card>, stack: seq<Card>, k: nat)
    requires Tracks(deck, stack, k, []) && stack != []
    ensures k < |deck| && Top(stack) == deck[k]
    ensures Tracks(deck, stack[..|stack| - 1], k + 1, [])
  {
    assert stack == Reverse(deck[k..]);
    assert deck[k..] == [deck[k]] + deck[k + 1..];
    ReverseAppend([deck[k]], deck[k + 1..]);
    assert Reverse([deck[k]]) == [deck[k]];
  }

  /** Above the originals the pile holds copies only. */
  lemma TracksSplit(deck: seq<Card>, stack: seq<Card>, k: nat, ps: seq<nat>)
    requires Tracks(deck, stack, k, ps)
    ensures stack == Reverse(deck[k..]) + stack[|deck| - k..]
    ensures forall i :: |deck| - k <= i < |stack| ==> stack[i].isCopy
  {
    forall i | |deck| - k <= i < |stack|
      ensures stack[i].isCopy
    {
      var j := i - (|deck| - k);
      assert 0 <= j < |ps|;
      assert stack[|deck| - k + j] == Clone(deck[ps[j]]);
    }
  }

  /** Card `p` coming off a pile pictured by `k` and `ps` leaves copies of the cards after it. */
  lemma ScratchTracks(deck: seq<Card>, stack: seq<Card>, k: nat, ps: seq<nat>, p: nat, e: nat)
    requires Ordered(deck) && Originals(deck) && stack != []
    requires Tracks(deck, stack[..|stack| - 1], k, ps) && k <= p + 1 && p < |deck|
    requires Top(stack).id == deck[p].id && Matches(Top(stack)) == Matches(deck[p])
    requires e == Min(p + 1 + Matches(deck[p]), |deck|)
    ensures Tracks(deck, Scratch(stack), k, ps + Reverse(Range(p + 1, e)))
  {
    var rest := stack[..|stack| - 1];
    var mid := rest[|deck| - k..];
    TracksSplit(deck, rest, k, ps);
    assert forall i :: 0 <= i < |mid| ==> mid[i] == rest[|deck| - k + i];
    StackCopies(deck, k, p, mid);
    var c := Top(stack);
    assert Copies(Reverse(rest), c.id, Matches(c)) == Clones(deck[p + 1..e]);
    assert Scratch(stack) == rest + Reverse(Clones(deck[p + 1..e]));
    AppendTracks(deck, rest, k, ps, p, e);
  }

  /** The copies card `p` wins account for one card less than card `p`. */
  lemma SumWonCopies(ms: seq<nat>, ps: seq<nat>, p: nat, e: nat)
    requires p < |ms| && e == Min(p + 1 + ms[p], |ms|)
    requires forall j :: 0 <= j < |ps| ==> ps[j] < |ms|
    ensures SumWon(ms, ps + Reverse(Range(p + 1, e))) + 1 == SumWon(ms, ps) + Won(ms, p)
  {
    assert Won(ms, p) == 1 + WonRange(ms, p + 1, e);
    SumWonRange(ms, p + 1, e);
    SumWonAppend(ms, ps, Reverse(Range(p + 1, e)));
  }

  /** A round of part 2 that takes an original off the pile. */
  lemma TrackOriginal(deck: seq<Card>, stack: seq<Card>, k: nat) returns (ps2: seq<nat>)
    requires Ordered(deck) && Originals(deck) && Tracks(deck, stack, k, []) && stack != []
    ensures Tracks(deck, Scratch(stack), k + 1, ps2)
    ensures WonRange(MatchesOf(deck), k + 1, |deck|) + SumWon(MatchesOf(deck), ps2) + 1
      == WonRange(MatchesOf(deck), k, |deck|)
  {
    PopOriginal(deck, stack, k);
    var ms := MatchesOf(deck);
    var e := Min(k + 1 + ms[k], |deck|);
    ScratchTracks(deck, stack, k + 1, [], k, e);
    SumWonCopies(ms, [], k, e);
    ps2 := [] + Reverse(Range(k + 1, e));
  }

  /** A round of part 2 that takes a copy off the pile. */
  lemma TrackCopy(deck: seq<Card>, stack: seq<Card>, k: nat, ps: seq<nat>) returns (ps2: seq<nat>)
    requires Ordered(deck) && Originals(deck) && Tracks(deck, stack, k, ps) && ps != []
    ensures Tracks(deck, Scratch(stack), k, ps2)
    ensures SumWon(MatchesOf(deck), ps2) + 1 == SumWon(MatchesOf(deck), ps)
  {
    PopCopy(deck, stack, k, ps);
    var ms := MatchesOf(deck);
    var p := ps[|ps| - 1];
    var psRest := ps[..|ps| - 1];
    SumWonAppend(ms, psRest, [p]);
    assert psRest + [p] == ps;
    var e := Min(p + 1 + ms[p], |deck|);
    ScratchTracks(deck, stack, k, psRest, p, e);
    SumWonCopies(ms, psRest, p, e);
    ps2 := psRest + Reverse(Range(p + 1, e));
  }

  /** The largest id of the cards, 0 for none. */
  function MaxId(cards: seq<Card>): (top: nat)
    ensures IdsAtMost(cards, top)
  {
    if cards == [] then 0
    else
      var rest := MaxId(cards[1..]);
      assert forall i :: 1 <= i < |cards| ==> cards[i] == cards[1..][i - 1];
      if cards[0].id > rest then cards[0].id else rest
  }

  /**
   * What holds of the pile (with the card in hand put back) while part 2 runs, after `count`
   * cards: ids stay bounded and originals few; for an ordered deck the pile is pictured by `k`
   * and `ps`, and `count` plus what the pile still accounts for is the total.
   */
  ghost predicate Running(deck: seq<Card>, stack: seq<Card>, count: nat, k: nat, ps: seq<nat>, top: nat) {
    IdsAtMost(stack, top) && NonCopies(stack) <= |deck|
    && (Ordered(deck) ==>
          Tracks(deck, stack, k, ps)
          && count + WonRange(MatchesOf(deck), k, |deck|) + SumWon(MatchesOf(deck), ps)
             == Total(MatchesOf(deck)))
  }

  /** The pile as built from the deck, before any card is counted. */
  lemma RunningStart(deck: seq<Card>)
    requires Originals(deck)
    ensures Running(deck, Reverse(deck), 0, 0, [], MaxId(deck))
  {
    ReverseSums(deck, |deck| + 1, MaxId(deck));
    assert deck[0..] == deck;
  }

  /** A round keeps `Running` and lowers the pile's weight. */
  lemma RunningStep(deck: seq<Card>, stack: seq<Card>, count: nat, k: nat, ps: seq<nat>, top: nat)
    returns (k2: nat, ps2: seq<nat>)
    requires Originals(deck) && stack != [] && Running(deck, stack, count, k, ps, top)
    ensures Running(deck, Scratch(stack), count + 1, k2, ps2, top)
    ensures Weight(Scratch(stack), |deck| + 1, top) < Weight(stack, |deck| + 1, top)
  {
    MeasureBounds(stack, top, |deck|);
    MeasureStep(stack, |deck| + 1, top, |deck|);
    k2, ps2 := k, ps;
    if Ordered(deck) {
      if ps == [] {
        ps2 := TrackOriginal(deck, stack, k);
        k2 := k + 1;
      } else {
        ps2 := TrackCopy(deck, stack, k, ps);
      }
    }
  }

  /** When the pile is empty the count is the total. */
  lemma RunningDone(deck: seq<Card>, count: nat, k: nat, ps: seq<nat>, top: nat)
    requires Running(deck, [], count, k, ps, top) && Ordered(deck)
    ensures count == Total(MatchesOf(deck))
  {
  }

  /** Popping a card and processing it is one round. */
  lemma ScratchOfProcess(below: seq<Card>, c: Card, after: seq<Card>)
    requires after == below + Reverse(Copies(Reverse(below), c.id, Matches(c)))
    ensures after == Scratch(Stack(below, Some(c)))
  {
    var stack := below + [c];
    assert stack[..|stack| - 1] == below;
  }

  /** One pass of the loop of `part2`: the card in hand is processed and the next one popped. */
  method Round(pile: Pile, card: Card, ghost deck: seq<Card>, ghost count: nat, ghost k: nat,
               ghost ps: seq<nat>, ghost top: nat)
    returns (next: Option<Card>, ghost k2: nat, ghost ps2: seq<nat>)
    requires Originals(deck) && Running(deck, Stack(pile.cards, Some(card)), count, k, ps, top)
    modifies pile
    ensures next.None? ==> pile.cards == []
    ensures Running(deck, Stack(pile.cards, next), count + 1, k2, ps2, top)
    ensures Weight(Stack(pile.cards, next), |deck| + 1, top)
      < Weight(Stack(old(pile.cards), Some(card)), |deck| + 1, top)
  {
    ghost var stack := Stack(pile.cards, Some(card));
    ghost var below := pile.cards;
    k2, ps2 := RunningStep(deck, stack, count, k, ps, top);
    pile.ProcessCard(card);
    ScratchOfProcess(below, card, pile.cards);
    next := pile.Pop();
  }

  /**
   * The loop of `part2`: pops the pile until it is empty, putting each card's winnings on top,
   * and counts the cards; for an ordered deck the count is the puzzle's total.
   */
  method ScratchAll(pile: Pile, ghost deck: seq<Card>) returns (numCards: nat)
    requires pile.cards == Reverse(deck) && Originals(deck)
    modifies pile
    ensures pile.cards == []
    ensures Ordered(deck) ==> numCards == Total(MatchesOf(deck))
  {
    ghost var top := MaxId(deck);
    ghost var k: nat := 0;
    ghost var ps: seq<nat> := [];
    RunningStart(deck);
    numCards := 0;
    var next := pile.Pop();
    while next.Some?
      invariant next.None? ==> pile.cards == []
      invariant Running(deck, Stack(pile.cards, next), numCards, k, ps, top)
      decreases Weight(Stack(pile.cards, next), |deck| + 1, top)
    {
      next, k, ps := Round(pile, next.value, deck, numCards, k, ps, top);
      numCards := numCards + 1;
    }
    if Ordered(deck) {
      RunningDone(deck, numCards, k, ps, top);
    }
  }

  /**
   * `part2`: the number of cards scratched until the pile is empty, which is the puzzle's
   * total whenever the ids increase from line to line; None where parsing panics.
   */
  method Part2(input: string) returns (r: Option<nat>)
    ensures r.None? <==> ParseDeck(input).None?
    ensures r.Some? && Ordered(ParseDeck(input).value) ==>
      r.value == Total(MatchesOf(ParseDeck(input).value))
  {
    var made := Pile.New(input);
    if made.None? {
      return None;
    }
    ghost var deck := ParseDeck(input).value;
    assert Originals(deck);
    var numCards := ScratchAll(made.value, deck);
    r := Some(numCards);
  }
}
