/**
 * Day 6: a toy boat race. Holding the button for `press` milliseconds of a race lasting
 * `time` milliseconds makes the boat travel `(time - press) * press` millimetres. Part 1
 * multiplies, over the races of the input, the number of presses that beat each race's
 * record; part 2 reads the input as one race whose digits were spread out by spaces.
 */
module Day6Races {
  import opened Wrappers
  import opened Text

  /** One more than the largest `usize` (64 bits), the width of times and distances. */
  const UsizeLimit: nat := 0x1_0000_0000_0000_0000

  /** `str::parse::<usize>()`: a number, if it fits in 64 bits. */
  function ParseUsize(s: string): (r: Option<nat>)
    ensures r.Some? <==> ParseNat(s).Some? && ParseNat(s).value < UsizeLimit
    ensures r.Some? ==> r.value == ParseNat(s).value
  {
    var n := ParseNat(s);
    if n.Some? && n.value < UsizeLimit then n else None
  }

  // ---------------------------------------------------------------------------
  // Races.

  /** `Race`: how long the race lasts and the best distance so far. */
  datatype Race = Race(time: nat, record: nat)

  /** `Race::calc_distance`: the boat moves at `press` mm/ms for what is left of the race. */
  function CalcDistance(race: Race, press: nat): (d: nat)
    requires press <= race.time
    ensures d == 0 <==> press == 0 || press == race.time
  {
    (race.time - press) * press
  }

  /** Holding for `press` and for `time - press` goes equally far. */
  lemma DistanceSymmetric(race: Race, press: nat)
    requires press <= race.time
    ensures CalcDistance(race, race.time - press) == CalcDistance(race, press)
  {
  }

  /** How much further holding for `x` goes than holding for `y`, factored. */
  lemma DistanceGap(t: int, x: int, y: int)
    ensures (t - x) * x - (t - y) * y == (x - y) * (t - x - y)
  {
  }

  /** A product of two factors of the same sign is not negative. */
  lemma SameSignProduct(a: int, b: int)
    requires (a >= 0 && b >= 0) || (a <= 0 && b <= 0)
    ensures a * b >= 0
  {
  }

  /** Holding for half the race (rounded down) goes furthest. */
  lemma HalfIsBest(race: Race, press: nat)
    requires press <= race.time
    ensures CalcDistance(race, press) <= CalcDistance(race, race.time / 2)
  {
    var t, h, p := race.time, race.time / 2, press;
    DistanceGap(t, h, p);
    SameSignProduct(h - p, t - h - p);
  }

  /** Pressing for `press` beats the record. */
  predicate Wins(race: Race, press: nat) {
    press <= race.time && CalcDistance(race, press) > race.record
  }

  /** A press between two winning presses wins too. */
  lemma WinsBetween(race: Race, p: nat, m: nat, q: nat)
    requires Wins(race, p) && Wins(race, q) && p <= m <= q
    ensures Wins(race, m)
  {
    var t := race.time;
    DistanceGap(t, m, p);
    DistanceGap(t, m, q);
    if m + p <= t {
      SameSignProduct(m - p, t - m - p);
    } else {
      SameSignProduct(m - q, t - m - q);
    }
  }

  /** The winning presses among `0 .. n - 1`. */
  function CountWins(race: Race, n: nat): (c: nat)
    requires n <= race.time + 1
    ensures c <= n
  {
    if n == 0 then 0 else CountWins(race, n - 1) + (if Wins(race, n - 1) then 1 else 0)
  }

  /** `Race::calc_num_win_options`: the presses in `0 ..= time` that beat the record. */
  function WinOptions(race: Race): (n: nat)
    ensures n <= race.time + 1
  {
    CountWins(race, race.time + 1)
  }

  /** The winning presses, as a set. */
  function WinningPresses(race: Race): set<nat> {
    set p: nat | p <= race.time && Wins(race, p)
  }

  /** `CountWins` counts the winning presses below `n`. */
  lemma {:induction false} CountWinsCounts(race: Race, n: nat)
    requires n <= race.time + 1
    ensures CountWins(race, n) == |set p: nat | p < n && Wins(race, p)|
  {
    if n > 0 {
      CountWinsCounts(race, n - 1);
      var below := set p: nat | p < n - 1 && Wins(race, p);
      var upTo := set p: nat | p < n && Wins(race, p);
      if Wins(race, n - 1) {
        assert upTo == below + {n - 1};
      } else {
        assert upTo == below;
      }
    }
  }

  /** The number of winning options is the number of winning presses. */
  lemma WinOptionsCounts(race: Race)
    ensures WinOptions(race) == |WinningPresses(race)|
  {
    CountWinsCounts(race, race.time + 1);
    assert WinningPresses(race) == set p: nat | p < race.time + 1 && Wins(race, p);
  }

  /** No press wins exactly when holding for half the race does not beat the record. */
  lemma NoWinIffHalfLoses(race: Race)
    ensures WinOptions(race) == 0 <==> Unbeatable(race)
  {
    WinOptionsCounts(race);
    var half := race.time / 2;
    if CalcDistance(race, half) > race.record {
      assert half in WinningPresses(race);
    } else {
      forall p: nat | p <= race.time
        ensures !Wins(race, p)
      {
        HalfIsBest(race, p);
      }
      assert WinningPresses(race) == {};
    }
  }

  /** When the wins lie in `lo ..= hi`, `CountWins` counts the part of it below `n`. */
  lemma {:induction false} CountWinsInterval(race: Race, lo: nat, hi: nat, n: nat)
    requires lo <= hi && n <= race.time + 1
    requires forall p: nat :: p < n ==> (Wins(race, p) <==> lo <= p <= hi)
    ensures CountWins(race, n) == if n <= lo then 0 else if n <= hi then n - lo else hi + 1 - lo
  {
    if n > 0 {
      CountWinsInterval(race, lo, hi, n - 1);
    }
  }

  /**
   * The winning presses form one run: from a first winning press `lo` (one whose
   * predecessor loses) to a last one `hi` (one whose successor loses), every press wins
   * and no other does.
   */
  lemma WinsExactly(race: Race, lo: nat, hi: nat)
    requires lo <= hi && Wins(race, lo) && Wins(race, hi)
    requires lo == 0 || !Wins(race, lo - 1)
    requires !Wins(race, hi + 1)
    ensures forall p: nat :: Wins(race, p) <==> lo <= p <= hi
    ensures WinOptions(race) == hi + 1 - lo
  {
    forall p: nat
      ensures Wins(race, p) <==> lo <= p <= hi
    {
      if lo <= p <= hi {
        WinsBetween(race, lo, p, hi);
      } else if Wins(race, p) && p < lo {
        WinsBetween(race, p, lo - 1, hi);
      } else if Wins(race, p) && p > hi {
        WinsBetween(race, lo, hi + 1, p);
      }
    }
    CountWinsInterval(race, lo, hi, race.time + 1);
  }

  /** The races of the test: 4, 8 and 9 ways to win. */
  lemma ExampleRaces()
    ensures WinOptions(Race(7, 9)) == 4
    ensures WinOptions(Race(15, 40)) == 8
    ensures WinOptions(Race(30, 200)) == 9
  {
    WinsExactly(Race(7, 9), 2, 5);
    WinsExactly(Race(15, 40), 4, 11);
    WinsExactly(Race(30, 200), 11, 19);
  }

  // ---------------------------------------------------------------------------
  // Part 1: a row of times over a row of records.

  /** `filter_map(|x| x.parse::<usize>().ok())`: the pieces that are numbers, in order. */
  function Numbers(parts: seq<string>): (ns: seq<nat>)
    ensures |ns| <= |parts|
    ensures forall i :: 0 <= i < |ns| ==> ns[i] < UsizeLimit
  {
    if parts == [] then []
    else
      var n := ParseUsize(parts[0]);
      (if n.Some? then [n.value] else []) + Numbers(parts[1..])
  }

  /** `Numbers` keeps each piece's number and drops the rest, piece by piece. */
  lemma {:induction false} NumbersAppend(a: seq<string>, b: seq<string>)
    ensures Numbers(a + b) == Numbers(a) + Numbers(b)
  {
    if a != [] {
      assert (a + b)[0] == a[0] && (a + b)[1..] == a[1..] + b;
      NumbersAppend(a[1..], b);
      var head := if ParseUsize(a[0]).Some? then [ParseUsize(a[0]).value] else [];
      assert Numbers(a + b) == head + (Numbers(a[1..]) + Numbers(b));
      assert Numbers(a) == head + Numbers(a[1..]);
    } else {
      assert a + b == b;
    }
  }

  /** An empty piece, as between two spaces, adds no number. */
  lemma EmptyPieceSkipped(a: seq<string>, b: seq<string>)
    ensures Numbers(a + [""] + b) == Numbers(a) + Numbers(b)
  {
    NumbersAppend(a + [""], b);
    NumbersAppend(a, [""]);
  }

  /** Printed numbers that fit in `usize` are read back one by one. */
  lemma {:induction false} NumbersOfTexts(ns: seq<nat>)
    requires forall i :: 0 <= i < |ns| ==> ns[i] < UsizeLimit
    ensures Numbers(Texts(ns)) == ns
  {
    if ns != [] {
      TextsCons(ns);
      ParseNatToString(ns[0]);
      NumbersOfTexts(ns[1..]);
      assert Texts(ns)[1..] == Texts(ns[1..]);
    }
  }

  /** `Iterator::zip`: pairs up the two rows, as far as the shorter one goes. */
  function Zip(times: seq<nat>, records: seq<nat>): (races: seq<Race>)
    ensures |races| == if |times| <= |records| then |times| else |records|
    ensures forall i :: 0 <= i < |races| ==> races[i] == Race(times[i], records[i])
  {
    var n := if |times| <= |records| then |times| else |records|;
    seq(n, i requires 0 <= i < n => Race(times[i], records[i]))
  }

  /**
   * `parse_races`: the numbers after the ':' of the first line are the times and those
   * after the ':' of the rest are the records. The times are split as they stand and the
   * records after a trim. A missing '\n' or ':' is a panic of the source, here None.
   */
  function ParseRaces(input: string): (r: Option<seq<Race>>)
    ensures r.Some? <==> '\n' in input && ':' in SplitOnce(input, '\n').value.0
                         && ':' in SplitOnce(input, '\n').value.1
  {
    match SplitOnce(input, '\n')
    case None => None
    case Some((timesLine, rest)) =>
      match SplitOnce(timesLine, ':')
      case None => None
      case Some((_, times)) =>
        match SplitOnce(rest, ':')
        case None => None
        case Some((_, records)) =>
          Some(Zip(Numbers(Split(times, ' ')), Numbers(Split(Trim(records), ' '))))
  }

  /** The two rows as printed with one space between numbers. */
  function RacesText(times: seq<nat>, records: seq<nat>): string
    requires times != [] && records != []
  {
    ("Time" + [':'] + Row(times)) + ['\n'] + ("Distance" + [':'] + Row(records))
  }

  /** A printed row: its numbers, one space apart. */
  function Row(ns: seq<nat>): (s: string)
    requires ns != []
    ensures '\n' !in s && ':' !in s
  {
    JoinAvoids(Texts(ns), ' ', '\n');
    JoinAvoids(Texts(ns), ' ', ':');
    Join(Texts(ns), ' ')
  }

  /** The printed rows come apart at the '\n' and at each ':'. */
  lemma RacesTextSplits(times: seq<nat>, records: seq<nat>)
    requires times != [] && records != []
    ensures SplitOnce(RacesText(times, records), '\n') ==
      Some(("Time" + [':'] + Row(times), "Distance" + [':'] + Row(records)))
    ensures SplitOnce("Time" + [':'] + Row(times), ':') == Some(("Time", Row(times)))
    ensures SplitOnce("Distance" + [':'] + Row(records), ':') == Some(("Distance", Row(records)))
  {
    var ts, rs := Row(times), Row(records);
    SplitOnceAfter("Time" + [':'] + ts, '\n', "Distance" + [':'] + rs);
    SplitOnceAfter("Time", ':', ts);
    SplitOnceAfter("Distance", ':', rs);
  }

  /** A printed row is its own trim. */
  lemma RowTrimmed(ns: seq<nat>)
    requires ns != []
    ensures Trim(Row(ns)) == Row(ns)
  {
    JoinEnds(Texts(ns), ' ');
    TrimUnpadded(Row(ns));
  }

  /** A printed row of numbers that fit in `usize` reads back as those numbers. */
  lemma RowNumbers(ns: seq<nat>)
    requires ns != [] && forall i :: 0 <= i < |ns| ==> ns[i] < UsizeLimit
    ensures Numbers(Split(Row(ns), ' ')) == ns
  {
    SplitJoin(Texts(ns), ' ');
    NumbersOfTexts(ns);
  }

  /** Printed rows of equal length parse back to their races, one per column. */
  lemma ParseRacesText(times: seq<nat>, records: seq<nat>)
    requires times != [] && |times| == |records|
    requires forall i :: 0 <= i < |times| ==> times[i] < UsizeLimit && records[i] < UsizeLimit
    ensures ParseRaces(RacesText(times, records)) == Some(Zip(times, records))
    ensures |Zip(times, records)| == |times|
  {
    RacesTextSplits(times, records);
    RowTrimmed(records);
    RowNumbers(times);
    RowNumbers(records);
  }

  /** Joined printed numbers start and end with a digit. */
  lemma {:induction false} JoinEnds(parts: seq<string>, sep: char)
    requires |parts| >= 1 && forall i :: 0 <= i < |parts| ==> parts[i] != [] && IsDigit(parts[i][0])
    requires forall i :: 0 <= i < |parts| ==> IsDigit(parts[i][|parts[i]| - 1])
    ensures var s := Join(parts, sep); s != [] && IsDigit(s[0]) && IsDigit(s[|s| - 1])
    decreases |parts|
  {
    if |parts| > 1 {
      JoinEnds(parts[1..], sep);
    }
  }

  /** The product of the numbers. */
  function Product(ns: seq<nat>): (p: nat)
    ensures p == 0 <==> exists i :: 0 <= i < |ns| && ns[i] == 0
  {
    if ns == [] then 1
    else
      assert forall i :: 1 <= i < |ns| ==> ns[1..][i - 1] == ns[i];
      ns[0] * Product(ns[1..])
  }

  /** Each race's number of winning options. */
  function WinCounts(races: seq<Race>): (ns: seq<nat>)
    ensures |ns| == |races|
    ensures forall i :: 0 <= i < |races| ==> ns[i] == WinOptions(races[i])
  {
    seq(|races|, i requires 0 <= i < |races| => WinOptions(races[i]))
  }

  /** `part1`: the product over the races of their winning options. */
  function Part1(input: string): (r: Option<nat>)
    ensures r.Some? <==> ParseRaces(input).Some?
  {
    match ParseRaces(input)
    case None => None
    case Some(races) => Some(Product(WinCounts(races)))
  }

  /** No press beats the record, not even holding for half the race. */
  predicate Unbeatable(race: Race) {
    CalcDistance(race, race.time / 2) <= race.record
  }

  /** Part 1 is zero exactly when some race's record cannot be beaten. */
  lemma Part1ZeroIffUnbeatable(input: string)
    requires ParseRaces(input).Some?
    ensures var races := ParseRaces(input).value;
      Part1(input) == Some(0) <==> exists i :: 0 <= i < |races| && Unbeatable(races[i])
  {
    var races := ParseRaces(input).value;
    var counts := WinCounts(races);
    assert Part1(input) == Some(Product(counts));
    forall i | 0 <= i < |races|
      ensures counts[i] == 0 <==> Unbeatable(races[i])
    {
      NoWinIffHalfLoses(races[i]);
    }
  }

  // ---------------------------------------------------------------------------
  // Part 2: one race with its digits spread out.

  /** The pieces glued together: what pushing each one onto a `String` builds. */
  function Concat(parts: seq<string>): (s: string)
  {
    if parts == [] then [] else parts[0] + Concat(parts[1..])
  }

  /** The string with every space taken out. */
  function Despace(s: string): (r: string)
    ensures ' ' !in r && |r| <= |s|
  {
    if s == [] then [] else (if s[0] == ' ' then [] else [s[0]]) + Despace(s[1..])
  }

  lemma {:induction false} DespaceAppend(a: string, b: string)
    ensures Despace(a + b) == Despace(a) + Despace(b)
  {
    if a != [] {
      assert (a + b)[0] == a[0] && (a + b)[1..] == a[1..] + b;
      DespaceAppend(a[1..], b);
      var head := if a[0] == ' ' then [] else [a[0]];
      assert Despace(a + b) == head + (Despace(a[1..]) + Despace(b));
      assert Despace(a) == head + Despace(a[1..]);
    } else {
      assert a + b == b;
    }
  }

  lemma {:induction false} DespaceUnspaced(s: string)
    requires ' ' !in s
    ensures Despace(s) == s
  {
    if s != [] {
      DespaceUnspaced(s[1..]);
    }
  }

  /** Taking the spaces out of a spaceless part, a space and the rest. */
  lemma DespaceAfter(a: string, b: string)
    requires ' ' !in a
    ensures Despace(a + [' '] + b) == a + Despace(b)
  {
    var left := a + [' '];
    assert Despace(left) == a by {
      DespaceAppend(a, [' ']);
      DespaceUnspaced(a);
      assert Despace([' ']) == [];
    }
    DespaceAppend(left, b);
  }

  /** Splitting at spaces and gluing the pieces back takes the spaces out. */
  lemma {:induction false} ConcatSplit(s: string)
    ensures Concat(Split(s, ' ')) == Despace(s)
    decreases |s|
  {
    var r := IndexOf(s, ' ');
    if r.None? {
      DespaceUnspaced(s);
    } else {
      var a, b := s[..r.value], s[r.value + 1..];
      var rest := Split(b, ' ');
      assert s == a + [' '] + b;
      assert Split(s, ' ') == [a] + rest;
      assert Concat([a] + rest) == a + Concat(rest) by {
        assert ([a] + rest)[0] == a && ([a] + rest)[1..] == rest;
      }
      ConcatSplit(b);
      DespaceAfter(a, b);
    }
  }

  /** The number that the digit groups of a line make once glued together. */
  function KernedNumber(line: string): (r: Option<nat>)
    ensures r == ParseUsize(Despace(Trim(line)))
  {
    ConcatSplit(Trim(line));
    ParseUsize(Concat(Split(Trim(line), ' ')))
  }

  /**
   * `parse_badly_kerned_race`: the time is the number after the ':' of the first line
   * with its spaces taken out, the record that after the ':' of the rest. A missing
   * '\n' or ':', or a text that is not a `usize`, panics in the source; here None.
   */
  function ParseKernedRace(input: string): (r: Option<Race>)
    ensures r.Some? ==> '\n' in input
  {
    match SplitOnce(input, '\n')
    case None => None
    case Some((timeLine, rest)) =>
      match SplitOnce(timeLine, ':')
      case None => None
      case Some((_, timeText)) =>
        match SplitOnce(rest, ':')
        case None => None
        case Some((_, recordText)) =>
          match (KernedNumber(timeText), KernedNumber(recordText))
          case (Some(time), Some(record)) => Some(Race(time, record))
          case _ => None
  }

  /** The digits of the printed numbers, glued together. */
  function Glued(ns: seq<nat>): (s: string)
    requires ns != []
    ensures s != [] && AllDigits(s)
  {
    ConcatDigits(Texts(ns));
    Concat(Texts(ns))
  }

  /** Printed rows read as one race: its time and record are the glued digits of each row. */
  lemma ParseKernedRaceText(times: seq<nat>, records: seq<nat>)
    requires times != [] && records != []
    requires DigitsValue(Glued(times)) < UsizeLimit && DigitsValue(Glued(records)) < UsizeLimit
    ensures ParseKernedRace(RacesText(times, records)) ==
      Some(Race(DigitsValue(Glued(times)), DigitsValue(Glued(records))))
  {
    RacesTextSplits(times, records);
    GluedDigits(times);
    GluedDigits(records);
  }

  /** A printed row read as one kerned number gives its glued digits. */
  lemma GluedDigits(ns: seq<nat>)
    requires ns != [] && DigitsValue(Glued(ns)) < UsizeLimit
    ensures KernedNumber(Row(ns)) == Some(DigitsValue(Glued(ns)))
  {
    RowTrimmed(ns);
    SplitJoin(Texts(ns), ' ');
    ParseUsizeDigits(Glued(ns));
  }

  /** Gluing strings of digits gives a string of digits, not empty when a piece is not. */
  lemma {:induction false} ConcatDigits(texts: seq<string>)
    requires texts != []
    requires forall i :: 0 <= i < |texts| ==> AllDigits(texts[i]) && texts[i] != []
    ensures Concat(texts) != [] && AllDigits(Concat(texts))
  {
    if |texts| > 1 {
      ConcatDigits(texts[1..]);
    }
  }

  /** Digits without a sign parse as their value, if it fits. */
  lemma ParseUsizeDigits(s: string)
    requires s != [] && AllDigits(s)
    ensures ParseUsize(s) == if DigitsValue(s) < UsizeLimit then Some(DigitsValue(s)) else None
  {
  }

  /** `part2`: the winning options of the one kerned race. */
  function Part2(input: string): (r: Option<nat>)
    ensures r.Some? <==> ParseKernedRace(input).Some?
    ensures r.Some? ==> r.value <= ParseKernedRace(input).value.time + 1
  {
    match ParseKernedRace(input)
    case None => None
    case Some(race) => Some(WinOptions(race))
  }
}
