/**
 * Day 5: seeds go through seven category maps (seed to soil, soil to fertilizer, ...,
 * humidity to location). A map is a list of ranges "d s n" that send the keys
 * [s, s+n) to [d, d+n) and leave every other key unchanged. Part 1 is the lowest
 * location any seed reaches.
 */
module Day5Main {
  import opened Wrappers
  import opened Text

  /** `UncannyRange`: the half-open key range [sourceStart, sourceEnd) and where it goes. */
  datatype UncannyRange = UncannyRange(sourceStart: nat, sourceEnd: nat, destStart: nat, destEnd: nat)

  /** Both ranges have the same length, as `from_line` builds them. */
  predicate WellFormed(r: UncannyRange) {
    r.sourceStart <= r.sourceEnd && r.destStart <= r.destEnd
    && r.sourceEnd - r.sourceStart == r.destEnd - r.destStart
  }

  /** `Range::contains` on the source range. */
  predicate Contains(r: UncannyRange, key: nat) {
    r.sourceStart <= key < r.sourceEnd
  }

  /**
   * `UncannyRange::from_line`: destination start, source start and length, the first
   * three pieces of the line split at single spaces. None where the source panics
   * (fewer than three pieces or a piece that is not a number); later pieces are ignored.
   */
  function FromLine(line: string): (r: Option<UncannyRange>)
    ensures r.Some? ==> WellFormed(r.value)
    ensures r.Some? ==> |Split(line, ' ')| >= 3
  {
    var parts := Split(line, ' ');
    if |parts| < 3 then None
    else
      match (ParseNat(parts[0]), ParseNat(parts[1]), ParseNat(parts[2]))
      case (Some(d), Some(s), Some(n)) => Some(UncannyRange(s, s + n, d, d + n))
      case _ => None
  }

  /** The number of keys in the source range. */
  function Length(r: UncannyRange): nat {
    if r.sourceStart <= r.sourceEnd then r.sourceEnd - r.sourceStart else 0
  }

  /** A map line as the puzzle input writes it. */
  function RangeText(r: UncannyRange): string {
    NatToString(r.destStart) + " " + NatToString(r.sourceStart) + " " + NatToString(Length(r))
  }

  /** Reading a written map line gives the range back. */
  lemma FromLineOfText(r: UncannyRange)
    requires WellFormed(r)
    ensures FromLine(RangeText(r)) == Some(r)
  {
    ParseNatToString(r.destStart);
    ParseNatToString(r.sourceStart);
    ParseNatToString(Length(r));
    FromLineOfParts(NatToString(r.destStart), NatToString(r.sourceStart), NatToString(Length(r)),
                    r.destStart, r.sourceStart, Length(r));
  }

  /** Three numbers separated by single spaces make the range they describe. */
  lemma FromLineOfParts(d: string, s: string, n: string, dv: nat, sv: nat, nv: nat)
    requires ' ' !in d && ' ' !in s && ' ' !in n
    requires ParseNat(d) == Some(dv) && ParseNat(s) == Some(sv) && ParseNat(n) == Some(nv)
    ensures FromLine(d + " " + s + " " + n) == Some(UncannyRange(sv, sv + nv, dv, dv + nv))
  {
    SplitThree(d, s, n);
  }

  /** Three pieces without spaces, written with a space between each, split back apart. */
  lemma SplitThree(a: string, b: string, c: string)
    requires ' ' !in a && ' ' !in b && ' ' !in c
    ensures var parts := Split(a + " " + b + " " + c, ' ');
      |parts| == 3 && parts[0] == a && parts[1] == b && parts[2] == c
  {
    var tail := b + [' '] + c;
    assert a + " " + b + " " + c == a + [' '] + tail;
    LinesFree(c, ' ');
    SplitAfter(b, ' ', c);
    SplitAfter(a, ' ', tail);
  }

  /** A string without `sep` is a single piece. */
  lemma LinesFree(s: string, sep: char)
    requires sep !in s
    ensures Split(s, sep) == [s]
  {
  }

  /**
   * `UncannyRange::get`: a key inside the source range moves by the offset between the
   * two ranges, any other key gives None.
   */
  function Get(r: UncannyRange, key: nat): (o: Option<nat>)
    ensures o.Some? <==> Contains(r, key)
  {
    if !Contains(r, key) then None
    else Some(r.destStart + (key - r.sourceStart))
  }

  /** A found key lands in the destination range, at the key's offset into the source range. */
  lemma GetInDest(r: UncannyRange, key: nat)
    requires WellFormed(r) && Contains(r, key)
    ensures Get(r, key).Some?
    ensures r.destStart <= Get(r, key).value < r.destEnd
    ensures Get(r, key).value - r.destStart == key - r.sourceStart
  {
  }

  /** Two keys a range maps to the same place are the same key. */
  lemma GetInjective(r: UncannyRange, k1: nat, k2: nat)
    requires Get(r, k1).Some? && Get(r, k1) == Get(r, k2)
    ensures k1 == k2
  {
  }

  /** Every destination of a range is reached, from the key at the same offset. */
  lemma GetOnto(r: UncannyRange, v: nat)
    requires WellFormed(r) && r.destStart <= v < r.destEnd
    ensures Get(r, r.sourceStart + (v - r.destStart)) == Some(v)
  {
  }

  /** `UncannyMap`: the ranges of one map, in input order. */
  datatype UncannyMap = UncannyMap(ranges: seq<UncannyRange>)

  /** `find_map` of `get` over the ranges: the first range that holds the key decides. */
  function FindMap(ranges: seq<UncannyRange>, key: nat): (o: Option<nat>)
    ensures o.None? <==> forall i :: 0 <= i < |ranges| ==> !Contains(ranges[i], key)
    ensures o.Some? ==> exists i :: 0 <= i < |ranges| && o == Get(ranges[i], key)
                                   && forall j :: 0 <= j < i ==> !Contains(ranges[j], key)
  {
    if ranges == [] then None
    else
      match Get(ranges[0], key)
      case Some(v) => Some(v)
      case None =>
        assert forall j :: 0 <= j < |ranges| - 1 ==> ranges[1..][j] == ranges[j + 1];
        FindMap(ranges[1..], key)
  }

  /** `UncannyMap::get`: the first matching range's image, otherwise the key itself. */
  function MapGet(m: UncannyMap, key: nat): (v: nat)
    ensures (forall i :: 0 <= i < |m.ranges| ==> !Contains(m.ranges[i], key)) ==> v == key
  {
    match FindMap(m.ranges, key)
    case Some(v) => v
    case None => key
  }

  /** When range `i` is the first to hold the key, the map sends the key where range `i` does. */
  lemma MapGetFirst(m: UncannyMap, key: nat, i: nat)
    requires i < |m.ranges| && Contains(m.ranges[i], key)
    requires forall j :: 0 <= j < i ==> !Contains(m.ranges[j], key)
    ensures MapGet(m, key) == m.ranges[i].destStart + (key - m.ranges[i].sourceStart)
  {
    var o := FindMap(m.ranges, key);
    assert o.Some?;
    var w :| 0 <= w < |m.ranges| && o == Get(m.ranges[w], key)
      && forall j :: 0 <= j < w ==> !Contains(m.ranges[j], key);
  }

  /** The header line a map starts after: "{from}-to-{to} map:". */
  function MapId(from: string, to: string): (id: string)
    ensures |id| > 0
  {
    from + "-to-" + to + " map:"
  }

  /** `take_while(non-empty)` then `from_line` on each taken line; None if a taken line panics. */
  function RangesOf(lines: seq<string>): (r: Option<seq<UncannyRange>>)
    ensures r.Some? ==> forall i :: 0 <= i < |r.value| ==> WellFormed(r.value[i])
  {
    if lines == [] || lines[0] == [] then Some([])
    else
      match (FromLine(lines[0]), RangesOf(lines[1..]))
      case (Some(r), Some(rest)) => Some([r] + rest)
      case _ => None
  }

  /**
   * `UncannyMap::parse`: the lines after the first header "{from}-to-{to} map:" up to
   * the next empty line. None if the header is missing or a range line is malformed.
   */
  function ParseMap(input: string, from: string, to: string): (r: Option<UncannyMap>)
    ensures r.Some? ==> Find(input, MapId(from, to)).Some?
    ensures r.Some? ==> forall i :: 0 <= i < |r.value.ranges| ==> WellFormed(r.value.ranges[i])
  {
    match Find(input, MapId(from, to))
    case None => None
    case Some(start) =>
      var lines := Lines(input[start..]);
      if lines == [] then Some(UncannyMap([]))
      else
        match RangesOf(lines[1..])
        case None => None
        case Some(ranges) => Some(UncannyMap(ranges))
  }

  /** The range lines of a map, each ended by a line break. */
  function RangeBlock(ranges: seq<UncannyRange>): string {
    if ranges == [] then [] else RangeText(ranges[0]) + "\n" + RangeBlock(ranges[1..])
  }

  /** A written number line has no line break and does not end in a carriage return. */
  lemma RangeTextIsLine(r: UncannyRange)
    ensures RangeText(r) != [] && '\n' !in RangeText(r) && StripCr(RangeText(r)) == RangeText(r)
  {
    var n := NatToString(Length(r));
    assert RangeText(r)[|RangeText(r)| - 1] == n[|n| - 1];
  }

  /** The lines of a written block, followed by the end of input or an empty line, read back. */
  lemma {:induction false} RangesOfBlock(ranges: seq<UncannyRange>, rest: string)
    requires forall i :: 0 <= i < |ranges| ==> WellFormed(ranges[i])
    requires rest == [] || rest[0] == '\n'
    ensures RangesOf(Lines(RangeBlock(ranges) + rest)) == Some(ranges)
    decreases |ranges|
  {
    if ranges == [] {
      RangesOfEnd(rest);
      assert RangeBlock(ranges) + rest == rest;
    } else {
      RangesOfBlock(ranges[1..], rest);
      BlockCons(ranges, rest);
      RangesOfLineThen(ranges, RangeBlock(ranges[1..]) + rest);
    }
  }

  /** The end of input or an empty line ends a map. */
  lemma RangesOfEnd(rest: string)
    requires rest == [] || rest[0] == '\n'
    ensures RangesOf(Lines(rest)) == Some([])
  {
    if rest != [] {
      assert rest == [] + "\n" + rest[1..];
      LinesCons([], rest[1..]);
    }
  }

  lemma BlockCons(ranges: seq<UncannyRange>, rest: string)
    requires |ranges| >= 1
    ensures RangeBlock(ranges) + rest == RangeText(ranges[0]) + "\n" + (RangeBlock(ranges[1..]) + rest)
  {
    Regroup(RangeText(ranges[0]), "\n", RangeBlock(ranges[1..]), rest);
  }

  lemma Regroup(a: string, b: string, c: string, d: string)
    ensures (a + b + c) + d == a + b + (c + d)
  {
  }

  /** A written range line followed by lines that read back. */
  lemma RangesOfLineThen(ranges: seq<UncannyRange>, tail: string)
    requires |ranges| >= 1 && WellFormed(ranges[0]) && RangesOf(Lines(tail)) == Some(ranges[1..])
    ensures RangesOf(Lines(RangeText(ranges[0]) + "\n" + tail)) == Some(ranges)
  {
    var line := RangeText(ranges[0]);
    RangeTextIsLine(ranges[0]);
    LinesCons(line, tail);
    FromLineOfText(ranges[0]);
    RangesOfCons(line, Lines(tail), ranges);
  }

  /** A non-empty range line in front adds its range in front. */
  lemma RangesOfCons(line: string, lines: seq<string>, ranges: seq<UncannyRange>)
    requires |ranges| >= 1 && line != [] && FromLine(line) == Some(ranges[0])
    requires RangesOf(lines) == Some(ranges[1..])
    ensures RangesOf([line] + lines) == Some(ranges)
  {
    assert ([line] + lines)[1..] == lines;
    assert [ranges[0]] + ranges[1..] == ranges;
  }

  /**
   * A map written as its header line and its range lines is read back, when the header
   * first occurs where it was written and the block ends the input or an empty line follows.
   */
  lemma ParseMapOfText(input: string, pre: string, from: string, to: string,
                       ranges: seq<UncannyRange>, rest: string)
    requires forall i :: 0 <= i < |ranges| ==> WellFormed(ranges[i])
    requires '\n' !in from && '\n' !in to
    requires rest == [] || rest[0] == '\n'
    requires input == pre + MapId(from, to) + "\n" + RangeBlock(ranges) + rest
    requires Find(input, MapId(from, to)) == Some(|pre|)
    ensures ParseMap(input, from, to) == Some(UncannyMap(ranges))
  {
    var id := MapId(from, to);
    var tail := RangeBlock(ranges) + rest;
    AfterPrefix(pre, id, RangeBlock(ranges), rest);
    MapIdIsLine(from, to);
    LinesCons(id, tail);
    RangesOfBlock(ranges, rest);
    LinesAfterHeader(input[|pre|..], id, tail, ranges);
  }

  /** What follows the text in front of a map header. */
  lemma AfterPrefix(pre: string, id: string, block: string, rest: string)
    ensures (pre + id + "\n" + block + rest)[|pre|..] == id + "\n" + (block + rest)
  {
  }

  lemma MapIdIsLine(from: string, to: string)
    requires '\n' !in from && '\n' !in to
    ensures '\n' !in MapId(from, to)
  {
  }

  /** The lines after the header line read back as the ranges. */
  lemma LinesAfterHeader(text: string, id: string, tail: string, ranges: seq<UncannyRange>)
    requires text == id + "\n" + tail && Lines(text) == [StripCr(id)] + Lines(tail)
    requires RangesOf(Lines(tail)) == Some(ranges)
    ensures Lines(text) != [] && RangesOf(Lines(text)[1..]) == Some(ranges)
  {
    assert Lines(text)[1..] == Lines(tail);
  }

  /**
   * `parse_seeds_part1`: the numbers after the first ':' of the first line, trimmed and
   * split at single spaces. None where the source panics (no line, no ':', or a piece
   * that is not a number); so a parsed list is never empty.
   */
  function ParseSeeds(input: string): (r: Option<seq<nat>>)
    ensures r.Some? ==> |r.value| >= 1
  {
    var lines := Lines(input);
    if lines == [] then None
    else
      match SplitOnce(lines[0], ':')
      case None => None
      case Some((_, seeds)) => ParseAll(Split(Trim(seeds), ' '))
  }

  /** The seed line as the puzzle input writes it. */
  function SeedsLine(seeds: seq<nat>): string
    requires |seeds| >= 1
  {
    "seeds: " + Join(Texts(seeds), ' ')
  }

  /** Numbers joined by spaces start and end with a digit and hold no line break. */
  lemma {:induction false} JoinedDigits(ns: seq<nat>)
    requires |ns| >= 1
    ensures var j := Join(Texts(ns), ' ');
      j != [] && IsDigit(j[0]) && IsDigit(j[|j| - 1]) && '\n' !in j && ':' !in j
    decreases |ns|
  {
    var ts := Texts(ns);
    var first := ts[0];
    assert IsDigit(first[0]);
    if |ns| > 1 {
      JoinedDigits(ns[1..]);
      assert Texts(ns[1..]) == ts[1..];
      var rest := Join(ts[1..], ' ');
      assert Join(ts, ' ') == first + [' '] + rest;
    }
  }

  /** Any non-empty list of seeds written as a seed line, followed by more lines, reads back. */
  lemma ParseSeedsOfText(seeds: seq<nat>, rest: string)
    requires |seeds| >= 1
    ensures ParseSeeds(SeedsLine(seeds) + "\n" + rest) == Some(seeds)
  {
    var line := SeedsLine(seeds);
    SeedsFirstLine(seeds, rest);
    SeedsNumbers(seeds);
    ParseSeedsFrom(line + "\n" + rest, line, " " + Join(Texts(seeds), ' '), Texts(seeds), seeds);
  }

  /** The seed line comes first and is cut after "seeds:". */
  lemma SeedsFirstLine(seeds: seq<nat>, rest: string)
    requires |seeds| >= 1
    ensures var line := SeedsLine(seeds);
      Lines(line + "\n" + rest) != [] && Lines(line + "\n" + rest)[0] == line
      && SplitOnce(line, ':') == Some(("seeds", " " + Join(Texts(seeds), ' ')))
  {
    var j := Join(Texts(seeds), ' ');
    JoinedDigits(seeds);
    SeedsLineShape(j);
    LinesCons(SeedsLine(seeds), rest);
  }

  /** The numbers after "seeds:" trim, split and parse back to the seeds. */
  lemma SeedsNumbers(seeds: seq<nat>)
    requires |seeds| >= 1
    ensures var j := Join(Texts(seeds), ' ');
      Split(Trim(" " + j), ' ') == Texts(seeds) && ParseAll(Texts(seeds)) == Some(seeds)
  {
    var ts := Texts(seeds);
    JoinedDigits(seeds);
    TrimSpaced(Join(ts, ' '));
    SplitJoin(ts, ' ');
    ParseAllTexts(seeds);
  }

  /** The seed line "seeds: " + j is one line, cut at its ':'. */
  lemma SeedsLineShape(j: string)
    requires j != [] && IsDigit(j[|j| - 1]) && '\n' !in j
    ensures var line := "seeds: " + j;
      SplitOnce(line, ':') == Some(("seeds", " " + j)) && '\n' !in line && StripCr(line) == line
  {
    var line := "seeds: " + j;
    assert line == "seeds" + [':'] + (" " + j);
    assert line[|line| - 1] == j[|j| - 1];
    SplitOnceAfter("seeds", ':', " " + j);
  }

  /** Trimming a space off the front of a string that starts and ends with a digit. */
  lemma TrimSpaced(j: string)
    requires j != [] && IsDigit(j[0]) && IsDigit(j[|j| - 1])
    ensures Trim(" " + j) == j
  {
    assert (" " + j)[1..] == j;
    TrimUnpadded(j);
  }

  /** `ParseSeeds` from its steps: the first line, the cut at ':', the trim and split, the parse. */
  lemma ParseSeedsFrom(input: string, line: string, after: string, parts: seq<string>, seeds: seq<nat>)
    requires Lines(input) != [] && Lines(input)[0] == line
    requires SplitOnce(line, ':') == Some(("seeds", after))
    requires Split(Trim(after), ' ') == parts && ParseAll(parts) == Some(seeds)
    ensures ParseSeeds(input) == Some(seeds)
  {
  }

  /** The category names in the order the maps chain them. */
  const Categories: seq<string> :=
    ["seed", "soil", "fertilizer", "water", "light", "temperature", "humidity", "location"]

  /** The maps from category `k` onwards to "location"; None if one of them does not parse. */
  function ParseChainFrom(input: string, k: nat): (r: Option<seq<UncannyMap>>)
    requires k <= 7
    ensures r.Some? ==> |r.value| == 7 - k
    ensures r.Some? ==> forall i :: 0 <= i < 7 - k ==>
      ParseMap(input, Categories[k + i], Categories[k + i + 1]) == Some(r.value[i])
    ensures r.None? <==> exists i :: k <= i < 7 && ParseMap(input, Categories[i], Categories[i + 1]).None?
    decreases 7 - k
  {
    if k == 7 then Some([])
    else
      match (ParseMap(input, Categories[k], Categories[k + 1]), ParseChainFrom(input, k + 1))
      case (Some(m), Some(rest)) => Some([m] + rest)
      case (None, _) => None
      case (_, None) => None
  }

  /** The seven maps seed to soil, ..., humidity to location. */
  function ParseChain(input: string): (r: Option<seq<UncannyMap>>)
    ensures r.Some? ==> |r.value| == 7
  {
    ParseChainFrom(input, 0)
  }

  /** A key sent through each map in turn. */
  function Location(maps: seq<UncannyMap>, key: nat): nat {
    if maps == [] then key else Location(maps[1..], MapGet(maps[0], key))
  }

  /** A key no range of any map holds comes out unchanged. */
  lemma {:induction false} LocationUntouched(maps: seq<UncannyMap>, key: nat)
    requires forall m, i :: 0 <= m < |maps| && 0 <= i < |maps[m].ranges| ==> !Contains(maps[m].ranges[i], key)
    ensures Location(maps, key) == key
    decreases |maps|
  {
    if maps != [] {
      assert MapGet(maps[0], key) == key;
      assert forall m :: 0 <= m < |maps| - 1 ==> maps[1..][m] == maps[m + 1];
      LocationUntouched(maps[1..], key);
    }
  }

  /** `Iterator::min` of a non-empty list. */
  function MinOf(xs: seq<nat>): (m: nat)
    requires xs != []
    ensures exists i :: 0 <= i < |xs| && xs[i] == m
    ensures forall i :: 0 <= i < |xs| ==> m <= xs[i]
  {
    if |xs| == 1 then xs[0]
    else
      var rest := MinOf(xs[1..]);
      assert forall i :: 1 <= i < |xs| ==> xs[i] == xs[1..][i - 1];
      if xs[0] <= rest then xs[0] else rest
  }

  /** The location of every seed, in seed order. */
  function Locations(maps: seq<UncannyMap>, seeds: seq<nat>): (ls: seq<nat>)
    ensures |ls| == |seeds|
    ensures forall i :: 0 <= i < |seeds| ==> ls[i] == Location(maps, seeds[i])
  {
    seq(|seeds|, i requires 0 <= i < |seeds| => Location(maps, seeds[i]))
  }

  /**
   * `part1`: the lowest location of any seed. None where the source panics: a map header
   * is missing, a range line or the seed line is malformed.
   */
  function Part1(input: string): (r: Option<nat>)
    ensures r.Some? <==> ParseChain(input).Some? && ParseSeeds(input).Some?
  {
    match (ParseChain(input), ParseSeeds(input))
    case (Some(maps), Some(seeds)) => Some(MinOf(Locations(maps, seeds)))
    case _ => None
  }

  /** Part 1 is the location of some seed, and no seed has a lower one. */
  lemma Part1Minimum(input: string, maps: seq<UncannyMap>, seeds: seq<nat>)
    requires ParseChain(input) == Some(maps) && ParseSeeds(input) == Some(seeds)
    ensures Part1(input).Some?
    ensures exists i :: 0 <= i < |seeds| && Part1(input).value == Location(maps, seeds[i])
    ensures forall i :: 0 <= i < |seeds| ==> Part1(input).value <= Location(maps, seeds[i])
  {
    assert Part1(input) == Some(MinOf(Locations(maps, seeds)));
    LowestLocation(maps, seeds);
  }

  /** The least of the seeds' locations is one of them and below all of them. */
  lemma LowestLocation(maps: seq<UncannyMap>, seeds: seq<nat>)
    requires |seeds| >= 1
    ensures var m := MinOf(Locations(maps, seeds));
      (exists i :: 0 <= i < |seeds| && m == Location(maps, seeds[i]))
      && forall i :: 0 <= i < |seeds| ==> m <= Location(maps, seeds[i])
  {
    var ls := Locations(maps, seeds);
    var i :| 0 <= i < |ls| && ls[i] == MinOf(ls);
    assert MinOf(ls) == Location(maps, seeds[i]);
  }

  /** The range "1 2 2" sends 2 and 3 to 1 and 2, and knows nothing of 0, 1 and 4. */
  lemma ExampleRange()
    ensures FromLine("1 2 2") == Some(UncannyRange(2, 4, 1, 3))
    ensures Get(UncannyRange(2, 4, 1, 3), 0).None? && Get(UncannyRange(2, 4, 1, 3), 1).None?
    ensures Get(UncannyRange(2, 4, 1, 3), 2) == Some(1) && Get(UncannyRange(2, 4, 1, 3), 3) == Some(2)
    ensures Get(UncannyRange(2, 4, 1, 3), 4).None?
  {
    var r := UncannyRange(2, 4, 1, 3);
    assert NatToString(1) == "1" && NatToString(2) == "2";
    assert RangeText(r) == "1 2 2";
    FromLineOfText(r);
  }

  /** The seed-to-soil map of the example: 98..99 go to 50..51, 50..97 go to 52..99. */
  const SeedToSoil := UncannyMap([UncannyRange(98, 100, 50, 52), UncannyRange(50, 98, 52, 100)])

  /** A range whose numbers have at most two digits, written out. */
  lemma ExampleLine(r: UncannyRange, d: string, s: string, n: string)
    requires r.destStart < 100 && r.sourceStart < 100 && Length(r) < 100
    requires d == SmallText(r.destStart) && s == SmallText(r.sourceStart) && n == SmallText(Length(r))
    ensures RangeText(r) == d + " " + s + " " + n
  {
    SmallNatToString(r.destStart);
    SmallNatToString(r.sourceStart);
    SmallNatToString(Length(r));
  }

  /** One or two decimal digits. */
  function SmallText(n: nat): string
    requires n < 100
  {
    if n < 10 then [('0' as int + n) as char]
    else [('0' as int + n / 10) as char, ('0' as int + n % 10) as char]
  }

  lemma SmallNatToString(n: nat)
    requires n < 100
    ensures NatToString(n) == SmallText(n)
  {
    if n >= 10 {
      assert NatToString(n / 10) == [('0' as int + n / 10) as char];
    }
  }

  /** The example input's maps after seed-to-soil, each behind an empty line. */
  function ExampleLaterMaps(): string {
    "soil-to-fertilizer map:\n" + "0 15 37\n" + "37 52 2\n" + "39 0 15\n"
    + "\n" + "fertilizer-to-water map:\n" + "49 53 8\n" + "0 11 42\n" + "42 0 7\n" + "57 7 4\n"
    + "\n" + "water-to-light map:\n" + "88 18 7\n" + "18 25 70\n"
    + "\n" + "light-to-temperature map:\n" + "45 77 23\n" + "81 45 19\n" + "68 64 13\n"
    + "\n" + "temperature-to-humidity map:\n" + "0 69 1\n" + "1 0 69\n"
    + "\n" + "humidity-to-location map:\n" + "60 56 37\n" + "56 93 4"
  }

  /**
   * The example's seed-to-soil map is parsed from the example input, whatever maps
   * follow it behind an empty line.
   */
  lemma ExampleParseSeedToSoil(input: string, pre: string, header: string, l0: string, l1: string, later: string)
    requires pre == "seeds: 79 14 55 13\n" + "\n" && header == "seed-to-soil map:"
    requires l0 == "50 98 2" && l1 == "52 50 48"
    requires input == pre + header + "\n" + l0 + "\n" + l1 + "\n" + ("\n" + later)
    ensures ParseMap(input, "seed", "soil") == Some(SeedToSoil)
  {
    ExampleSeedToSoilLines(l0, l1);
    ExampleSeedToSoilHeader(header);
    ExampleNoDash(pre);
    ParseTwoLineMap(input, pre, "seed", "soil", SeedToSoil.ranges[0], SeedToSoil.ranges[1], later, 4);
  }

  lemma ExampleSeedToSoilLines(l0: string, l1: string)
    requires l0 == "50 98 2" && l1 == "52 50 48"
    ensures l0 == RangeText(SeedToSoil.ranges[0]) && l1 == RangeText(SeedToSoil.ranges[1])
    ensures SeedToSoil.ranges == [SeedToSoil.ranges[0], SeedToSoil.ranges[1]]
    ensures WellFormed(SeedToSoil.ranges[0]) && WellFormed(SeedToSoil.ranges[1])
  {
    ExampleLine(SeedToSoil.ranges[0], "50", "98", "2");
    assert "50" + " " + "98" + " " + "2" == l0;
    ExampleLine(SeedToSoil.ranges[1], "52", "50", "48");
    assert "52" + " " + "50" + " " + "48" == l1;
  }

  lemma ExampleSeedToSoilHeader(header: string)
    requires header == "seed-to-soil map:"
    ensures header == MapId("seed", "soil")
    ensures |header| > 4 && header[4] == '-' && forall i :: 0 <= i < 4 ==> header[i] != '-'
  {
  }

  lemma ExampleNoDash(pre: string)
    requires pre == "seeds: 79 14 55 13\n" + "\n"
    ensures '-' !in pre
  {
  }

  /**
   * A map of two range lines, followed by an empty line, is read back when its header
   * holds a character that neither the text before it nor the header's own start has.
   */
  lemma ParseTwoLineMap(input: string, pre: string, from: string, to: string,
                        r0: UncannyRange, r1: UncannyRange, later: string, j: nat)
    requires WellFormed(r0) && WellFormed(r1) && '\n' !in from && '\n' !in to
    requires input == pre + MapId(from, to) + "\n" + RangeText(r0) + "\n" + RangeText(r1) + "\n" + ("\n" + later)
    requires j < |MapId(from, to)| && MapId(from, to)[j] !in pre
    requires forall i :: 0 <= i < j ==> MapId(from, to)[i] != MapId(from, to)[j]
    ensures ParseMap(input, from, to) == Some(UncannyMap([r0, r1]))
  {
    var id := MapId(from, to);
    var rest := "\n" + later;
    BlockOfTwo(r0, r1);
    var block := RangeBlock([r0, r1]);
    ExampleLayout(input, pre, id, RangeText(r0), RangeText(r1), rest);
    FindAfter(pre, id, "\n" + block + rest, j);
    ParseMapOfText(input, pre, from, to, [r0, r1], rest);
  }

  lemma BlockOfTwo(r0: UncannyRange, r1: UncannyRange)
    ensures RangeBlock([r0, r1]) == RangeText(r0) + "\n" + RangeText(r1) + "\n"
  {
    assert [r0, r1][1..] == [r1] && [r1][1..] == [];
    assert RangeBlock([r1]) == RangeText(r1) + "\n";
    assert RangeBlock([r0, r1]) == RangeText(r0) + "\n" + (RangeText(r1) + "\n");
  }

  /** The input pieces regrouped as a header, a block of two lines and what follows. */
  lemma ExampleLayout(input: string, pre: string, id: string, l0: string, l1: string, rest: string)
    requires input == pre + id + "\n" + l0 + "\n" + l1 + "\n" + rest
    ensures input == pre + id + "\n" + (l0 + "\n" + l1 + "\n") + rest
    ensures input == pre + id + ("\n" + (l0 + "\n" + l1 + "\n") + rest)
  {
  }

  /** The example's seed-to-soil lookups: 0 and 49 and 100 stay, 50, 97, 98 and 99 move. */
  lemma ExampleSeedToSoilGets()
    ensures MapGet(SeedToSoil, 0) == 0 && MapGet(SeedToSoil, 49) == 49
    ensures MapGet(SeedToSoil, 50) == 52 && MapGet(SeedToSoil, 97) == 99
    ensures MapGet(SeedToSoil, 98) == 50 && MapGet(SeedToSoil, 99) == 51
    ensures MapGet(SeedToSoil, 100) == 100
  {
    MapGetFirst(SeedToSoil, 50, 1);
    MapGetFirst(SeedToSoil, 97, 1);
    MapGetFirst(SeedToSoil, 98, 0);
    MapGetFirst(SeedToSoil, 99, 0);
  }
}
