/**
 * Day 12, part one: count the arrangements of each row by a depth-first search that
 * decides the lowest unknown spring both ways and drops the rows `validate` rejects.
 */
module Day12Part1 {
  import opened Wrappers
  import opened Text
  import opened Day12Springs
  import opened Day12Arrangements
  import opened Day12Validate

  /**
   * A line the solution reads without panicking: a space, a spring row of known symbols
   * (at most 126 of them, so that no shift of the checker reaches the full width) and
   * comma-separated numbers.
   */
  predicate LineReadable(line: string) {
    ' ' in line && SpringsReadable(line) && GroupsReadable(line) &&
    |SplitOnce(line, ' ').value.0| <= Width - 2
  }

  /** The spring row of a line, as text. */
  function SpringText(line: string): string
    requires ' ' in line
  {
    SplitOnce(line, ' ').value.0
  }

  /** The group sizes of a line. */
  function LineGroups(line: string): seq<nat>
    requires ' ' in line && GroupsReadable(line)
  {
    GroupsFromStr(line).value.groups
  }

  predicate AllPositive(groups: seq<nat>) {
    forall i :: 0 <= i < |groups| ==> groups[i] >= 1
  }

  /**
   * What a row on the search stack adds to the count: a row without unknown springs is
   * counted once when it is popped, any other row by its number of valid arrangements.
   */
  function Value(bs: BitSprings, groups: seq<nat>): nat
    requires bs.numSprings <= Width
  {
    if IsZero(bs.unknownMask) then 1 else Arrangements(Show(bs), groups)
  }

  function SumValues(stack: seq<BitSprings>, groups: seq<nat>): nat
    requires forall k :: 0 <= k < |stack| ==> stack[k].numSprings <= Width
  {
    if stack == [] then 0
    else SumValues(stack[..|stack| - 1], groups) + Value(stack[|stack| - 1], groups)
  }

  function Pow2(k: nat): (r: nat)
    ensures r >= 1
  {
    if k == 0 then 1 else 2 * Pow2(k - 1)
  }

  /** The most rows one stack entry can still put on the stack, itself included. */
  function Weight(bs: BitSprings): nat {
    2 * Pow2(|Ones(bs.unknownMask)|) - 1
  }

  function TotalWeight(stack: seq<BitSprings>): nat {
    if stack == [] then 0 else TotalWeight(stack[..|stack| - 1]) + Weight(stack[|stack| - 1])
  }

  /** Pushing a row adds its weight and its value. */
  lemma Push(stack: seq<BitSprings>, bs: BitSprings, groups: seq<nat>)
    requires Searchable(stack) && WellFormed(bs) && bs.numSprings <= Width - 2
    ensures Searchable(stack + [bs])
    ensures TotalWeight(stack + [bs]) == TotalWeight(stack) + Weight(bs)
    ensures SumValues(stack + [bs], groups) == SumValues(stack, groups) + Value(bs, groups)
  {
    assert (stack + [bs])[..|stack|] == stack;
  }

  /** Rows the search may hold: well formed and short enough for `validate`. */
  predicate Searchable(stack: seq<BitSprings>) {
    forall k :: 0 <= k < |stack| ==> WellFormed(stack[k]) && stack[k].numSprings <= Width - 2
  }

  /**
   * What a collapsed row contributes through the `validate` filter: its value when it is
   * pushed, nothing when it is rejected; either way, its number of valid arrangements.
   */
  lemma PushedValue(bs: BitSprings, groups: seq<nat>)
    requires WellFormed(bs) && AllPositive(groups)
    ensures (if ValidateSpec(bs, groups) then Value(bs, groups) else 0) == Arrangements(Show(bs), groups)
  {
    if IsZero(bs.unknownMask) {
      assert '?' !in Show(bs);
      ArrangementsDecided(Show(bs), groups);
      ValidateDecided(bs, groups);
    } else if Arrangements(Show(bs), groups) > 0 {
      ValidateKeeps(bs, groups);
    }
  }

  /** Popping a row with unknown springs: its value is that of its two collapsed copies. */
  lemma CollapseValue(bs: BitSprings, groups: seq<nat>)
    requires WellFormed(bs) && !IsZero(bs.unknownMask)
    ensures var (a, b) := CollapseNext(bs).value;
      Value(bs, groups) == Arrangements(Show(a), groups) + Arrangements(Show(b), groups) &&
      2 * Weight(a) < Weight(bs) && Weight(a) == Weight(b)
  {
    CollapseNextMeaning(bs);
  }

  /**
   * One round of the loop of `count_possible_arrangements`: pop a row; count it if it has
   * no unknown spring, otherwise push each of its two collapsed copies that `validate`
   * accepts.
   */
  method SearchStep(g: GroupSprings, arrangements: seq<BitSprings>) returns (rest: seq<BitSprings>, add: nat)
    requires Searchable(arrangements) && arrangements != []
    ensures Searchable(rest)
    ensures TotalWeight(rest) < TotalWeight(arrangements)
    ensures AllPositive(g.groups) ==> add + SumValues(rest, g.groups) == SumValues(arrangements, g.groups)
  {
    var springs := arrangements[|arrangements| - 1];
    rest := arrangements[..|arrangements| - 1];
    var next := CollapseNext(springs);
    if next.None? {
      add := 1;
      return;
    }
    add := 0;
    var (a, b) := next.value;
    CollapseNextMeaning(springs);
    CollapseValue(springs, g.groups);
    var okA := Validate(g, a);
    if okA {
      Push(rest, a, g.groups);
      rest := rest + [a];
    }
    var okB := Validate(g, b);
    if okB {
      Push(rest, b, g.groups);
      rest := rest + [b];
    }
    if AllPositive(g.groups) {
      PushedValue(a, g.groups);
      PushedValue(b, g.groups);
    }
  }

  /** The loop of `count_possible_arrangements`, from the stack it starts with. */
  method Search(g: GroupSprings, start: seq<BitSprings>) returns (num: nat)
    requires Searchable(start)
    ensures AllPositive(g.groups) ==> num == SumValues(start, g.groups)
  {
    num := 0;
    var arrangements := start;
    while arrangements != []
      invariant Searchable(arrangements)
      invariant AllPositive(g.groups) ==> num + SumValues(arrangements, g.groups) == SumValues(start, g.groups)
      decreases TotalWeight(arrangements)
    {
      var add;
      arrangements, add := SearchStep(g, arrangements);
      num := num + add;
    }
  }

  /**
   * The count the solution computes for a line: the number of valid arrangements when the
   * row has an unknown spring, and 1 for a row without one, whatever its groups.
   */
  function AsWrittenCount(line: string): nat
    requires LineReadable(line)
  {
    if '?' in SpringText(line) then Arrangements(SpringText(line), LineGroups(line)) else 1
  }

  /** `count_possible_arrangements` as written: the starting row goes on the stack unchecked. */
  method CountPossibleArrangements(line: string) returns (num: nat)
    requires LineReadable(line)
    ensures AllPositive(LineGroups(line)) ==> num == AsWrittenCount(line)
  {
    var springs := FromStr(line).value;
    var groupSprings := GroupsFromStr(line).value;
    FromStrShows(line);
    num := Search(groupSprings, [springs]);
    assert [springs][..0] == [];
    assert IsZero(springs.unknownMask) <==> '?' !in SpringText(line);
  }

  /** The line "# 2": one broken spring, one group of two. */
  lemma ExampleLine()
    ensures LineReadable("# 2")
    ensures SpringText("# 2") == "#"
    ensures LineGroups("# 2") == [2]
  {
    SplitOnceAfter("#", ' ', "2");
    assert Split("2", ',') == ["2"] by {
      assert IndexOf("2", ',').None?;
    }
    assert ParseNat("2") == Some(2) by {
      assert DigitsValue("2") == DigitsValue("") * 10 + DigitValue('2');
    }
  }

  /** One broken spring is one group of one. */
  lemma OneBrokenGroups()
    ensures GroupsOf("#") == [1]
  {
    var c := BrokenOf("#");
    assert c == [true];
    assert RunOf(c, false) == 0;
    assert RunOf(c, true) == 1 + RunOf([], true);
    assert c[1..] == [];
  }

  /** A row without '?' whose single arrangement has the wrong groups is counted once. */
  lemma AsWrittenCountsUnmatchedRow()
    ensures LineReadable("# 2")
    ensures LineGroups("# 2") == [2]
    ensures AsWrittenCount("# 2") == 1
    ensures Arrangements(SpringText("# 2"), LineGroups("# 2")) == 0
  {
    ExampleLine();
    OneBrokenGroups();
  }

  /**
   * The count with the starting row checked like every other row: the number of valid
   * arrangements of the line's row.
   */
  method CountArrangements(line: string) returns (num: nat)
    requires LineReadable(line)
    ensures AllPositive(LineGroups(line)) ==> num == Arrangements(SpringText(line), LineGroups(line))
  {
    var springs := FromStr(line).value;
    var groupSprings := GroupsFromStr(line).value;
    FromStrShows(line);
    var ok := Validate(groupSprings, springs);
    var start := [];
    if ok {
      start := [springs];
    }
    num := Search(groupSprings, start);
    assert [springs][..0] == [];
    if AllPositive(groupSprings.groups) {
      PushedValue(springs, groupSprings.groups);
    }
  }

  predicate AllReadable(lines: seq<string>) {
    forall k :: 0 <= k < |lines| ==> LineReadable(lines[k])
  }

  /** The total number of valid arrangements over the lines. */
  function TotalArrangements(lines: seq<string>): nat
    requires AllReadable(lines)
  {
    if lines == [] then 0
    else
      var last := lines[|lines| - 1];
      TotalArrangements(lines[..|lines| - 1]) + Arrangements(SpringText(last), LineGroups(last))
  }

  /** Every line's groups are positive sizes. */
  predicate AllGroupsPositive(lines: seq<string>)
    requires AllReadable(lines)
  {
    forall k :: 0 <= k < |lines| ==> AllPositive(LineGroups(lines[k]))
  }

  /** The total over one more line, and the groups of a longer prefix. */
  lemma TotalNext(lines: seq<string>, k: nat)
    requires AllReadable(lines) && k < |lines|
    ensures AllReadable(lines[..k]) && AllReadable(lines[..k + 1])
    ensures TotalArrangements(lines[..k + 1]) ==
      TotalArrangements(lines[..k]) + Arrangements(SpringText(lines[k]), LineGroups(lines[k]))
    ensures AllGroupsPositive(lines[..k + 1]) ==> AllGroupsPositive(lines[..k]) && AllPositive(LineGroups(lines[k]))
  {
    assert lines[..k + 1][..k] == lines[..k];
    assert lines[..k + 1][k] == lines[k];
  }

  /** `run`: the counts of all lines added up. */
  method Run(input: string) returns (total: nat)
    requires AllReadable(Lines(input))
    ensures AllGroupsPositive(Lines(input)) ==> total == TotalArrangements(Lines(input))
  {
    var lines := Lines(input);
    total := 0;
    for k := 0 to |lines|
      invariant AllGroupsPositive(lines[..k]) ==> total == TotalArrangements(lines[..k])
    {
      var count := CountArrangements(lines[k]);
      TotalNext(lines, k);
      total := total + count;
    }
    assert lines[..|lines|] == lines;
  }
}
