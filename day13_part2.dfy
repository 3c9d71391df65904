/**
 * Day 13, part two: every block has exactly one smudge, a cell whose flip makes a new
 * line of reflection appear. The map finds it by flipping cells one at a time in
 * row-major order and keeping the first flip after which exactly one of the row and
 * column hashes shows a mirror line other than the block's original one.
 */
module Day13Part2 {
  import opened Wrappers
  import opened Text
  import opened Day13Part1

  function Min(a: nat, b: nat): nat {
    if a < b then a else b
  }

  /** `^= 1 << k`: bit k toggled. */
  function Toggle(h: Hash, k: nat): (r: Hash)
    requires k < HashWidth
    ensures r[k] == !h[k] && forall i :: 0 <= i < HashWidth && i != k ==> r[i] == h[i]
  {
    h[k := !h[k]]
  }

  /** The hashes with bit `k` of the `i`-th one toggled. */
  function Toggled(hashes: seq<Hash>, i: nat, k: nat): (r: seq<Hash>)
    requires i < |hashes| && k < HashWidth
    ensures |r| == |hashes| && r[i] == Toggle(hashes[i], k)
    ensures forall j :: 0 <= j < |hashes| && j != i ==> r[j] == hashes[j]
  {
    hashes[i := Toggle(hashes[i], k)]
  }

  /** Toggling the same bit twice changes nothing. */
  lemma ToggledTwice(hashes: seq<Hash>, i: nat, k: nat)
    requires i < |hashes| && k < HashWidth
    ensures Toggled(Toggled(hashes, i, k), i, k) == hashes
  {
    assert Toggle(Toggle(hashes[i], k), k) == hashes[i];
  }

  /** The column hashes hold the row hashes transposed over the map's cells. */
  predicate Transposed(rows: seq<Hash>, cols: seq<Hash>) {
    forall i, j :: 0 <= i < |rows| && 0 <= j < |cols| && i < HashWidth && j < HashWidth ==>
      rows[i][j] == cols[j][i]
  }

  /** Parsing transposes. */
  lemma ParsedTransposed(lines: seq<string>)
    requires RowsReadable(lines)
    ensures Transposed(RowHashes(lines), ColHashes(lines))
  {
  }

  /** A flip keeps the column hashes the transpose of the row hashes. */
  lemma FlipKeepsTransposed(rows: seq<Hash>, cols: seq<Hash>, row: nat, col: nat)
    requires Transposed(rows, cols)
    requires row < |rows| && col < |cols| && row < HashWidth && col < HashWidth
    ensures Transposed(Toggled(rows, row, col), Toggled(cols, col, row))
  {
  }

  /** `iter().rev()` */
  function Reverse(s: seq<Hash>): (r: seq<Hash>)
    ensures |r| == |s| && forall k :: 0 <= k < |s| ==> r[k] == s[|s| - 1 - k]
  {
    if s == [] then [] else Reverse(s[1..]) + [s[0]]
  }

  /** `a.zip(b).all(|(x, y)| x == y)` */
  function ZipAllEqual(a: seq<Hash>, b: seq<Hash>): bool
    decreases |a|
  {
    a == [] || b == [] || (a[0] == b[0] && ZipAllEqual(a[1..], b[1..]))
  }

  /** The zip compares the pairs up to the shorter length. */
  lemma {:induction false} ZipAllEqualMeans(a: seq<Hash>, b: seq<Hash>)
    ensures ZipAllEqual(a, b) <==> forall k :: 0 <= k < |a| && k < |b| ==> a[k] == b[k]
    decreases |a|
  {
    if a != [] && b != [] {
      ZipAllEqualMeans(a[1..], b[1..]);
      assert forall k :: 1 <= k < |a| && k < |b| ==> a[k] == a[1..][k - 1] && b[k] == b[1..][k - 1];
    }
  }

  /**
   * `is_mirroring`: the hashes up to and including `index`, read backwards, agree with the
   * hashes after it as far as both go.
   */
  function IsMirroring(hashes: seq<Hash>, index: nat): bool {
    var cut := Min(index + 1, |hashes|);
    ZipAllEqual(Reverse(hashes[..cut]), hashes[cut..])
  }

  /** A line of reflection after `index`: any two hashes at the same distance from it agree. */
  ghost predicate ReflectsAt(hashes: seq<Hash>, index: nat) {
    forall a, b :: 0 <= a < b < |hashes| && a + b == 2 * index + 1 ==> hashes[a] == hashes[b]
  }

  lemma IsMirroringMeans(hashes: seq<Hash>, index: nat)
    ensures IsMirroring(hashes, index) <==> ReflectsAt(hashes, index)
  {
    var cut := Min(index + 1, |hashes|);
    var first := Reverse(hashes[..cut]);
    var second := hashes[cut..];
    ZipAllEqualMeans(first, second);
    if IsMirroring(hashes, index) {
      forall a, b | 0 <= a < b < |hashes| && a + b == 2 * index + 1
        ensures hashes[a] == hashes[b]
      {
        var k := index - a;
        assert first[k] == hashes[a] && second[k] == hashes[b];
      }
    }
    if ReflectsAt(hashes, index) {
      forall k | 0 <= k < |first| && k < |second|
        ensures first[k] == second[k]
      {
        assert first[k] == hashes[index - k] && second[k] == hashes[index + 1 + k];
      }
    }
  }

  /** The places from `from` on where `flags` holds, in increasing order: a filter over a range. */
  function Holding(flags: seq<bool>, from: nat): seq<nat>
    decreases |flags| - from
  {
    if from >= |flags| then []
    else if flags[from] then [from] + Holding(flags, from + 1)
    else Holding(flags, from + 1)
  }

  predicate Increasing(s: seq<nat>) {
    forall a, b :: 0 <= a < b < |s| ==> s[a] < s[b]
  }

  /** The filter keeps exactly the places that hold, in increasing order. */
  lemma {:induction false} HoldingMeaning(flags: seq<bool>, from: nat)
    ensures var r := Holding(flags, from);
      (forall x: nat :: x in r <==> from <= x < |flags| && flags[x]) &&
      Increasing(r) && (forall a :: 0 <= a < |r| ==> from <= r[a])
    decreases |flags| - from
  {
    if from < |flags| {
      var rest := Holding(flags, from + 1);
      HoldingMeaning(flags, from + 1);
      if flags[from] {
        var r := [from] + rest;
        assert forall x: nat :: x in r <==> x == from || x in rest;
        assert forall a :: 1 <= a < |r| ==> r[a] == rest[a - 1];
      }
    }
  }

  /** Whether the hashes mirror after each index from 0 to len - 2. */
  function MirrorFlags(hashes: seq<Hash>): (r: seq<bool>)
    requires |hashes| >= 1
    ensures |r| == |hashes| - 1
    ensures forall i :: 0 <= i < |r| ==> r[i] == IsMirroring(hashes, i)
  {
    seq(|hashes| - 1, i requires 0 <= i < |hashes| - 1 => IsMirroring(hashes, i))
  }

  /**
   * `mirroring_iter`: the indices 0 to len - 2 after which the hashes mirror, in increasing
   * order; `len - 1` underflows on no hashes, so there is at least one.
   */
  function MirroringIter(hashes: seq<Hash>): seq<nat>
    requires |hashes| >= 1
  {
    Holding(MirrorFlags(hashes), 0)
  }

  /** `mirroring_iter` yields exactly the mirror indices, in increasing order. */
  lemma MirroringIterMeaning(hashes: seq<Hash>)
    requires |hashes| >= 1
    ensures forall x: nat :: x in MirroringIter(hashes) <==> x < |hashes| - 1 && IsMirroring(hashes, x)
    ensures Increasing(MirroringIter(hashes))
  {
    HoldingMeaning(MirrorFlags(hashes), 0);
  }

  /** `iter.next()`: the first mirror index. */
  function FirstMirror(hashes: seq<Hash>): Option<nat>
    requires |hashes| >= 1
  {
    var mirrors := MirroringIter(hashes);
    if mirrors == [] then None else Some(mirrors[0])
  }

  /** The first mirror index is a mirror index, and no smaller index is one. */
  lemma FirstMirrorMeaning(hashes: seq<Hash>)
    requires |hashes| >= 1
    ensures var r := FirstMirror(hashes);
      r.Some? ==> r.value < |hashes| - 1 && IsMirroring(hashes, r.value)
    ensures var r := FirstMirror(hashes);
      forall x: nat :: x < |hashes| - 1 && IsMirroring(hashes, x) ==> r.Some? && r.value <= x
  {
    var mirrors := MirroringIter(hashes);
    MirroringIterMeaning(hashes);
    if mirrors != [] {
      assert mirrors[0] in mirrors;
      forall x: nat | x in mirrors
        ensures mirrors[0] <= x
      {
        var k :| 0 <= k < |mirrors| && mirrors[k] == x;
      }
    }
  }

  /** `iter.find(|&i| orig != Some(i))` */
  function FindOther(s: seq<nat>, orig: Option<nat>): Option<nat> {
    if s == [] then None
    else if orig != Some(s[0]) then Some(s[0])
    else FindOther(s[1..], orig)
  }

  /** On an increasing sequence, the find gives the smallest element that is not `orig`. */
  lemma {:induction false} FindOtherMeaning(s: seq<nat>, orig: Option<nat>)
    requires Increasing(s)
    ensures var r := FindOther(s, orig);
      r.Some? ==> r.value in s && orig != r
    ensures var r := FindOther(s, orig);
      forall x :: x in s && (r.Some? ==> x < r.value) ==> orig == Some(x)
  {
    if s != [] && orig == Some(s[0]) {
      FindOtherMeaning(s[1..], orig);
      assert forall x :: x in s ==> x == s[0] || x in s[1..];
    }
  }

  /** `find_new_mirror_index` */
  function FindNewMirrorIndex(hashes: seq<Hash>, orig: Option<nat>): Option<nat>
    requires |hashes| >= 1
  {
    FindOther(MirroringIter(hashes), orig)
  }

  /**
   * The new mirror index is the smallest mirror index other than `orig`: all smaller
   * mirror indices are `orig`, and when there is none, every mirror index is.
   */
  lemma FindNewMirrorIndexMeaning(hashes: seq<Hash>, orig: Option<nat>)
    requires |hashes| >= 1
    ensures var r := FindNewMirrorIndex(hashes, orig);
      r.Some? ==> r.value < |hashes| - 1 && IsMirroring(hashes, r.value) && orig != r
    ensures var r := FindNewMirrorIndex(hashes, orig);
      forall x: nat :: x < |hashes| - 1 && IsMirroring(hashes, x) && (r.Some? ==> x < r.value) ==>
        orig == Some(x)
  {
    MirroringIterMeaning(hashes);
    FindOtherMeaning(MirroringIter(hashes), orig);
  }

  /** A map's row and column hashes, as `desmudge` and `summarize` need them. */
  predicate Shaped(rows: seq<Hash>, cols: seq<Hash>) {
    1 <= |rows| <= HashWidth && 1 <= |cols| <= HashWidth
  }

  /**
   * The test `desmudge` applies to the map with cell (row, col) flipped: exactly one of
   * the rows and the columns has a mirror index other than the original one.
   */
  predicate IsSmudge(rows: seq<Hash>, cols: seq<Hash>, origRow: Option<nat>, origCol: Option<nat>, row: nat, col: nat)
    requires Shaped(rows, cols) && row < |rows| && col < |cols|
  {
    var newRow := FindNewMirrorIndex(Toggled(rows, row, col), origRow);
    var newCol := FindNewMirrorIndex(Toggled(cols, col, row), origCol);
    newRow.Some? != newCol.Some?
  }

  /** (r1, c1) comes before (r2, c2) in row-major order. */
  predicate Before(r1: nat, c1: nat, r2: nat, c2: nat) {
    r1 < r2 || (r1 == r2 && c1 < c2)
  }

  /** The first cell at or after (row, col), in row-major order, that passes the test. */
  function FirstPassingFrom(passes: (nat, nat) -> bool, height: nat, width: nat, row: nat, col: nat): (r: Option<(nat, nat)>)
    requires row <= height && col <= width
    ensures r.Some? ==> r.value.0 < height && r.value.1 < width
    decreases height - row, width - col
  {
    if row == height then None
    else if col == width then FirstPassingFrom(passes, height, width, row + 1, 0)
    else if passes(row, col) then Some((row, col))
    else FirstPassingFrom(passes, height, width, row, col + 1)
  }

  /** No cell before (row, col) in row-major order passes the test. */
  ghost predicate NoneBefore(passes: (nat, nat) -> bool, height: nat, width: nat, row: nat, col: nat) {
    forall a: nat, b: nat :: a < height && b < width && Before(a, b, row, col) ==> !passes(a, b)
  }

  /**
   * The search finds a passing cell at or after (row, col), and no cell from (row, col) up
   * to the one it finds, or to the end when it finds none, passes.
   */
  lemma {:induction false} FirstPassingFromMeaning(passes: (nat, nat) -> bool, height: nat, width: nat, row: nat, col: nat)
    requires row <= height && col <= width
    ensures var r := FirstPassingFrom(passes, height, width, row, col);
      r.Some? ==> !Before(r.value.0, r.value.1, row, col) && passes(r.value.0, r.value.1)
    ensures var r := FirstPassingFrom(passes, height, width, row, col);
      forall a: nat, b: nat ::
        (a < height && b < width && !Before(a, b, row, col) && (r.Some? ==> Before(a, b, r.value.0, r.value.1))) ==>
        !passes(a, b)
    decreases height - row, width - col
  {
    if row == height {
    } else if col == width {
      FirstPassingFromMeaning(passes, height, width, row + 1, 0);
    } else if !passes(row, col) {
      FirstPassingFromMeaning(passes, height, width, row, col + 1);
    }
  }

  /** A passing cell with no passing cell before it is the one the search finds. */
  lemma FirstPassingIs(passes: (nat, nat) -> bool, height: nat, width: nat, row: nat, col: nat)
    requires row < height && col < width && passes(row, col)
    requires NoneBefore(passes, height, width, row, col)
    ensures FirstPassingFrom(passes, height, width, 0, 0) == Some((row, col))
  {
    var r := FirstPassingFrom(passes, height, width, 0, 0);
    FirstPassingFromMeaning(passes, height, width, 0, 0);
    assert r.Some?;
    assert !Before(r.value.0, r.value.1, row, col);
    assert !Before(row, col, r.value.0, r.value.1);
  }

  /** When no cell passes, the search finds none. */
  lemma NonePassing(passes: (nat, nat) -> bool, height: nat, width: nat)
    requires NoneBefore(passes, height, width, height, 0)
    ensures FirstPassingFrom(passes, height, width, 0, 0).None?
  {
    FirstPassingFromMeaning(passes, height, width, 0, 0);
    assert forall a: nat, b: nat :: a < height ==> Before(a, b, height, 0);
  }

  /** The `desmudge` test as a test of cells. */
  function SmudgeTest(rows: seq<Hash>, cols: seq<Hash>): (nat, nat) -> bool
    requires Shaped(rows, cols)
  {
    (a: nat, b: nat) => a < |rows| && b < |cols| && IsSmudge(rows, cols, FirstMirror(rows), FirstMirror(cols), a, b)
  }

  /**
   * The flip `desmudge` keeps: the first in row-major order that passes its test against
   * the original mirror indices.
   */
  function FirstSmudge(rows: seq<Hash>, cols: seq<Hash>): (r: Option<(nat, nat)>)
    requires Shaped(rows, cols)
    ensures r.Some? ==> r.value.0 < |rows| && r.value.1 < |cols|
  {
    FirstPassingFrom(SmudgeTest(rows, cols), |rows|, |cols|, 0, 0)
  }

  /** The first smudge passes the test and no flip before it does. */
  lemma FirstSmudgeMeaning(rows: seq<Hash>, cols: seq<Hash>)
    requires Shaped(rows, cols)
    ensures var r := FirstSmudge(rows, cols);
      r.Some? ==> IsSmudge(rows, cols, FirstMirror(rows), FirstMirror(cols), r.value.0, r.value.1)
    ensures var r := FirstSmudge(rows, cols);
      forall a: nat, b: nat :: a < |rows| && b < |cols| && (r.Some? ==> Before(a, b, r.value.0, r.value.1)) ==>
        !IsSmudge(rows, cols, FirstMirror(rows), FirstMirror(cols), a, b)
  {
    var test := SmudgeTest(rows, cols);
    FirstPassingFromMeaning(test, |rows|, |cols|, 0, 0);
    assert forall a: nat, b: nat :: a < |rows| && b < |cols| ==>
      test(a, b) == IsSmudge(rows, cols, FirstMirror(rows), FirstMirror(cols), a, b);
  }

  /** `.map(|x| x + 1).unwrap_or(0)` */
  function OneBased(index: Option<nat>): (n: nat)
    ensures n == 0 <==> index.None?
  {
    if index.Some? then index.value + 1 else 0
  }

  /**
   * `summarize`: 100 times the number of rows above the new horizontal line of reflection
   * plus the number of columns left of the new vertical one, 0 standing for no line.
   */
  function Summary(rows: seq<Hash>, cols: seq<Hash>, ignoredRow: Option<nat>, ignoredCol: Option<nat>): nat
    requires |rows| >= 1 && |cols| >= 1
  {
    100 * OneBased(FindNewMirrorIndex(rows, ignoredRow)) + OneBased(FindNewMirrorIndex(cols, ignoredCol))
  }

  /**
   * When exactly one of rows and columns has a new mirror, as after a flip that passed the
   * `desmudge` test, the summary reports that one line of reflection: 100 times the rows
   * above a new horizontal one, or the columns left of a new vertical one.
   */
  lemma SummaryOfNewMirror(rows: seq<Hash>, cols: seq<Hash>, ignoredRow: Option<nat>, ignoredCol: Option<nat>)
    requires |rows| >= 1 && |cols| >= 1
    requires FindNewMirrorIndex(rows, ignoredRow).Some? != FindNewMirrorIndex(cols, ignoredCol).Some?
    ensures var s := Summary(rows, cols, ignoredRow, ignoredCol);
      (exists i :: 0 <= i < |rows| - 1 && ReflectsAt(rows, i) && Some(i) != ignoredRow && s == 100 * (i + 1)) ||
      (exists j :: 0 <= j < |cols| - 1 && ReflectsAt(cols, j) && Some(j) != ignoredCol && s == j + 1)
  {
    var s := Summary(rows, cols, ignoredRow, ignoredCol);
    var newRow := FindNewMirrorIndex(rows, ignoredRow);
    var newCol := FindNewMirrorIndex(cols, ignoredCol);
    FindNewMirrorIndexMeaning(rows, ignoredRow);
    FindNewMirrorIndexMeaning(cols, ignoredCol);
    if newRow.Some? {
      var i := newRow.value;
      IsMirroringMeans(rows, i);
      assert 0 <= i < |rows| - 1 && ReflectsAt(rows, i) && Some(i) != ignoredRow && s == 100 * (i + 1);
    } else {
      var j := newCol.value;
      IsMirroringMeans(cols, j);
      assert 0 <= j < |cols| - 1 && ReflectsAt(cols, j) && Some(j) != ignoredCol && s == j + 1;
    }
  }

  /** A block of the valley map, as `from_block` parses it and `desmudge` rewrites it. */
  class Map {
    var rowHashes: seq<Hash>
    var colHashes: seq<Hash>
    var ignoredRowMirror: Option<nat>
    var ignoredColMirror: Option<nat>

    /** `from_block`: the transposed hashes of the block, with no mirror to ignore. */
    constructor FromBlock(block: string)
      requires RowsReadable(Lines(block))
      ensures rowHashes == RowHashes(Lines(block)) && colHashes == ColHashes(Lines(block))
      ensures ignoredRowMirror == None && ignoredColMirror == None
    {
      var parsed := Day13Part1.FromBlock(block);
      rowHashes := parsed.rowHashes;
      colHashes := parsed.colHashes;
      ignoredRowMirror := None;
      ignoredColMirror := None;
    }

    /** `clone` */
    constructor Clone(other: Map)
      ensures rowHashes == other.rowHashes && colHashes == other.colHashes
      ensures ignoredRowMirror == other.ignoredRowMirror && ignoredColMirror == other.ignoredColMirror
    {
      rowHashes := other.rowHashes;
      colHashes := other.colHashes;
      ignoredRowMirror := other.ignoredRowMirror;
      ignoredColMirror := other.ignoredColMirror;
    }

    /**
     * `flip`: toggle cell (row, col) in its row hash and in its column hash. Both hashes
     * must exist, and shifting by 32 or more panics.
     */
    method Flip(row: nat, col: nat)
      requires row < |rowHashes| && col < |colHashes| && row < HashWidth && col < HashWidth
      modifies this
      ensures rowHashes == Toggled(old(rowHashes), row, col)
      ensures colHashes == Toggled(old(colHashes), col, row)
      ensures ignoredRowMirror == old(ignoredRowMirror) && ignoredColMirror == old(ignoredColMirror)
    {
      rowHashes := rowHashes[row := Toggle(rowHashes[row], col)];
      colHashes := colHashes[col := Toggle(colHashes[col], row)];
    }

    /**
     * One candidate of `desmudge`: a clone of the map with cell (row, col) flipped, and
     * whether it passes the test against the original mirror indices.
     */
    method FlipClone(row: nat, col: nat, origRow: Option<nat>, origCol: Option<nat>) returns (clone: Map, passes: bool)
      requires Shaped(rowHashes, colHashes) && row < |rowHashes| && col < |colHashes|
      ensures fresh(clone)
      ensures clone.rowHashes == Toggled(rowHashes, row, col) && clone.colHashes == Toggled(colHashes, col, row)
      ensures passes == IsSmudge(rowHashes, colHashes, origRow, origCol, row, col)
    {
      clone := new Map.Clone(this);
      clone.Flip(row, col);
      var newRow := FindNewMirrorIndex(clone.rowHashes, origRow);
      var newCol := FindNewMirrorIndex(clone.colHashes, origCol);
      passes := newRow.Some? != newCol.Some?;
    }

    /**
     * `desmudge`: try the flips of a clone in row-major order and keep the first that passes
     * the test, remembering the original mirror indices as the ones to ignore. The
     * `unwrap` panics when no flip passes.
     */
    method Desmudge() returns (map_: Map)
      requires Shaped(rowHashes, colHashes)
      requires FirstSmudge(rowHashes, colHashes).Some?
      ensures fresh(map_)
      ensures var (row, col) := FirstSmudge(rowHashes, colHashes).value;
        map_.rowHashes == Toggled(rowHashes, row, col)
      ensures var (row, col) := FirstSmudge(rowHashes, colHashes).value;
        map_.colHashes == Toggled(colHashes, col, row)
      ensures map_.ignoredRowMirror == FirstMirror(rowHashes) && map_.ignoredColMirror == FirstMirror(colHashes)
    {
      var rows, cols := rowHashes, colHashes;
      var origRow := FirstMirror(rows);
      var origCol := FirstMirror(cols);
      var row := 0;
      while row < |rows|
        invariant row <= |rows|
        invariant NoneBefore(SmudgeTest(rows, cols), |rows|, |cols|, row, 0)
      {
        var col := 0;
        while col < |cols|
          invariant col <= |cols|
          invariant NoneBefore(SmudgeTest(rows, cols), |rows|, |cols|, row, col)
        {
          var clone, passes := FlipClone(row, col, origRow, origCol);
          assert passes == SmudgeTest(rows, cols)(row, col);
          if passes {
            FirstPassingIs(SmudgeTest(rows, cols), |rows|, |cols|, row, col);
            ghost var flippedRows, flippedCols := clone.rowHashes, clone.colHashes;
            clone.ignoredRowMirror := origRow;
            clone.ignoredColMirror := origCol;
            assert clone.rowHashes == flippedRows && clone.colHashes == flippedCols;
            assert rowHashes == rows && colHashes == cols;
            return clone;
          }
          col := col + 1;
        }
        row := row + 1;
      }
      NonePassing(SmudgeTest(rows, cols), |rows|, |cols|);
      assert false;
    }

    /** `summarize` */
    function Summarize(): nat
      reads this
      requires |rowHashes| >= 1 && |colHashes| >= 1
    {
      Summary(rowHashes, colHashes, ignoredRowMirror, ignoredColMirror)
    }
  }

  /** What `run` adds up for one block: the summary of the block after the smudge is fixed. */
  predicate BlockSolvable(block: string) {
    var lines := Lines(block);
    RowsReadable(lines) && Shaped(RowHashes(lines), ColHashes(lines)) &&
    FirstSmudge(RowHashes(lines), ColHashes(lines)).Some?
  }

  function BlockSummary(block: string): nat
    requires BlockSolvable(block)
  {
    var rows := RowHashes(Lines(block));
    var cols := ColHashes(Lines(block));
    var (row, col) := FirstSmudge(rows, cols).value;
    Summary(Toggled(rows, row, col), Toggled(cols, col, row), FirstMirror(rows), FirstMirror(cols))
  }

  predicate AllSolvable(blocks: seq<string>) {
    forall k :: 0 <= k < |blocks| ==> BlockSolvable(blocks[k])
  }

  function TotalSummary(blocks: seq<string>): nat
    requires AllSolvable(blocks)
  {
    if blocks == [] then 0
    else TotalSummary(blocks[..|blocks| - 1]) + BlockSummary(blocks[|blocks| - 1])
  }

  /** The total over one more block. */
  lemma SummaryNext(blocks: seq<string>, k: nat)
    requires AllSolvable(blocks) && k < |blocks|
    ensures AllSolvable(blocks[..k]) && AllSolvable(blocks[..k + 1])
    ensures TotalSummary(blocks[..k + 1]) == TotalSummary(blocks[..k]) + BlockSummary(blocks[k])
  {
    assert blocks[..k + 1][..k] == blocks[..k];
    assert blocks[..k + 1][k] == blocks[k];
  }

  /** One block through `run`'s pipeline: `from_block`, `desmudge`, `summarize`. */
  method SolveBlock(block: string) returns (summary: nat)
    requires BlockSolvable(block)
    ensures summary == BlockSummary(block)
  {
    var map_ := new Map.FromBlock(block);
    var fixed := map_.Desmudge();
    summary := fixed.Summarize();
  }

  /** The blocks of the input: the pieces between blank lines. */
  function Blocks(input: string): seq<string> {
    SplitStr(input, "\n\n")
  }

  /** `run`: split the input at blank lines, fix each block's smudge and add up the summaries. */
  method Run(input: string) returns (total: nat)
    requires AllSolvable(Blocks(input))
    ensures total == TotalSummary(Blocks(input))
  {
    var blocks := Blocks(input);
    total := 0;
    for k := 0 to |blocks|
      invariant total == TotalSummary(blocks[..k])
    {
      var summary := SolveBlock(blocks[k]);
      SummaryNext(blocks, k);
      total := total + summary;
    }
    assert blocks[..|blocks|] == blocks;
  }
}
