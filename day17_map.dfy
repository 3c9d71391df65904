/**
 * Day 17, the city map: a grid of blocks, each with a heat loss (a digit) and the
 * smallest heat trace a crucible ("hamster") has left on it so far.
 *
 * Traces are kept per block, as in `Field::smallest_trace`, not per (direction, straight
 * count). The accept rule is that of `Field::new_smallest_trace`: a new trace is refused
 * only when it is strictly larger than the recorded one, so equal traces are accepted.
 */
module Day17Map {
  import opened Wrappers
  import opened Text
  import opened Grid

  datatype Field = Field(heatLoss: nat, smallestTrace: Option<nat>)

  /** `Field::parse`: the digit's value as heat loss, and no trace yet. */
  function ParseField(c: char): (f: Field)
    requires IsDigit(c)
    ensures f.heatLoss <= 9 && '0' + (f.heatLoss as char) == c
    ensures f.smallestTrace == None
  {
    Field(DigitValue(c), None)
  }

  /** Every char of every line is a decimal digit: `Map::parse` panics otherwise. */
  predicate IsDigitGrid(s: string) {
    var ls := Lines(s);
    forall y :: 0 <= y < |ls| ==> AllDigits(ls[y])
  }

  function ParseRow(line: string): (row: seq<Field>)
    requires AllDigits(line)
    ensures |row| == |line|
    ensures forall x :: 0 <= x < |row| ==> row[x] == ParseField(line[x])
  {
    seq(|line|, x requires 0 <= x < |line| => ParseField(line[x]))
  }

  /** `Map::parse`: one row of fields per line of the input. */
  function ParseFields(s: string): (fields: seq<seq<Field>>)
    requires IsDigitGrid(s)
    ensures |fields| == |Lines(s)|
    ensures forall y :: 0 <= y < |fields| ==> fields[y] == ParseRow(Lines(s)[y])
  {
    var ls := Lines(s);
    seq(|ls|, y requires 0 <= y < |ls| => ParseRow(ls[y]))
  }

  predicate InBounds(fields: seq<seq<Field>>, c: Coords) {
    c.y < |fields| && c.x < |fields[c.y]|
  }

  /**
   * The accept rule of `Field::new_smallest_trace`: refused only when a trace exists and
   * the new one is strictly larger.
   */
  predicate AcceptsTrace(current: Option<nat>, t: nat) {
    current.None? || t <= current.value
  }

  /** The fields after the block at `c` has recorded the trace `t`. */
  function SetTrace(fields: seq<seq<Field>>, c: Coords, t: nat): (r: seq<seq<Field>>)
    requires InBounds(fields, c)
  {
    fields[c.y := fields[c.y][c.x := fields[c.y][c.x].(smallestTrace := Some(t))]]
  }

  /** Same dimensions and heat losses: the traces are the only thing that may differ. */
  predicate SameTerrain(a: seq<seq<Field>>, b: seq<seq<Field>>) {
    |a| == |b| &&
    (forall y :: 0 <= y < |a| ==> |a[y]| == |b[y]|) &&
    (forall y, x :: 0 <= y < |a| && 0 <= x < |a[y]| && x < |b[y]| ==> a[y][x].heatLoss == b[y][x].heatLoss)
  }

  /** Every trace recorded in `before` is still recorded in `after`, with a value no larger. */
  predicate NoLargerTraces(after: seq<seq<Field>>, before: seq<seq<Field>>)
    requires SameTerrain(after, before)
  {
    forall y, x :: 0 <= y < |before| && 0 <= x < |before[y]| && before[y][x].smallestTrace.Some? ==>
      after[y][x].smallestTrace.Some? && after[y][x].smallestTrace.value <= before[y][x].smallestTrace.value
  }

  /**
   * Recording an accepted trace keeps the terrain, records exactly `t` at `c`, touches no
   * other block and never raises a trace.
   */
  lemma SetTraceNeverIncreases(fields: seq<seq<Field>>, c: Coords, t: nat)
    requires InBounds(fields, c)
    requires AcceptsTrace(fields[c.y][c.x].smallestTrace, t)
    ensures SameTerrain(SetTrace(fields, c, t), fields)
    ensures NoLargerTraces(SetTrace(fields, c, t), fields)
    ensures SetTrace(fields, c, t)[c.y][c.x].smallestTrace == Some(t)
    ensures forall y, x :: 0 <= y < |fields| && 0 <= x < |fields[y]| && (y, x) != (c.y, c.x) ==>
      SetTrace(fields, c, t)[y][x] == fields[y][x]
  {
  }

  lemma SameTerrainTransitive(a: seq<seq<Field>>, b: seq<seq<Field>>, c: seq<seq<Field>>)
    requires SameTerrain(a, b) && SameTerrain(b, c)
    ensures SameTerrain(a, c)
    ensures NoLargerTraces(a, b) && NoLargerTraces(b, c) ==> NoLargerTraces(a, c)
  {
  }

  /** Heat losses are single digits. */
  predicate HeatsAtMostNine(fields: seq<seq<Field>>) {
    forall y, x :: 0 <= y < |fields| && 0 <= x < |fields[y]| ==> fields[y][x].heatLoss <= 9
  }

  /** All heat losses are at least 1 (no '0' in the input). */
  predicate AllPositive(fields: seq<seq<Field>>) {
    forall y, x :: 0 <= y < |fields| && 0 <= x < |fields[y]| ==> fields[y][x].heatLoss >= 1
  }

  /** Every recorded trace is at most `bound`. */
  predicate TracesAtMost(fields: seq<seq<Field>>, bound: nat) {
    forall y, x :: 0 <= y < |fields| && 0 <= x < |fields[y]| && fields[y][x].smallestTrace.Some? ==>
      fields[y][x].smallestTrace.value <= bound
  }

  /** Every recorded trace includes the heat loss of its own block. */
  predicate TracesCoverOwnHeat(fields: seq<seq<Field>>) {
    forall y, x :: 0 <= y < |fields| && 0 <= x < |fields[y]| && fields[y][x].smallestTrace.Some? ==>
      fields[y][x].heatLoss <= fields[y][x].smallestTrace.value
  }

  /** The number of blocks on the map. */
  function Size(fields: seq<seq<Field>>): nat {
    if fields == [] then 0 else |fields[0]| + Size(fields[1..])
  }

  function RowTraceCount(row: seq<Field>): (n: nat)
    ensures n <= |row|
  {
    if row == [] then 0 else (if row[0].smallestTrace.Some? then 1 else 0) + RowTraceCount(row[1..])
  }

  /** The number of blocks that carry a trace. */
  function TraceCount(fields: seq<seq<Field>>): (n: nat)
    ensures n <= Size(fields)
  {
    if fields == [] then 0 else RowTraceCount(fields[0]) + TraceCount(fields[1..])
  }

  function Indicator(b: bool): nat {
    if b then 1 else 0
  }

  lemma {:induction false} RowTraceCountUpdate(row: seq<Field>, x: nat, f: Field)
    requires x < |row|
    ensures RowTraceCount(row[x := f]) + Indicator(row[x].smallestTrace.Some?)
         == RowTraceCount(row) + Indicator(f.smallestTrace.Some?)
    decreases x
  {
    if x > 0 {
      assert row[x := f][1..] == row[1..][x - 1 := f];
      RowTraceCountUpdate(row[1..], x - 1, f);
    }
  }

  lemma {:induction false} TraceCountUpdate(fields: seq<seq<Field>>, y: nat, row: seq<Field>)
    requires y < |fields|
    ensures TraceCount(fields[y := row]) + RowTraceCount(fields[y]) == TraceCount(fields) + RowTraceCount(row)
    ensures |fields[y]| == |row| ==> Size(fields[y := row]) == Size(fields)
    decreases y
  {
    if y > 0 {
      assert fields[y := row][1..] == fields[1..][y - 1 := row];
      TraceCountUpdate(fields[1..], y - 1, row);
    }
  }

  /**
   * Recording a trace adds one traced block exactly when the block had none, and keeps
   * the number of blocks.
   */
  lemma SetTraceCount(fields: seq<seq<Field>>, c: Coords, t: nat)
    requires InBounds(fields, c)
    ensures TraceCount(SetTrace(fields, c, t)) == TraceCount(fields) + Indicator(fields[c.y][c.x].smallestTrace.None?)
    ensures Size(SetTrace(fields, c, t)) == Size(fields)
  {
    var row := fields[c.y];
    var f := row[c.x].(smallestTrace := Some(t));
    RowTraceCountUpdate(row, c.x, f);
    TraceCountUpdate(fields, c.y, row[c.x := f]);
  }

  lemma {:induction false} SameTerrainSize(a: seq<seq<Field>>, b: seq<seq<Field>>)
    requires SameTerrain(a, b)
    ensures Size(a) == Size(b)
    decreases |a|
  {
    if a != [] {
      SameTerrainSize(a[1..], b[1..]);
    }
  }

  /** A freshly parsed map carries no trace. */
  lemma {:induction false} NoTracesCount(fields: seq<seq<Field>>)
    requires forall y, x :: 0 <= y < |fields| && 0 <= x < |fields[y]| ==> fields[y][x].smallestTrace.None?
    ensures TraceCount(fields) == 0
    decreases |fields|
  {
    if fields != [] {
      NoTracesRowCount(fields[0]);
      NoTracesCount(fields[1..]);
    }
  }

  lemma {:induction false} NoTracesRowCount(row: seq<Field>)
    requires forall x :: 0 <= x < |row| ==> row[x].smallestTrace.None?
    ensures RowTraceCount(row) == 0
    decreases |row|
  {
    if row != [] {
      NoTracesRowCount(row[1..]);
    }
  }

  /** `Map::parse` yields a map without any trace, with one heat loss per digit. */
  lemma ParsedMapIsFresh(s: string)
    requires IsDigitGrid(s)
    ensures TraceCount(ParseFields(s)) == 0
    ensures TracesAtMost(ParseFields(s), 0) && TracesCoverOwnHeat(ParseFields(s))
    ensures HeatsAtMostNine(ParseFields(s))
    ensures forall y, x :: 0 <= y < |Lines(s)| && 0 <= x < |Lines(s)[y]| ==>
      InBounds(ParseFields(s), Coords(x, y)) && ParseFields(s)[y][x].heatLoss == DigitValue(Lines(s)[y][x])
  {
    NoTracesCount(ParseFields(s));
  }

  /** `Map`: the fields are updated in place as traces are left on them. */
  class Map {
    var fields: seq<seq<Field>>

    constructor Parse(s: string)
      requires IsDigitGrid(s)
      ensures fields == ParseFields(s)
    {
      fields := ParseFields(s);
    }

    /** `Map::get_field`: None exactly when the row or the column is out of range. */
    function GetField(c: Coords): (r: Option<Field>)
      reads this
      ensures r.Some? <==> InBounds(fields, c)
      ensures r.Some? ==> r.value == fields[c.y][c.x]
    {
      if c.y < |fields| && c.x < |fields[c.y]| then Some(fields[c.y][c.x]) else None
    }

    /** `Map::width`: the length of the first row (it panics on an empty map). */
    function Width(): nat
      reads this
      requires |fields| > 0
    {
      |fields[0]|
    }

    /** `Map::height`: the number of rows. */
    function Height(): nat
      reads this
    {
      |fields|
    }

    /**
     * `Field::new_smallest_trace` on the block at `c`: Err, with nothing changed, exactly
     * when the block already has a strictly smaller trace; otherwise the trace becomes `t`.
     */
    method NewSmallestTrace(c: Coords, t: nat) returns (r: Result<(), Unit>)
      requires InBounds(fields, c)
      modifies this
      ensures r.Ok? <==> AcceptsTrace(old(fields)[c.y][c.x].smallestTrace, t)
      ensures r.Ok? ==> fields == SetTrace(old(fields), c, t)
      ensures r.Err? ==> fields == old(fields)
    {
      var field := fields[c.y][c.x];
      if field.smallestTrace.Some? {
        if t > field.smallestTrace.value {
          return Err(Unit);
        }
      }
      fields := fields[c.y := fields[c.y][c.x := field.(smallestTrace := Some(t))]];
      r := Ok(());
    }
  }

  /** On a non-empty rectangular map the bottom-right block `(width-1, height-1)` exists. */
  lemma BottomRightInBounds(fields: seq<seq<Field>>)
    requires |fields| > 0 && |fields[0]| > 0
    requires forall y :: 0 <= y < |fields| ==> |fields[y]| == |fields[0]|
    ensures InBounds(fields, Coords(|fields[0]| - 1, |fields| - 1))
  {
  }
}
