/**
 * Day 16, part one: fire a beam into the contraption and count the energised tiles. A
 * stack holds the beams still to trace; each popped beam reorients and walks until it
 * dies, pushing the second beam of every side-on splitter it meets.
 */
module Day16Part1 {
  import opened Wrappers
  import opened Grid
  import opened GridSum
  import opened Day16Map
  import opened Day16Direction
  import opened Day16Hamster

  /** Every beam waiting on the stack stands on the map. */
  predicate AllOnMap(fields: seq<seq<Field>>, stack: seq<QuantumHamster>) {
    forall i :: 0 <= i < |stack| ==> InBounds(fields, stack[i].position)
  }

  /** 2 for a beam that will split where it stands, 1 otherwise. */
  function Weight(fields: seq<seq<Field>>, h: QuantumHamster): nat {
    if InBounds(fields, h.position) && SplitsSideOn(h.direction, fields[h.position.y][h.position.x].shape) then 2 else 1
  }

  /** The stack's share of the termination measure. */
  function StackWeight(fields: seq<seq<Field>>, stack: seq<QuantumHamster>): nat {
    if stack == [] then 0 else StackWeight(fields, stack[..|stack| - 1]) + Weight(fields, stack[|stack| - 1])
  }

  /** Weights only look at shapes, which marking never changes. */
  lemma {:induction false} StackWeightSameShapes(a: seq<seq<Field>>, b: seq<seq<Field>>, stack: seq<QuantumHamster>)
    requires SameShapes(a, b)
    ensures StackWeight(a, stack) == StackWeight(b, stack)
    decreases |stack|
  {
    if stack != [] {
      StackWeightSameShapes(a, b, stack[..|stack| - 1]);
    }
  }

  function Pushed(stack: seq<QuantumHamster>, h: Option<QuantumHamster>): seq<QuantumHamster> {
    if h.Some? then stack + [h.value] else stack
  }

  /**
   * The specification of `fire_hamster`'s two loops as one recursion: `walker` is the beam
   * the inner loop is walking, if any. With no walker the last beam on the stack is popped
   * and reoriented; a walker walks, and on surviving reorients and pushes its second beam.
   * The result is the map once the stack is empty. It terminates because every pop lowers
   * the stack's weight, and every walk either dies or sets two new flags.
   */
  function Beam(fields: seq<seq<Field>>, stack: seq<QuantumHamster>, walker: Option<QuantumHamster>): seq<seq<Field>>
    requires AllOnMap(fields, stack)
    requires walker.Some? ==> InBounds(fields, walker.value.position)
    decreases Unset(fields), StackWeight(fields, stack), if walker.Some? then 1 else 0
  {
    match walker
    case None =>
      if stack == [] then fields
      else
        var h := stack[|stack| - 1];
        var (turned, split) := Reorient(fields, h);
        assert StackWeight(fields, Pushed(stack[..|stack| - 1], split)) < StackWeight(fields, stack);
        Beam(fields, Pushed(stack[..|stack| - 1], split), Some(turned))
    case Some(h) =>
      WalkMeasure(fields, stack, h);
      var (next, marked) := WalkSpec(fields, h);
      if next.None? then Beam(marked, stack, None)
      else
        var (turned, split) := Reorient(marked, next.value);
        Beam(marked, Pushed(stack, split), Some(turned))
  }

  /** A walk keeps the stack on the map and its weight, and a survivor costs two flags. */
  lemma WalkMeasure(fields: seq<seq<Field>>, stack: seq<QuantumHamster>, h: QuantumHamster)
    requires AllOnMap(fields, stack) && InBounds(fields, h.position)
    ensures var (next, marked) := WalkSpec(fields, h);
      AllOnMap(marked, stack) && (next.Some? ==> InBounds(marked, next.value.position)) &&
      StackWeight(marked, stack) == StackWeight(fields, stack) &&
      Unset(marked) <= Unset(fields) && (next.Some? ==> Unset(marked) < Unset(fields))
  {
    WalkEffect(fields, h);
    var (next, marked) := WalkSpec(fields, h);
    StackWeightSameShapes(marked, fields, stack);
  }

  /**
   * The state right after a walk returned `w` traces out to `target`: with no survivor the
   * stack is popped next, a survivor is reorienting and walks on.
   */
  predicate Leads(fields: seq<seq<Field>>, stack: seq<QuantumHamster>, w: Option<QuantumHamster>, target: seq<seq<Field>>)
    requires AllOnMap(fields, stack)
    requires w.Some? ==> InBounds(fields, w.value.position)
  {
    (w.None? ==> Beam(fields, stack, None) == target) &&
    (w.Some? ==> var t := Reorient(fields, w.value); Beam(fields, Pushed(stack, t.1), Some(t.0)) == target)
  }

  /** One walk of the beam `h` is one unfolding of `Beam`. */
  lemma WalkLeads(fields: seq<seq<Field>>, stack: seq<QuantumHamster>, h: QuantumHamster)
    requires AllOnMap(fields, stack) && InBounds(fields, h.position)
    ensures var (next, marked) := WalkSpec(fields, h);
      AllOnMap(marked, stack) && (next.Some? ==> InBounds(marked, next.value.position)) &&
      Leads(marked, stack, next, Beam(fields, stack, Some(h)))
  {
    WalkEffect(fields, h);
    var (next, marked) := WalkSpec(fields, h);
    StackWeightSameShapes(marked, fields, stack);
  }

  /**
   * Tracing beams keeps every shape and every mark, and leaves the mark of a walker on its
   * own tile.
   */
  lemma {:induction false} BeamKeepsMarks(fields: seq<seq<Field>>, stack: seq<QuantumHamster>, walker: Option<QuantumHamster>)
    requires AllOnMap(fields, stack)
    requires walker.Some? ==> InBounds(fields, walker.value.position)
    ensures SameShapes(Beam(fields, stack, walker), fields)
    ensures FlagsKept(Beam(fields, stack, walker), fields)
    ensures walker.Some? ==> WasVisited(Beam(fields, stack, walker)[walker.value.position.y][walker.value.position.x].traversed)
    decreases Unset(fields), StackWeight(fields, stack), if walker.Some? then 1 else 0, 1
  {
    match walker
    case None =>
      if stack != [] {
        var h := stack[|stack| - 1];
        var (turned, split) := Reorient(fields, h);
        BeamKeepsMarks(fields, Pushed(stack[..|stack| - 1], split), Some(turned));
      }
    case Some(h) =>
      WalkKeepsMarks(fields, stack, h);
  }

  /** The walking half of `BeamKeepsMarks`: the walker's first mark is its own tile's. */
  lemma {:induction false} WalkKeepsMarks(fields: seq<seq<Field>>, stack: seq<QuantumHamster>, h: QuantumHamster)
    requires AllOnMap(fields, stack) && InBounds(fields, h.position)
    ensures SameShapes(Beam(fields, stack, Some(h)), fields)
    ensures FlagsKept(Beam(fields, stack, Some(h)), fields)
    ensures WasTraversed(Beam(fields, stack, Some(h))[h.position.y][h.position.x].traversed, h.direction)
    decreases Unset(fields), StackWeight(fields, stack), 1, 0
  {
    WalkLeads(fields, stack, h);
    WalkEffect(fields, h);
    var (next, marked) := WalkSpec(fields, h);
    var final := Beam(fields, stack, Some(h));
    if next.None? {
      BeamKeepsMarks(marked, stack, None);
    } else {
      var (turned, split) := Reorient(marked, next.value);
      BeamKeepsMarks(marked, Pushed(stack, split), Some(turned));
    }
    SameShapesTransitive(final, marked, fields);
  }

  /** Every beam starts on a map whose marks are the walked ones: the final count lies in 1..tiles. */
  lemma FiredCountBounds(fields: seq<seq<Field>>, h: QuantumHamster)
    requires InBounds(fields, h.position)
    ensures 1 <= NumVisited(Beam(fields, [h], None)) <= Cells(fields)
  {
    var (turned, split) := Reorient(fields, h);
    assert Beam(fields, [h], None) == Beam(fields, Pushed([], split), Some(turned));
    BeamKeepsMarks(fields, Pushed([], split), Some(turned));
    var final: seq<seq<Field>> := Beam(fields, [h], None);
    assert WasVisited(final[h.position.y][h.position.x].traversed);
    var d :| WasTraversed(final[h.position.y][h.position.x].traversed, d);
    VisitedCounted(final, h.position, d);
    NumVisitedAtMostCells(final);
    SameShapesCells(final, fields);
  }

  /** Maps with the same row lengths have the same number of tiles. */
  lemma {:induction false} SameShapesCells(a: seq<seq<Field>>, b: seq<seq<Field>>)
    requires SameShapes(a, b)
    ensures Cells(a) == Cells(b)
    decreases |a|
  {
    if a != [] {
      SameShapesCells(a[1..], b[1..]);
    }
  }

  /** One walk of the inner loop of `fire_hamster`, over the stack it leaves behind. */
  method WalkStep(city: Map, stack: seq<QuantumHamster>, h: QuantumHamster) returns (same: Option<QuantumHamster>)
    requires AllOnMap(city.fields, stack) && InBounds(city.fields, h.position)
    modifies city
    ensures AllOnMap(city.fields, stack) && (same.Some? ==> InBounds(city.fields, same.value.position))
    ensures Leads(city.fields, stack, same, Beam(old(city.fields), stack, Some(h)))
    ensures SameShapes(city.fields, old(city.fields))
    ensures Unset(city.fields) + (if same.Some? then 2 else 0) <= old(Unset(city.fields))
  {
    WalkLeads(city.fields, stack, h);
    WalkEffect(city.fields, h);
    same := Walk(h, city);
  }

  /**
   * The inner loop of `fire_hamster`: walk `h` until it dies, reorienting after each step
   * and pushing every second beam. Each step sets two new flags; a beam that dies at once
   * leaves the stack as it was.
   */
  method WalkOn(city: Map, stack: seq<QuantumHamster>, h: QuantumHamster) returns (rest: seq<QuantumHamster>, ghost steps: nat)
    requires AllOnMap(city.fields, stack) && InBounds(city.fields, h.position)
    modifies city
    ensures AllOnMap(city.fields, rest)
    ensures Beam(city.fields, rest, None) == Beam(old(city.fields), stack, Some(h))
    ensures SameShapes(city.fields, old(city.fields))
    ensures 2 * steps + Unset(city.fields) <= old(Unset(city.fields))
    ensures steps == 0 ==> rest == stack
  {
    ghost var start := city.fields;
    ghost var target := Beam(start, stack, Some(h));
    var same := WalkStep(city, stack, h);
    rest := stack;
    steps := 0;
    while same.Some?
      invariant AllOnMap(city.fields, rest)
      invariant same.Some? ==> InBounds(city.fields, same.value.position)
      invariant Leads(city.fields, rest, same, target)
      invariant SameShapes(city.fields, start)
      invariant 2 * steps + Unset(city.fields) + (if same.Some? then 2 else 0) <= Unset(start)
      invariant steps == 0 ==> rest == stack
      decreases Unset(city.fields) + (if same.Some? then 1 else 0)
    {
      steps := steps + 1;
      var (turned, split) := Reorient(city.fields, same.value);
      ghost var before := city.fields;
      rest := Pushed(rest, split);
      same := WalkStep(city, rest, turned);
      SameShapesTransitive(city.fields, before, start);
    }
  }

  /** One round of `fire_hamster`'s outer loop: pop a beam, reorient it and walk it out. */
  method PopAndTrace(city: Map, stack: seq<QuantumHamster>) returns (rest: seq<QuantumHamster>, ghost steps: nat)
    requires AllOnMap(city.fields, stack) && stack != []
    modifies city
    ensures AllOnMap(city.fields, rest)
    ensures Beam(city.fields, rest, None) == Beam(old(city.fields), stack, None)
    ensures 2 * steps + Unset(city.fields) <= old(Unset(city.fields))
    ensures Unset(city.fields) < old(Unset(city.fields)) ||
      StackWeight(city.fields, rest) < old(StackWeight(city.fields, stack))
  {
    var current := stack[|stack| - 1];
    var (turned, split) := Reorient(city.fields, current);
    var pushed := Pushed(stack[..|stack| - 1], split);
    assert StackWeight(city.fields, pushed) < StackWeight(city.fields, stack);
    ghost var before := city.fields;
    rest, steps := WalkOn(city, pushed, turned);
    StackWeightSameShapes(city.fields, before, pushed);
  }

  /**
   * `fire_hamster`: trace the beam and every beam it splits into, then count the visited
   * tiles of the map. The map is consumed (marked in place). Every successful walk sets two
   * new flags, so there are at most twice as many walks as tiles.
   */
  method FireHamster(city: Map, hamster: QuantumHamster) returns (count: nat, ghost walks: nat)
    requires InBounds(city.fields, hamster.position)
    modifies city
    ensures city.fields == Beam(old(city.fields), [hamster], None)
    ensures count == NumVisited(city.fields)
    ensures 1 <= count <= Cells(old(city.fields))
    ensures 2 * walks <= Unset(old(city.fields)) <= 4 * Cells(old(city.fields))
  {
    ghost var start := city.fields;
    FiredCountBounds(start, hamster);
    UnsetAtMostFour(start);
    walks := 0;
    var hamsters := [hamster];
    while hamsters != []
      invariant AllOnMap(city.fields, hamsters)
      invariant Beam(city.fields, hamsters, None) == Beam(start, [hamster], None)
      invariant 2 * walks + Unset(city.fields) <= Unset(start)
      decreases Unset(city.fields), StackWeight(city.fields, hamsters)
    {
      ghost var steps;
      hamsters, steps := PopAndTrace(city, hamsters);
      walks := walks + steps;
    }
    count := CountVisited(city);
  }

  /** Four flags per tile at most. */
  lemma UnsetAtMostFour(fields: seq<seq<Field>>)
    ensures Unset(fields) <= 4 * Cells(fields)
  {
    SumBounded(fields, UnsetOnField, 4);
  }

  /** `Map::num_visited_fields`, counting row by row. */
  method CountVisited(city: Map) returns (count: nat)
    ensures count == NumVisited(city.fields)
  {
    count := 0;
    var y := |city.fields|;
    while y > 0
      invariant 0 <= y <= |city.fields|
      invariant count == Sum(city.fields[y..], VisitedIndicator)
    {
      y := y - 1;
      var row := city.fields[y];
      var rowCount := 0;
      var x := |row|;
      while x > 0
        invariant 0 <= x <= |row|
        invariant rowCount == RowSum(row[x..], VisitedIndicator)
      {
        x := x - 1;
        assert row[x..][1..] == row[x + 1..];
        rowCount := rowCount + VisitedIndicator(row[x]);
      }
      assert row[0..] == row;
      assert city.fields[y..][1..] == city.fields[y + 1..];
      count := count + rowCount;
    }
    assert city.fields[0..] == city.fields;
  }

  /** `run`: the beam enters at the top-left tile heading right. */
  method Run(input: string) returns (count: nat)
    requires IsShapeGrid(input)
    requires |ParseFields(input)| > 0 && |ParseFields(input)[0]| > 0
    ensures count == NumVisited(Beam(ParseFields(input), [New(Coords(0, 0), Right)], None))
    ensures 1 <= count <= Cells(ParseFields(input))
  {
    var city := new Map.Parse(input);
    ghost var walks;
    count, walks := FireHamster(city, New(Coords(0, 0), Right));
  }
}
