/**
 * Day 17, the crucible ("quantum hamster"): a walker with a position, a facing, the number
 * of straight steps taken since its last turn and the heat it has accumulated.
 */
module Day17Hamster {
  import opened Wrappers
  import opened Grid
  import opened Day17Map

  datatype QuantumHamster = QuantumHamster(
    position: Coords,
    direction: Direction,
    numStraightWalks: nat,
    heatTrace: nat)

  /** `QuantumHamster::MAX_STRAIGHT_WALKS`. */
  const MaxStraightWalks: nat := 3

  /** `PartialEq`: two hamsters are equal when their heat traces are. */
  predicate SameHeat(a: QuantumHamster, b: QuantumHamster) {
    a.heatTrace == b.heatTrace
  }

  /** `Ord`, reversed on heat: `a < b` when `a` has lost more heat than `b`. */
  predicate Less(a: QuantumHamster, b: QuantumHamster) {
    b.heatTrace < a.heatTrace
  }

  /**
   * The reversed order is a strict total order up to `SameHeat`, and its greatest elements
   * (what a max-heap pops) are the hamsters with the least heat.
   */
  lemma OrderIsReversedHeat(a: QuantumHamster, b: QuantumHamster, c: QuantumHamster)
    ensures Less(a, b) <==> a.heatTrace > b.heatTrace
    ensures !Less(a, b) && !Less(b, a) <==> SameHeat(a, b)
    ensures Less(a, b) && Less(b, c) ==> Less(a, c)
    ensures !Less(a, a)
  {
  }

  /** `QuantumHamster::new`. */
  function New(position: Coords, direction: Direction): QuantumHamster {
    QuantumHamster(position, direction, 0, 0)
  }

  /** `QuantumHamster::superposition`: the same hamster turned to `d`, its straight count reset. */
  function Superposition(h: QuantumHamster, d: Direction): QuantumHamster {
    h.(direction := d, numStraightWalks := 0)
  }

  /**
   * `QuantumHamster::reorient`: one copy turned left and one turned right, both with a
   * fresh straight count, and the hamster itself while it may still go straight on.
   * No result ever faces back where the hamster came from.
   */
  function Reorient(h: QuantumHamster): (r: (QuantumHamster, QuantumHamster, Option<QuantumHamster>))
    ensures r.0.direction == TurnLeft(h.direction) && r.1.direction == TurnRight(h.direction)
    ensures r.0.position == h.position && r.1.position == h.position
    ensures r.0.heatTrace == h.heatTrace && r.1.heatTrace == h.heatTrace
    ensures r.0.numStraightWalks == 0 && r.1.numStraightWalks == 0
    ensures r.2.Some? <==> h.numStraightWalks < MaxStraightWalks
    ensures r.2.Some? ==> r.2.value == h
    ensures r.0.direction != Opposite(h.direction) && r.1.direction != Opposite(h.direction)
    ensures r.0.direction != r.1.direction
  {
    var a := Superposition(h, TurnLeft(h.direction));
    var b := Superposition(h, TurnRight(h.direction));
    var c := if h.numStraightWalks < MaxStraightWalks then Some(h) else None;
    (a, b, c)
  }

  /**
   * The specification of `take_heat_and_leave_trace`: off the map the hamster is gone;
   * otherwise it adds the block's heat loss and leaves that total as the block's trace,
   * and is gone if the block refuses the trace.
   */
  function TakeHeatSpec(fields: seq<seq<Field>>, h: QuantumHamster): (r: (Option<QuantumHamster>, seq<seq<Field>>))
    ensures !InBounds(fields, h.position) ==> r == (None, fields)
    ensures InBounds(fields, h.position) ==>
      var f := fields[h.position.y][h.position.x];
      var heat := h.heatTrace + f.heatLoss;
      (r.0.Some? <==> AcceptsTrace(f.smallestTrace, heat)) &&
      (r.0.Some? ==> r.0.value == h.(heatTrace := heat) && r.1 == SetTrace(fields, h.position, heat)) &&
      (r.0.None? ==> r.1 == fields)
  {
    if !InBounds(fields, h.position) then (None, fields)
    else
      var f := fields[h.position.y][h.position.x];
      var heat := h.heatTrace + f.heatLoss;
      if AcceptsTrace(f.smallestTrace, heat) then (Some(h.(heatTrace := heat)), SetTrace(fields, h.position, heat))
      else (None, fields)
  }

  /**
   * The specification of `walk`: take heat and leave the trace, then step one block in
   * the facing direction; gone off the map, on a refused trace or at the top/left edge.
   * A surviving hamster keeps its facing, counts one more straight step and carries the
   * heat of the block it left.
   */
  function WalkSpec(fields: seq<seq<Field>>, h: QuantumHamster): (r: (Option<QuantumHamster>, seq<seq<Field>>))
    ensures r.0.Some? <==>
      InBounds(fields, h.position) &&
      AcceptsTrace(fields[h.position.y][h.position.x].smallestTrace,
                   h.heatTrace + fields[h.position.y][h.position.x].heatLoss) &&
      MoveIntoDirection(h.position, h.direction).Some?
    ensures r.0.Some? ==>
      r.0.value.position == MoveIntoDirection(h.position, h.direction).value &&
      r.0.value.direction == h.direction &&
      r.0.value.numStraightWalks == h.numStraightWalks + 1 &&
      r.0.value.heatTrace == h.heatTrace + fields[h.position.y][h.position.x].heatLoss
    ensures r.1 == TakeHeatSpec(fields, h).1
  {
    match TakeHeatSpec(fields, h).0
    case None => (None, TakeHeatSpec(fields, h).1)
    case Some(g) =>
      match MoveIntoDirection(g.position, g.direction)
      case None => (None, TakeHeatSpec(fields, h).1)
      case Some(next) => (Some(g.(position := next, numStraightWalks := g.numStraightWalks + 1)), TakeHeatSpec(fields, h).1)
  }

  /**
   * A walk only ever lowers or adds traces, and the trace it leaves is the hamster's new
   * heat: never below the block's own heat loss, and at most nine more than before.
   */
  lemma WalkNeverRaisesTraces(fields: seq<seq<Field>>, h: QuantumHamster)
    requires TracesCoverOwnHeat(fields)
    ensures SameTerrain(WalkSpec(fields, h).1, fields)
    ensures NoLargerTraces(WalkSpec(fields, h).1, fields)
    ensures TracesCoverOwnHeat(WalkSpec(fields, h).1)
  {
    if InBounds(fields, h.position) {
      var f := fields[h.position.y][h.position.x];
      var heat := h.heatTrace + f.heatLoss;
      if AcceptsTrace(f.smallestTrace, heat) {
        SetTraceNeverIncreases(fields, h.position, heat);
      }
    }
  }

  /**
   * The bound that drives termination: if every trace, and the walking hamster's heat,
   * are at most nine per traced block, that stays so after the walk, and a surviving
   * hamster's heat obeys it too (heat losses are single digits).
   */
  lemma WalkKeepsHeatBound(fields: seq<seq<Field>>, h: QuantumHamster)
    requires HeatsAtMostNine(fields)
    requires TracesAtMost(fields, 9 * TraceCount(fields))
    requires h.heatTrace <= 9 * TraceCount(fields)
    ensures TraceCount(fields) <= TraceCount(WalkSpec(fields, h).1)
    ensures TracesAtMost(WalkSpec(fields, h).1, 9 * TraceCount(WalkSpec(fields, h).1))
    ensures WalkSpec(fields, h).0.Some? ==> WalkSpec(fields, h).0.value.heatTrace <= 9 * TraceCount(WalkSpec(fields, h).1)
  {
    if InBounds(fields, h.position) {
      var f := fields[h.position.y][h.position.x];
      var heat := h.heatTrace + f.heatLoss;
      if AcceptsTrace(f.smallestTrace, heat) {
        var after := SetTrace(fields, h.position, heat);
        SetTraceCount(fields, h.position, heat);
        SetTraceNeverIncreases(fields, h.position, heat);
        if f.smallestTrace.Some? {
          assert heat <= 9 * TraceCount(fields);
        } else {
          assert TraceCount(after) == TraceCount(fields) + 1;
          assert heat <= 9 * TraceCount(after);
        }
        assert TracesAtMost(after, 9 * TraceCount(after)) by {
          forall y, x | 0 <= y < |after| && 0 <= x < |after[y]| && after[y][x].smallestTrace.Some?
            ensures after[y][x].smallestTrace.value <= 9 * TraceCount(after)
          {
            if (y, x) != (h.position.y, h.position.x) {
              assert after[y][x] == fields[y][x];
            }
          }
        }
      }
    }
  }

  /** `take_heat_and_leave_trace`, updating the map's block in place. */
  method TakeHeatAndLeaveTrace(h: QuantumHamster, city: Map) returns (r: Option<QuantumHamster>)
    modifies city
    ensures (r, city.fields) == TakeHeatSpec(old(city.fields), h)
  {
    var field := city.GetField(h.position);
    if field.None? {
      return None;
    }
    var heat := h.heatTrace + field.value.heatLoss;
    var ok := city.NewSmallestTrace(h.position, heat);
    if ok.Err? {
      return None;
    }
    r := Some(h.(heatTrace := heat));
  }

  /** `QuantumHamster::walk`. */
  method Walk(h: QuantumHamster, city: Map) returns (r: Option<QuantumHamster>)
    modifies city
    ensures (r, city.fields) == WalkSpec(old(city.fields), h)
  {
    var g := TakeHeatAndLeaveTrace(h, city);
    if g.None? {
      return None;
    }
    var next := MoveIntoDirection(g.value.position, g.value.direction);
    if next.None? {
      return None;
    }
    r := Some(g.value.(position := next.value, numStraightWalks := g.value.numStraightWalks + 1));
  }
}
