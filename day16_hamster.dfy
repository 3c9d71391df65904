/**
 * Day 16, the beam ("quantum hamster"): a position and a facing. Walking marks the tile
 * it leaves and the tile it enters, and a beam dies where a mark is already present.
 */
module Day16Hamster {
  import opened Wrappers
  import opened Grid
  import opened GridSum
  import opened Day16Map
  import opened Day16Direction

  datatype QuantumHamster = QuantumHamster(position: Coords, direction: Direction)

  /** `QuantumHamster::new`. */
  function New(position: Coords, direction: Direction): QuantumHamster {
    QuantumHamster(position, direction)
  }

  /**
   * `QuantumHamster::reorient`: the hamster turns to the first direction the tile under it
   * sends it, and a second hamster at the same position takes the second direction, if any.
   * The tile must be on the map (the source unwraps it).
   */
  function Reorient(fields: seq<seq<Field>>, h: QuantumHamster): (r: (QuantumHamster, Option<QuantumHamster>))
    requires InBounds(fields, h.position)
    ensures r.0 == h.(direction := Follow(h.direction, fields[h.position.y][h.position.x].shape).0)
    ensures r.1.Some? <==> SplitsSideOn(h.direction, fields[h.position.y][h.position.x].shape)
    ensures r.1.Some? ==> r.1.value.position == h.position && r.1.value.direction != r.0.direction
    ensures r.1.Some? ==> !SplitsSideOn(r.1.value.direction, fields[h.position.y][h.position.x].shape)
    ensures !SplitsSideOn(r.0.direction, fields[h.position.y][h.position.x].shape)
  {
    var shape := fields[h.position.y][h.position.x].shape;
    var (a, b) := Follow(h.direction, shape);
    SecondBeamIffSideOnSplitter(h.direction, shape);
    SplitBeamsDoNotSplitAgain(h.direction, shape);
    (h.(direction := a), if b.Some? then Some(New(h.position, b.value)) else None)
  }

  /**
   * The specification of `walk`. The hamster marks its tile with its facing (dying if that
   * mark was there), steps (dying off the map), and marks the new tile with the opposite
   * facing (dying if that mark was there). Marks made before dying stay.
   */
  function WalkSpec(fields: seq<seq<Field>>, h: QuantumHamster): (r: (Option<QuantumHamster>, seq<seq<Field>>))
    requires InBounds(fields, h.position)
  {
    var pos := h.position;
    if WasTraversed(fields[pos.y][pos.x].traversed, h.direction) then (None, fields)
    else
      var marked := SetFlag(fields, pos, h.direction);
      match MoveIntoDirection(pos, h.direction)
      case None => (None, marked)
      case Some(next) =>
        if !InBounds(marked, next) then (None, marked)
        else if WasTraversed(marked[next.y][next.x].traversed, Opposite(h.direction)) then (None, marked)
        else (Some(h.(position := next)), SetFlag(marked, next, Opposite(h.direction)))
  }

  /**
   * What a walk does: it dies exactly on an old mark under it, at the edge, or on an old
   * opposite mark ahead; a survivor stands one step on, on the map, with its facing kept.
   * Shapes and earlier marks are kept, and the walk leaves its own mark behind whenever that
   * mark was new, so a successful walk sets two new flags and any walk sets no fewer than none.
   */
  lemma WalkEffect(fields: seq<seq<Field>>, h: QuantumHamster)
    requires InBounds(fields, h.position)
    ensures var r := WalkSpec(fields, h);
      var pos := h.position;
      var next := MoveIntoDirection(pos, h.direction);
      (r.0.Some? <==>
        !WasTraversed(fields[pos.y][pos.x].traversed, h.direction) && next.Some? && InBounds(fields, next.value) &&
        !WasTraversed(fields[next.value.y][next.value.x].traversed, Opposite(h.direction))) &&
      (r.0.Some? ==> r.0.value == h.(position := next.value) && InBounds(r.1, r.0.value.position)) &&
      SameShapes(r.1, fields) && FlagsKept(r.1, fields) &&
      WasTraversed(r.1[pos.y][pos.x].traversed, h.direction) &&
      Unset(r.1) <= Unset(fields) &&
      (r.0.Some? ==> Unset(r.1) + 2 == Unset(fields)) &&
      (!WasTraversed(fields[pos.y][pos.x].traversed, h.direction) ==> Unset(r.1) < Unset(fields))
  {
    var pos := h.position;
    if !WasTraversed(fields[pos.y][pos.x].traversed, h.direction) {
      var marked := SetFlag(fields, pos, h.direction);
      SetFlagEffect(fields, pos, h.direction);
      var next := MoveIntoDirection(pos, h.direction);
      if next.Some? && InBounds(marked, next.value) {
        var n := next.value;
        assert n != pos by { DistanceOfMove(pos, h.direction); }
        assert marked[n.y][n.x] == fields[n.y][n.x];
        if !WasTraversed(marked[n.y][n.x].traversed, Opposite(h.direction)) {
          SetFlagEffect(marked, n, Opposite(h.direction));
          SameShapesTransitive(SetFlag(marked, n, Opposite(h.direction)), marked, fields);
        }
      }
    }
  }

  /** A step lands on another tile. */
  lemma DistanceOfMove(c: Coords, d: Direction)
    ensures MoveIntoDirection(c, d).Some? ==> MoveIntoDirection(c, d).value != c
  {
  }

  /** `QuantumHamster::walk`, marking the map's tiles in place. */
  method Walk(h: QuantumHamster, city: Map) returns (r: Option<QuantumHamster>)
    requires InBounds(city.fields, h.position)
    modifies city
    ensures (r, city.fields) == WalkSpec(old(city.fields), h)
  {
    var ok := city.Traverse(h.position, h.direction);
    if ok.Err? {
      return None;
    }
    var next := MoveIntoDirection(h.position, h.direction);
    if next.None? {
      return None;
    }
    var nextField := city.GetField(next.value);
    if nextField.None? {
      return None;
    }
    ok := city.Traverse(next.value, Opposite(h.direction));
    if ok.Err? {
      return None;
    }
    r := Some(h.(position := next.value));
  }
}
