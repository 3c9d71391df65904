/**
 * Day 16, the contraption: a grid of tiles (empty space, two mirrors, two splitters),
 * each remembering the directions in which beams have already crossed it.
 */
module Day16Map {
  import opened Wrappers
  import opened Text
  import opened Grid
  import opened GridSum

  datatype Shape = Empty | MirrorForward | MirrorBackward | SplitterHorizontal | SplitterVertical

  predicate IsShapeChar(c: char) {
    c == '.' || c == '/' || c == '\\' || c == '-' || c == '|'
  }

  /** `Shape::parse`: the five tile glyphs; any other char panics. */
  function ParseShape(c: char): (s: Shape)
    requires IsShapeChar(c)
    ensures ShapeChar(s) == c
  {
    match c
    case '.' => Empty
    case '/' => MirrorForward
    case '\\' => MirrorBackward
    case '-' => SplitterHorizontal
    case '|' => SplitterVertical
  }

  /** The glyph of a shape: the inverse of `ParseShape`. */
  function ShapeChar(s: Shape): (c: char)
    ensures IsShapeChar(c)
  {
    match s
    case Empty => '.'
    case MirrorForward => '/'
    case MirrorBackward => '\\'
    case SplitterHorizontal => '-'
    case SplitterVertical => '|'
  }

  lemma ShapeCharRoundTrip(s: Shape)
    ensures ParseShape(ShapeChar(s)) == s
  {
  }

  /** `Traversed`: one flag per direction in which a beam has crossed the tile. */
  datatype Traversed = Traversed(up: bool, down: bool, left: bool, right: bool)

  /** `Traversed::default`. */
  const NoneTraversed := Traversed(false, false, false, false)

  /** `Traversed::was_traversed`. */
  function WasTraversed(t: Traversed, d: Direction): bool {
    match d
    case Up => t.up
    case Down => t.down
    case Left => t.left
    case Right => t.right
  }

  /** `Traversed::traverse`: sets the flag of `d` and no other; flags are never cleared. */
  function SetTraversed(t: Traversed, d: Direction): (r: Traversed)
    ensures WasTraversed(r, d)
    ensures forall e :: e != d ==> WasTraversed(r, e) == WasTraversed(t, e)
    ensures forall e :: WasTraversed(t, e) ==> WasTraversed(r, e)
  {
    match d
    case Up => t.(up := true)
    case Down => t.(down := true)
    case Left => t.(left := true)
    case Right => t.(right := true)
  }

  /** `Traversed::was_visited`: some flag is set. */
  function WasVisited(t: Traversed): (b: bool)
    ensures b <==> exists d :: WasTraversed(t, d)
  {
    assert t.up ==> WasTraversed(t, Up);
    assert t.down ==> WasTraversed(t, Down);
    assert t.left ==> WasTraversed(t, Left);
    assert t.right ==> WasTraversed(t, Right);
    t.up || t.down || t.left || t.right
  }

  datatype Field = Field(shape: Shape, traversed: Traversed)

  /** `Field::parse`: the tile's shape, not yet traversed (so not visited). */
  function ParseField(c: char): (f: Field)
    requires IsShapeChar(c)
    ensures !WasVisited(f.traversed) && ShapeChar(f.shape) == c
  {
    Field(ParseShape(c), NoneTraversed)
  }

  /** Every char of every line is a tile glyph: `Map::parse` panics otherwise. */
  predicate IsShapeGrid(s: string) {
    var ls := Lines(s);
    forall y, x :: 0 <= y < |ls| && 0 <= x < |ls[y]| ==> IsShapeChar(ls[y][x])
  }

  /** `Map::parse`: one row of fields per line. */
  function ParseFields(s: string): (fields: seq<seq<Field>>)
    requires IsShapeGrid(s)
    ensures |fields| == |Lines(s)|
    ensures forall y :: 0 <= y < |fields| ==> |fields[y]| == |Lines(s)[y]|
    ensures forall y, x :: 0 <= y < |fields| && 0 <= x < |fields[y]| ==>
      ShapeChar(fields[y][x].shape) == Lines(s)[y][x] && fields[y][x].traversed == NoneTraversed
  {
    var ls := Lines(s);
    seq(|ls|, y requires 0 <= y < |ls| =>
      seq(|ls[y]|, x requires 0 <= x < |ls[y]| => ParseField(ls[y][x])))
  }

  predicate InBounds(fields: seq<seq<Field>>, c: Coords) {
    c.y < |fields| && c.x < |fields[c.y]|
  }

  /** The fields after the tile at `c` has been traversed in direction `d`. */
  function SetFlag(fields: seq<seq<Field>>, c: Coords, d: Direction): seq<seq<Field>>
    requires InBounds(fields, c)
  {
    fields[c.y := fields[c.y][c.x := fields[c.y][c.x].(traversed := SetTraversed(fields[c.y][c.x].traversed, d))]]
  }

  /** The number of flags still unset on a tile. */
  function UnsetOnField(f: Field): nat {
    (if f.traversed.up then 0 else 1) + (if f.traversed.down then 0 else 1) +
    (if f.traversed.left then 0 else 1) + (if f.traversed.right then 0 else 1)
  }

  /** The number of flags still unset on the map: what the beams have left to traverse. */
  function Unset(fields: seq<seq<Field>>): nat {
    Sum(fields, UnsetOnField)
  }

  function VisitedIndicator(f: Field): nat {
    if WasVisited(f.traversed) then 1 else 0
  }

  /** Same shapes everywhere: the flags are the only thing that may differ. */
  predicate SameShapes(a: seq<seq<Field>>, b: seq<seq<Field>>) {
    |a| == |b| &&
    (forall y :: 0 <= y < |a| ==> |a[y]| == |b[y]|) &&
    (forall y, x :: 0 <= y < |a| && 0 <= x < |a[y]| && x < |b[y]| ==> a[y][x].shape == b[y][x].shape)
  }

  /** Every flag set in `before` is set in `after`. */
  predicate FlagsKept(after: seq<seq<Field>>, before: seq<seq<Field>>)
    requires SameShapes(after, before)
  {
    forall y, x, d :: 0 <= y < |before| && 0 <= x < |before[y]| && WasTraversed(before[y][x].traversed, d) ==>
      WasTraversed(after[y][x].traversed, d)
  }

  lemma SameShapesTransitive(a: seq<seq<Field>>, b: seq<seq<Field>>, c: seq<seq<Field>>)
    requires SameShapes(a, b) && SameShapes(b, c)
    ensures SameShapes(a, c)
    ensures FlagsKept(a, b) && FlagsKept(b, c) ==> FlagsKept(a, c)
  {
  }

  /**
   * Setting a flag keeps the shapes and every other flag, and lowers the number of unset
   * flags by one exactly when the flag was not yet set.
   */
  lemma SetFlagEffect(fields: seq<seq<Field>>, c: Coords, d: Direction)
    requires InBounds(fields, c)
    ensures SameShapes(SetFlag(fields, c, d), fields)
    ensures FlagsKept(SetFlag(fields, c, d), fields)
    ensures WasTraversed(SetFlag(fields, c, d)[c.y][c.x].traversed, d)
    ensures Unset(SetFlag(fields, c, d)) + (if WasTraversed(fields[c.y][c.x].traversed, d) then 0 else 1) == Unset(fields)
    ensures Cells(SetFlag(fields, c, d)) == Cells(fields)
  {
    var f := fields[c.y][c.x];
    SumUpdate(fields, c.y, c.x, f.(traversed := SetTraversed(f.traversed, d)), UnsetOnField);
  }

  /** `Map::num_visited_fields`. */
  function NumVisited(fields: seq<seq<Field>>): nat {
    Sum(fields, VisitedIndicator)
  }

  /** At most every tile is visited. */
  lemma NumVisitedAtMostCells(fields: seq<seq<Field>>)
    ensures NumVisited(fields) <= Cells(fields)
  {
    SumBounded(fields, VisitedIndicator, 1);
  }

  /** A tile that has been traversed counts as visited. */
  lemma {:induction false} VisitedCounted(fields: seq<seq<Field>>, c: Coords, d: Direction)
    requires InBounds(fields, c) && WasTraversed(fields[c.y][c.x].traversed, d)
    ensures NumVisited(fields) >= 1
    decreases |fields|
  {
    if c.y == 0 {
      RowVisitedCounted(fields[0], c.x, d);
    } else {
      VisitedCounted(fields[1..], Coords(c.x, c.y - 1), d);
    }
  }

  lemma {:induction false} RowVisitedCounted(row: seq<Field>, x: nat, d: Direction)
    requires x < |row| && WasTraversed(row[x].traversed, d)
    ensures RowSum(row, VisitedIndicator) >= 1
    decreases x
  {
    if x > 0 {
      RowVisitedCounted(row[1..], x - 1, d);
    }
  }

  /** A freshly parsed map has every flag unset: four per tile. */
  lemma {:induction false} FreshUnset(fields: seq<seq<Field>>)
    requires forall y, x :: 0 <= y < |fields| && 0 <= x < |fields[y]| ==> fields[y][x].traversed == NoneTraversed
    ensures NumVisited(fields) == 0
    decreases |fields|
  {
    if fields != [] {
      FreshRowUnset(fields[0]);
      FreshUnset(fields[1..]);
    }
  }

  lemma {:induction false} FreshRowUnset(row: seq<Field>)
    requires forall x :: 0 <= x < |row| ==> row[x].traversed == NoneTraversed
    ensures RowSum(row, VisitedIndicator) == 0
    decreases |row|
  {
    if row != [] {
      FreshRowUnset(row[1..]);
    }
  }

  /** `Map`: the fields' flags are updated in place as beams cross them. */
  class Map {
    var fields: seq<seq<Field>>

    constructor Parse(s: string)
      requires IsShapeGrid(s)
      ensures fields == ParseFields(s)
    {
      fields := ParseFields(s);
    }

    /** `map.clone()`: an independent map with the same fields. */
    constructor Clone(other: seq<seq<Field>>)
      ensures fields == other
    {
      fields := other;
    }

    /** `Map::get_field`: None exactly when the row or the column is out of range. */
    function GetField(c: Coords): (r: Option<Field>)
      reads this
      ensures r.Some? <==> InBounds(fields, c)
      ensures r.Some? ==> r.value == fields[c.y][c.x]
    {
      if c.y < |fields| && c.x < |fields[c.y]| then Some(fields[c.y][c.x]) else None
    }

    /**
     * `Field::traverse` on the tile at `c`: Err, with nothing changed, when the tile was
     * already traversed in direction `d`; otherwise that flag is set.
     */
    method Traverse(c: Coords, d: Direction) returns (r: Result<(), Unit>)
      requires InBounds(fields, c)
      modifies this
      ensures r.Err? <==> WasTraversed(old(fields)[c.y][c.x].traversed, d)
      ensures r.Err? ==> fields == old(fields)
      ensures r.Ok? ==> fields == SetFlag(old(fields), c, d)
    {
      var field := fields[c.y][c.x];
      if WasTraversed(field.traversed, d) {
        return Err(Unit);
      }
      fields := fields[c.y := fields[c.y][c.x := field.(traversed := SetTraversed(field.traversed, d))]];
      r := Ok(());
    }
  }
}
