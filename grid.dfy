/**
 * The four-direction grid vocabulary shared by the traversal days (10, 16, 17):
 * directions with their turns and opposites, and coordinates whose steps fail at the
 * top and left edges because they are unsigned.
 */
module Grid {
  import opened Wrappers

  datatype Direction = Up | Down | Left | Right

  /** `Direction::opposite` (day 16, day 10). */
  function Opposite(d: Direction): (r: Direction)
    ensures r != d
  {
    match d
    case Up => Down
    case Down => Up
    case Left => Right
    case Right => Left
  }

  /** `Direction::left` (day 17): a quarter turn to the left. */
  function TurnLeft(d: Direction): (r: Direction)
    ensures r != d && r != Opposite(d)
  {
    match d
    case Up => Left
    case Down => Right
    case Left => Down
    case Right => Up
  }

  /** `Direction::right` (day 17): a quarter turn to the right. */
  function TurnRight(d: Direction): (r: Direction)
    ensures r != d && r != Opposite(d) && r != TurnLeft(d)
  {
    match d
    case Up => Right
    case Down => Left
    case Left => Up
    case Right => Down
  }

  lemma OppositeInvolution(d: Direction)
    ensures Opposite(Opposite(d)) == d
  {
  }

  lemma TurnsAreInverse(d: Direction)
    ensures TurnLeft(TurnRight(d)) == d
    ensures TurnRight(TurnLeft(d)) == d
  {
  }

  lemma FourTurnsAreIdentity(d: Direction)
    ensures TurnLeft(TurnLeft(TurnLeft(TurnLeft(d)))) == d
    ensures TurnRight(TurnRight(TurnRight(TurnRight(d)))) == d
    ensures TurnLeft(TurnLeft(d)) == Opposite(d)
  {
  }

  /** A position on the map: `x` is the column, `y` the row (the outer vector index). */
  datatype Coords = Coords(x: nat, y: nat)

  /** The grid distance between two positions. */
  function Distance(a: Coords, b: Coords): nat {
    (if a.x < b.x then b.x - a.x else a.x - b.x) + (if a.y < b.y then b.y - a.y else a.y - b.y)
  }

  /**
   * `Coords::move_into_direction` (days 16 and 17): one step, or None when the step
   * would leave the top or left edge (the coordinates are unsigned).
   */
  function MoveIntoDirection(c: Coords, d: Direction): (r: Option<Coords>)
    ensures r.None? <==> (d == Up && c.y == 0) || (d == Left && c.x == 0)
    ensures r.Some? ==> Distance(c, r.value) == 1
    ensures r.Some? && (d == Up || d == Down) ==> r.value.x == c.x
    ensures r.Some? && (d == Left || d == Right) ==> r.value.y == c.y
    ensures r.Some? && d == Down ==> r.value.y == c.y + 1
    ensures r.Some? && d == Up ==> r.value.y + 1 == c.y
    ensures r.Some? && d == Right ==> r.value.x == c.x + 1
    ensures r.Some? && d == Left ==> r.value.x + 1 == c.x
  {
    match d
    case Up => if c.y == 0 then None else Some(c.(y := c.y - 1))
    case Down => Some(c.(y := c.y + 1))
    case Left => if c.x == 0 then None else Some(c.(x := c.x - 1))
    case Right => Some(c.(x := c.x + 1))
  }

  /** Stepping one way and then back the opposite way returns to the start. */
  lemma MoveThereAndBack(c: Coords, d: Direction)
    requires MoveIntoDirection(c, d).Some?
    ensures MoveIntoDirection(MoveIntoDirection(c, d).value, Opposite(d)) == Some(c)
  {
  }
}
