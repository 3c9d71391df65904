/**
 * Day 10, part two: count the tiles enclosed by the loop. A walker fills the loop's pipes,
 * the outside is flooded from the top-left corner, a walker finds a loop tile with the
 * outside on one hand, and a last walker goes round the loop flooding the other hand as
 * inside. The answer is the number of tiles marked inside.
 */
module Day10Part2 {
  import opened Wrappers
  import opened Grid
  import opened GridSum
  import opened Day10Maze
  import opened Day10Flood
  import opened Day10Part1

  /** No tile is a full pipe. */
  predicate NoneBlocked(fields: seq<seq<Field>>) {
    forall y, x :: 0 <= y < |fields| && 0 <= x < |fields[y]| ==> !Blocked(fields[y][x])
  }

  /** Every tile carries the mark of kind `inner`. */
  predicate AllMarked(fields: seq<seq<Field>>, inner: bool) {
    forall y, x :: 0 <= y < |fields| && 0 <= x < |fields[y]| ==> Marked(fields[y][x], inner)
  }

  /** No tile carries the mark of kind `inner`. */
  predicate NoneMarked(fields: seq<seq<Field>>, inner: bool) {
    forall y, x :: 0 <= y < |fields| && 0 <= x < |fields[y]| ==> !Marked(fields[y][x], inner)
  }

  /** No tile marked inside is a full pipe: inside marks never sit on the loop. */
  predicate InnerOffLoop(fields: seq<seq<Field>>) {
    forall y, x :: 0 <= y < |fields| && 0 <= x < |fields[y]| && fields[y][x].inner ==> !Blocked(fields[y][x])
  }

  lemma OnlyMarksAddedTransitive(a: seq<seq<Field>>, b: seq<seq<Field>>, c: seq<seq<Field>>, inner: bool)
    requires OnlyMarksAdded(a, b, inner) && OnlyMarksAdded(b, c, inner)
    ensures OnlyMarksAdded(a, c, inner)
  {
    forall y, x | 0 <= y < |a| && 0 <= x < |a[y]|
      ensures c[y][x] == a[y][x] || c[y][x] == Mark(a[y][x], inner)
    {
      assert b[y][x] == a[y][x] || b[y][x] == Mark(a[y][x], inner);
    }
  }

  /**
   * In a finished flood over tiles that were neither full nor marked, a neighbour of a
   * marked tile that lies on the map has been marked too.
   */
  lemma NeighbourMarked(before: seq<seq<Field>>, after: seq<seq<Field>>, order: seq<Coords>, inner: bool,
                        c: Coords, d: Direction)
    requires NoneBlocked(before) && NoneMarked(before, inner)
    requires OnlyMarksAdded(before, after, inner)
    requires forall c :: NewlyMarked(before, after, c, inner) <==> c in order
    requires forall i, d :: 0 <= i < |order| && MoveIntoDirection(order[i], d).Some? ==>
      Settled(after, MoveIntoDirection(order[i], d).value, inner, [])
    requires c in order && MoveIntoDirection(c, d).Some? && InBounds(before, MoveIntoDirection(c, d).value)
    ensures MoveIntoDirection(c, d).value in order
  {
    var n := MoveIntoDirection(c, d).value;
    var i :| 0 <= i < |order| && order[i] == c;
    assert Settled(after, n, inner, []);
    assert after[n.y][n.x] == before[n.y][n.x] || after[n.y][n.x] == Mark(before[n.y][n.x], inner);
    assert !Blocked(before[n.y][n.x]);
    assert NewlyMarked(before, after, n, inner);
  }

  /** The first column is reached down to row `y`. */
  lemma {:induction false} ColumnReached(before: seq<seq<Field>>, after: seq<seq<Field>>, order: seq<Coords>,
                                         inner: bool, y: nat)
    requires NoneBlocked(before) && NoneMarked(before, inner)
    requires OnlyMarksAdded(before, after, inner)
    requires forall c :: NewlyMarked(before, after, c, inner) <==> c in order
    requires forall i, d :: 0 <= i < |order| && MoveIntoDirection(order[i], d).Some? ==>
      Settled(after, MoveIntoDirection(order[i], d).value, inner, [])
    requires Coords(0, 0) in order
    requires forall k :: 0 <= k < |before| ==> |before[k]| > 0
    requires y < |before|
    ensures Coords(0, y) in order
    decreases y
  {
    if y > 0 {
      ColumnReached(before, after, order, inner, y - 1);
      NeighbourMarked(before, after, order, inner, Coords(0, y - 1), Down);
    }
  }

  /** Row `y` is reached rightwards up to column `x`. */
  lemma {:induction false} RowReached(before: seq<seq<Field>>, after: seq<seq<Field>>, order: seq<Coords>,
                                      inner: bool, y: nat, x: nat)
    requires NoneBlocked(before) && NoneMarked(before, inner)
    requires OnlyMarksAdded(before, after, inner)
    requires forall c :: NewlyMarked(before, after, c, inner) <==> c in order
    requires forall i, d :: 0 <= i < |order| && MoveIntoDirection(order[i], d).Some? ==>
      Settled(after, MoveIntoDirection(order[i], d).value, inner, [])
    requires Coords(0, 0) in order
    requires forall k :: 0 <= k < |before| ==> |before[k]| > 0
    requires y < |before| && x < |before[y]|
    ensures Coords(x, y) in order
    decreases x
  {
    if x == 0 {
      ColumnReached(before, after, order, inner, y);
    } else {
      RowReached(before, after, order, inner, y, x - 1);
      NeighbourMarked(before, after, order, inner, Coords(x - 1, y), Right);
    }
  }

  /**
   * A flood that took the top-left tile of a map without full pipes and without marks of
   * its kind, and whose rows are not empty, has marked every tile.
   */
  lemma FloodReachesAll(before: seq<seq<Field>>, after: seq<seq<Field>>, order: seq<Coords>, inner: bool)
    requires NoneBlocked(before) && NoneMarked(before, inner)
    requires OnlyMarksAdded(before, after, inner)
    requires forall c :: NewlyMarked(before, after, c, inner) <==> c in order
    requires forall i, d :: 0 <= i < |order| && MoveIntoDirection(order[i], d).Some? ==>
      Settled(after, MoveIntoDirection(order[i], d).value, inner, [])
    requires Coords(0, 0) in order
    requires forall k :: 0 <= k < |before| ==> |before[k]| > 0
    ensures AllMarked(after, inner)
  {
    forall y, x | 0 <= y < |after| && 0 <= x < |after[y]|
      ensures Marked(after[y][x], inner)
    {
      RowReached(before, after, order, inner, y, x);
      assert NewlyMarked(before, after, Coords(x, y), inner);
    }
  }

  /**
   * `flood_outer`: flood the outside from the top-left tile. Only outside marks are added;
   * on a map without full pipes or outside marks whose rows are not empty, every tile ends
   * up outside.
   */
  method FloodOuter(maze: Maze)
    modifies maze
    ensures maze.start == old(maze.start)
    ensures maze.fields == FloodFrom(old(maze.fields), Coords(0, 0), false)
    ensures OnlyMarksAdded(old(maze.fields), maze.fields, false)
    ensures (NoneBlocked(old(maze.fields)) && NoneMarked(old(maze.fields), false) &&
      |old(maze.fields)| > 0 && forall k :: 0 <= k < |old(maze.fields)| ==> |old(maze.fields)[k]| > 0) ==>
      AllMarked(maze.fields, false)
  {
    ghost var before := maze.fields;
    ghost var order := Flood(maze, Coords(0, 0), false);
    if NoneBlocked(before) && NoneMarked(before, false) && |before| > 0 &&
       (forall k :: 0 <= k < |before| ==> |before[k]| > 0) {
      assert Takes(before, Coords(0, 0), false);
      assert NewlyMarked(before, maze.fields, Coords(0, 0), false);
      FloodReachesAll(before, maze.fields, order, false);
    }
  }

  /**
   * `flood_inner`: flood the inside from `start`. Only inside marks are added, and none on
   * a full pipe.
   */
  method FloodInner(maze: Maze, start: Coords)
    modifies maze
    ensures maze.start == old(maze.start)
    ensures maze.fields == FloodFrom(old(maze.fields), start, true)
    ensures OnlyMarksAdded(old(maze.fields), maze.fields, true)
    ensures InnerOffLoop(old(maze.fields)) ==> InnerOffLoop(maze.fields)
    ensures InBounds(old(maze.fields), start) && !Blocked(At(old(maze.fields), start)) ==>
      InBounds(maze.fields, start) && At(maze.fields, start).inner
  {
    ghost var before := maze.fields;
    ghost var order := Flood(maze, start, true);
    if InBounds(before, start) && !Blocked(At(before, start)) {
      assert InBounds(maze.fields, start);
      if !At(before, start).inner {
        assert Takes(before, start, true);
      }
    }
    if InnerOffLoop(before) {
      forall y, x | 0 <= y < |maze.fields| && 0 <= x < |maze.fields[y]| && maze.fields[y][x].inner
        ensures !Blocked(maze.fields[y][x])
      {
        assert maze.fields[y][x] == before[y][x] || maze.fields[y][x] == Mark(before[y][x], true);
        if !before[y][x].inner {
          assert NewlyMarked(before, maze.fields, Coords(x, y), true);
          var i :| 0 <= i < |order| && order[i] == Coords(x, y);
        }
      }
    }
  }

  /**
   * An inside flood only adds inside marks, puts none on a full pipe, and marks its seed
   * when the seed is on the map and not a full pipe.
   */
  lemma FloodInnerKeeps(fields: seq<seq<Field>>, seed: Coords)
    ensures var after := FloodFrom(fields, seed, true);
      OnlyMarksAdded(fields, after, true) &&
      (InnerOffLoop(fields) ==> InnerOffLoop(after)) &&
      (InBounds(fields, seed) && !Blocked(At(fields, seed)) ==> InBounds(after, seed) && At(after, seed).inner)
  {
    var after: seq<seq<Field>> := FloodFrom(fields, seed, true);
    FloodFromMeaning(fields, seed, true);
    if InnerOffLoop(fields) {
      forall y, x | 0 <= y < |after| && 0 <= x < |after[y]| && after[y][x].inner
        ensures !Blocked(after[y][x])
      {
        assert after[y][x] == fields[y][x] || after[y][x] == Mark(fields[y][x], true);
        if !fields[y][x].inner {
          assert NewlyMarked(fields, after, Coords(x, y), true);
        }
      }
    }
  }

  /** A tile with a pipe that is not yet full. */
  function UnfilledWeight(f: Field): nat {
    if f.pipe.Some? && !f.pipe.value.full then 1 else 0
  }

  /** The number of pipes not yet filled: every dump lowers it. */
  function Unfilled(fields: seq<seq<Field>>): nat {
    Sum(fields, UnfilledWeight)
  }

  lemma FillLowersUnfilled(fields: seq<seq<Field>>, c: Coords)
    requires InBounds(fields, c) && fields[c.y][c.x].pipe.Some? && !fields[c.y][c.x].pipe.value.full
    ensures Unfilled(Fill(fields, c)) < Unfilled(fields)
  {
    var f := fields[c.y][c.x];
    SumUpdate(fields, c.y, c.x, f.(pipe := Some(f.pipe.value.(full := true))), UnfilledWeight);
  }

  /**
   * Every tile is as before or is the same tile with its pipe filled: marks and openings
   * are untouched.
   */
  predicate OnlyFilled(before: seq<seq<Field>>, after: seq<seq<Field>>) {
    SameDims(before, after) &&
    forall y, x :: 0 <= y < |before| && 0 <= x < |before[y]| ==>
      after[y][x] == before[y][x] ||
      (before[y][x].pipe.Some? && after[y][x] == before[y][x].(pipe := Some(before[y][x].pipe.value.(full := true))))
  }

  /**
   * `pooping_hamster` as a value: from `position`, heading `direction`, fill the pipe under
   * the walker and walk on, until the walker stands in a full pipe. The result is the tiles
   * and the stopping position, or None where the source panics: off the map, on a tile
   * without a pipe, or at a pipe the walker cannot walk on from.
   */
  function Poop(fields: seq<seq<Field>>, position: Coords, direction: Direction): Option<(seq<seq<Field>>, Coords)>
    decreases Unfilled(fields)
  {
    if !InBounds(fields, position) then None
    else if Blocked(fields[position.y][position.x]) then Some((fields, position))
    else if fields[position.y][position.x].pipe.None? then None
    else
      var filled := Fill(fields, position);
      if !CanWalk(filled, position, direction) then None
      else
        FillLowersUnfilled(fields, position);
        var (p, d) := WalkSpec(filled, position, direction);
        Poop(filled, p, d)
  }

  /**
   * The walker only fills pipes; it stops standing in a full pipe, and the pipe it set out
   * from is full at the end.
   */
  lemma {:induction false} PoopFillsTrail(fields: seq<seq<Field>>, position: Coords, direction: Direction)
    requires Poop(fields, position, direction).Some?
    ensures var (after, stop) := Poop(fields, position, direction).value;
      OnlyFilled(fields, after) && InBounds(after, stop) && Blocked(after[stop.y][stop.x]) &&
      InBounds(after, position) && Blocked(after[position.y][position.x])
    decreases Unfilled(fields)
  {
    if !Blocked(fields[position.y][position.x]) {
      var filled := Fill(fields, position);
      FillLowersUnfilled(fields, position);
      var (p, d) := WalkSpec(filled, position, direction);
      PoopFillsTrail(filled, p, d);
      var (after, stop) := Poop(filled, p, d).value;
      assert Poop(fields, position, direction).value == (after, stop);
      forall y, x | 0 <= y < |fields| && 0 <= x < |fields[y]|
        ensures after[y][x] == fields[y][x] ||
          (fields[y][x].pipe.Some? && after[y][x] == fields[y][x].(pipe := Some(fields[y][x].pipe.value.(full := true))))
      {
        if (y, x) == (position.y, position.x) {
          assert filled[y][x] == fields[y][x].(pipe := Some(fields[y][x].pipe.value.(full := true)));
        } else {
          assert filled[y][x] == fields[y][x];
        }
      }
    }
  }

  /**
   * `pooping_hamster`, with the dump filling the maze's pipe: a walker from the start,
   * heading left, fills the loop. Reports false where the source panics.
   */
  method PoopingHamster(maze: Maze) returns (ok: bool)
    modifies maze
    ensures maze.start == old(maze.start)
    ensures ok <==> Poop(old(maze.fields), old(maze.start), Left).Some?
    ensures ok ==> maze.fields == Poop(old(maze.fields), old(maze.start), Left).value.0
  {
    var hamster := new Hamster.New(maze.start, Left);
    while true
      invariant maze.start == old(maze.start)
      invariant Poop(maze.fields, hamster.position, hamster.direction) == Poop(old(maze.fields), old(maze.start), Left)
      decreases Unfilled(maze.fields)
    {
      if !InBounds(maze.fields, hamster.position) {
        return false;
      }
      var field := maze.GetField(hamster.position);
      if field.pipe.Some? && field.pipe.value.full {
        return true;
      }
      if field.pipe.None? {
        return false;
      }
      FillLowersUnfilled(maze.fields, hamster.position);
      hamster.TakeDump(maze);
      if !CanWalk(maze.fields, hamster.position, hamster.direction) {
        return false;
      }
      hamster.WalkMaze(maze);
    }
  }

  /** Which hand of the walker the inside lies on (`Side`). */
  datatype Side = InnerOnLeft | InnerOnRight

  /**
   * `peek`: the tile next to `position` in direction `d`; beyond the map, a tile with no
   * pipe and no marks.
   */
  function Peek(fields: seq<seq<Field>>, position: Coords, d: Direction): Field {
    var n := MoveIntoDirection(position, d);
    if n.Some? && InBounds(fields, n.value) then fields[n.value.y][n.value.x] else Field(None, false, false)
  }

  /** How the search for a tile with the outside on one hand ends. */
  datatype Search = Found(position: Coords, direction: Direction, side: Side) | SearchPanicked | SearchOutOfFuel

  /**
   * `find_inner_direction_hamster` from `position`, heading `direction`, with `fuel` walks
   * left (the source's loop has no bound): stop where the tile on the left is outside (the
   * inside is on the right) or else the tile on the right is outside.
   */
  function FindInner(fields: seq<seq<Field>>, position: Coords, direction: Direction, fuel: nat): Search
    decreases fuel
  {
    if Peek(fields, position, TurnLeft(direction)).outer then Found(position, direction, InnerOnRight)
    else if Peek(fields, position, TurnRight(direction)).outer then Found(position, direction, InnerOnLeft)
    else if fuel == 0 then SearchOutOfFuel
    else if !CanWalk(fields, position, direction) then SearchPanicked
    else
      var (p, d) := WalkSpec(fields, position, direction);
      FindInner(fields, p, d, fuel - 1)
  }

  /**
   * A found tile lies on the walk from the start, within the fuel, and has the outside on
   * the hand opposite the reported side (the left hand is looked at first).
   */
  lemma {:induction false} FindInnerMeaning(fields: seq<seq<Field>>, position: Coords, direction: Direction, fuel: nat)
    ensures var r := FindInner(fields, position, direction, fuel);
      r.Found? ==>
        (exists n :: 0 <= n <= fuel && Walks(fields, Walker(position, direction), n) == Some(Walker(r.position, r.direction))) &&
        (r.side == InnerOnRight <==> Peek(fields, r.position, TurnLeft(r.direction)).outer) &&
        (r.side == InnerOnLeft ==> Peek(fields, r.position, TurnRight(r.direction)).outer)
    decreases fuel
  {
    var r := FindInner(fields, position, direction, fuel);
    if Peek(fields, position, TurnLeft(direction)).outer || Peek(fields, position, TurnRight(direction)).outer {
      assert Walks(fields, Walker(position, direction), 0) == Some(Walker(position, direction));
    } else if fuel > 0 && CanWalk(fields, position, direction) {
      var (p, d) := WalkSpec(fields, position, direction);
      FindInnerMeaning(fields, p, d, fuel - 1);
      if r.Found? {
        var n :| 0 <= n <= fuel - 1 && Walks(fields, Walker(p, d), n) == Some(Walker(r.position, r.direction));
        assert Walk(fields, Walker(position, direction)) == Some(Walker(p, d));
        assert Walks(fields, Walker(position, direction), n + 1) == Some(Walker(r.position, r.direction));
      }
    }
  }

  /** The walker search of `find_inner_direction_hamster`; the maze is only read. */
  method FindInnerDirectionHamster(maze: Maze, fuel: nat) returns (r: Search)
    ensures r == FindInner(maze.fields, maze.start, Left, fuel)
  {
    var hamster := new Hamster.New(maze.start, Left);
    var steps := 0;
    while true
      invariant steps <= fuel
      invariant FindInner(maze.fields, hamster.position, hamster.direction, fuel - steps) ==
        FindInner(maze.fields, maze.start, Left, fuel)
      decreases fuel - steps
    {
      var leftField := Peek(maze.fields, hamster.position, TurnLeft(hamster.direction));
      var rightField := Peek(maze.fields, hamster.position, TurnRight(hamster.direction));
      if leftField.outer {
        return Found(hamster.position, hamster.direction, InnerOnRight);
      } else if rightField.outer {
        return Found(hamster.position, hamster.direction, InnerOnLeft);
      }
      if steps == fuel {
        return SearchOutOfFuel;
      }
      if !CanWalk(maze.fields, hamster.position, hamster.direction) {
        return SearchPanicked;
      }
      hamster.WalkMaze(maze);
      steps := steps + 1;
    }
  }

  /** The inside direction for a walker heading `d`. */
  function InnerTurn(side: Side, d: Direction): (r: Direction)
    ensures side == InnerOnLeft ==> TurnRight(r) == d
    ensures side == InnerOnRight ==> TurnLeft(r) == d
  {
    match side
    case InnerOnLeft => TurnLeft(d)
    case InnerOnRight => TurnRight(d)
  }

  /**
   * The tile on hand `d` of `position` is taken care of: off the map, on the loop (a full
   * pipe), or inside.
   */
  predicate InsideBeside(fields: seq<seq<Field>>, position: Coords, d: Direction) {
    var n := MoveIntoDirection(position, d);
    n.Some? ==> !InBounds(fields, n.value) || Blocked(At(fields, n.value)) || At(fields, n.value).inner
  }

  /** A tile passed on the way round: the walker can go on, and both inside hands are taken care of. */
  predicate Flanked(fields: seq<seq<Field>>, s: (Coords, Direction), side: Side) {
    CanWalk(fields, s.0, s.1) &&
    InsideBeside(fields, s.0, InnerTurn(side, s.1)) &&
    InsideBeside(fields, s.0, InnerTurn(side, ExitDirection(fields[s.0.y][s.0.x].pipe.value, s.1).value))
  }

  /** The walker in state `a` steps to state `b` along its pipe. */
  predicate Follows(fields: seq<seq<Field>>, a: (Coords, Direction), b: (Coords, Direction)) {
    CanWalk(fields, a.0, a.1) && WalkSpec(fields, a.0, a.1) == b
  }

  /** Inside marks change no pipe: the walks are the same before and after. */
  lemma InnerMarksKeepWalks(a: seq<seq<Field>>, b: seq<seq<Field>>, s: (Coords, Direction))
    requires OnlyMarksAdded(a, b, true)
    ensures CanWalk(a, s.0, s.1) <==> CanWalk(b, s.0, s.1)
    ensures CanWalk(a, s.0, s.1) ==> WalkSpec(a, s.0, s.1) == WalkSpec(b, s.0, s.1)
  {
    if InBounds(a, s.0) {
      assert b[s.0.y][s.0.x] == a[s.0.y][s.0.x] || b[s.0.y][s.0.x] == Mark(a[s.0.y][s.0.x], true);
    }
  }

  /** Adding inside marks keeps a tile flanked. */
  lemma InnerMarksKeepFlanked(a: seq<seq<Field>>, b: seq<seq<Field>>, s: (Coords, Direction), side: Side)
    requires OnlyMarksAdded(a, b, true) && Flanked(a, s, side)
    ensures Flanked(b, s, side)
  {
    InnerMarksKeepWalks(a, b, s);
    assert b[s.0.y][s.0.x] == a[s.0.y][s.0.x] || b[s.0.y][s.0.x] == Mark(a[s.0.y][s.0.x], true);
    InnerMarksKeepBeside(a, b, s.0, InnerTurn(side, s.1));
    InnerMarksKeepBeside(a, b, s.0, InnerTurn(side, ExitDirection(a[s.0.y][s.0.x].pipe.value, s.1).value));
  }

  lemma InnerMarksKeepBeside(a: seq<seq<Field>>, b: seq<seq<Field>>, position: Coords, d: Direction)
    requires OnlyMarksAdded(a, b, true) && InsideBeside(a, position, d)
    ensures InsideBeside(b, position, d)
  {
    var n := MoveIntoDirection(position, d);
    if n.Some? && InBounds(a, n.value) {
      var c := n.value;
      assert b[c.y][c.x] == a[c.y][c.x] || b[c.y][c.x] == Mark(a[c.y][c.x], true);
    }
  }

  /**
   * Every state of `trail` but the last is off `start`, steps to the next one along the
   * pipes of `walks`, and is flanked in `fields`.
   */
  predicate Lapped(walks: seq<seq<Field>>, fields: seq<seq<Field>>, trail: seq<(Coords, Direction)>, start: Coords, side: Side) {
    forall k :: 0 <= k < |trail| - 1 ==> LapLink(walks, fields, trail, k, start, side)
  }

  /** State `k` of `trail` is off `start`, steps to state `k + 1` and is flanked in `fields`. */
  predicate LapLink(walks: seq<seq<Field>>, fields: seq<seq<Field>>, trail: seq<(Coords, Direction)>, k: nat,
                    start: Coords, side: Side)
    requires k < |trail| - 1
  {
    trail[k].0 != start && Follows(walks, trail[k], trail[k + 1]) && Flanked(fields, trail[k], side)
  }

  /** One more tile passed: the lap so far survives the new inside marks and grows by a step. */
  lemma LapGrows(walks: seq<seq<Field>>, a: seq<seq<Field>>, b: seq<seq<Field>>, trail: seq<(Coords, Direction)>,
                 start: Coords, side: Side, next: (Coords, Direction))
    requires Lapped(walks, a, trail, start, side) && OnlyMarksAdded(a, b, true) && OnlyMarksAdded(walks, b, true)
    requires |trail| >= 1 && trail[|trail| - 1].0 != start && Flanked(b, trail[|trail| - 1], side)
    requires CanWalk(b, trail[|trail| - 1].0, trail[|trail| - 1].1)
    requires next == WalkSpec(b, trail[|trail| - 1].0, trail[|trail| - 1].1)
    ensures Lapped(walks, b, trail + [next], start, side)
  {
    var last := trail[|trail| - 1];
    InnerMarksKeepWalks(walks, b, last);
    var t := trail + [next];
    forall k | 0 <= k < |t| - 1
      ensures LapLink(walks, b, t, k, start, side)
    {
      if k < |trail| - 1 {
        assert LapLink(walks, a, trail, k, start, side);
        InnerMarksKeepFlanked(a, b, trail[k], side);
      }
    }
  }

  /** How a walk round the loop ends: back at the start, at a panic, or out of fuel. */
  datatype Lap = Completed | LapPanicked | LapOutOfFuel

  /**
   * `get_inner_coords` and `flood_inner` for one inside direction, as a value: the tiles
   * unchanged when the tile there is already inside, the tiles flooded from it otherwise,
   * and None where the unwrap of the step panics.
   */
  function FloodBesideSpec(fields: seq<seq<Field>>, position: Coords, d: Direction): Option<seq<seq<Field>>> {
    if Peek(fields, position, d).inner then Some(fields)
    else match MoveIntoDirection(position, d)
      case None => None
      case Some(n) => Some(FloodFrom(fields, n, true))
  }

  /**
   * The step on one hand panics exactly when the tile there is not inside and the step
   * leaves the top or left edge; otherwise it only adds inside marks, none on the loop,
   * and the tile on that hand ends up taken care of.
   */
  lemma FloodBesideMeaning(fields: seq<seq<Field>>, position: Coords, d: Direction)
    ensures var r := FloodBesideSpec(fields, position, d);
      (r.Some? <==> Peek(fields, position, d).inner || MoveIntoDirection(position, d).Some?) &&
      (r.Some? ==>
         OnlyMarksAdded(fields, r.value, true) && (InnerOffLoop(fields) ==> InnerOffLoop(r.value)) &&
         InsideBeside(r.value, position, d))
  {
    var n := MoveIntoDirection(position, d);
    if !Peek(fields, position, d).inner && n.Some? {
      var after := FloodFrom(fields, n.value, true);
      FloodInnerKeeps(fields, n.value);
      if InBounds(fields, n.value) {
        var c := n.value;
        assert after[c.y][c.x] == fields[c.y][c.x] || after[c.y][c.x] == Mark(fields[c.y][c.x], true);
      }
    }
  }

  /**
   * The step of `get_inner_coords` and `flood_inner` for one inside direction: unless the
   * tile there is already inside, flood from it. Reports false where the source panics (a
   * step off the top or left edge); otherwise the tile on that hand is taken care of.
   */
  method FloodBeside(maze: Maze, position: Coords, d: Direction) returns (ok: bool)
    modifies maze
    ensures maze.start == old(maze.start)
    ensures ok <==> FloodBesideSpec(old(maze.fields), position, d).Some?
    ensures ok ==> maze.fields == FloodBesideSpec(old(maze.fields), position, d).value
    ensures !ok ==> maze.fields == old(maze.fields)
    ensures OnlyMarksAdded(old(maze.fields), maze.fields, true)
    ensures InnerOffLoop(old(maze.fields)) ==> InnerOffLoop(maze.fields)
    ensures ok <==> Peek(old(maze.fields), position, d).inner || MoveIntoDirection(position, d).Some?
    ensures ok ==> InsideBeside(maze.fields, position, d)
  {
    if Peek(maze.fields, position, d).inner {
      return true;
    }
    var n := MoveIntoDirection(position, d);
    if n.None? {
      return false;
    }
    ghost var before := maze.fields;
    FloodInner(maze, n.value);
    if InBounds(maze.fields, n.value) {
      var c := n.value;
      assert maze.fields[c.y][c.x] == before[c.y][c.x] || maze.fields[c.y][c.x] == Mark(before[c.y][c.x], true);
    }
    return true;
  }

  /**
   * The body of the loop of `flooding_hamster` as a value, up to the walk: whether it goes
   * through, and the tiles after flooding the entering and then the exiting inside hand.
   * It does not go through where the source panics (no pipe, no way on, a step off the
   * edge, or a walk that cannot go on); the tiles are then those flooded before the panic.
   */
  function FloodHandsSpec(fields: seq<seq<Field>>, position: Coords, direction: Direction, side: Side)
    : (r: (bool, seq<seq<Field>>))
    ensures r.0 ==> CanWalk(r.1, position, direction)
  {
    if !InBounds(fields, position) || fields[position.y][position.x].pipe.None? then (false, fields)
    else
      var exiting := ExitDirection(fields[position.y][position.x].pipe.value, direction);
      if exiting.None? then (false, fields)
      else match FloodBesideSpec(fields, position, InnerTurn(side, direction))
        case None => (false, fields)
        case Some(mid) =>
          match FloodBesideSpec(mid, position, InnerTurn(side, exiting.value))
          case None => (false, mid)
          case Some(after) => (CanWalk(after, position, direction), after)
  }

  /**
   * A tile passed gains only inside marks, none on the loop, panic or not; without a
   * panic it is left flanked: both inside hands are taken care of and the walker can go on.
   */
  lemma FloodHandsMeaning(fields: seq<seq<Field>>, position: Coords, direction: Direction, side: Side)
    ensures var r := FloodHandsSpec(fields, position, direction, side);
      OnlyMarksAdded(fields, r.1, true) && (InnerOffLoop(fields) ==> InnerOffLoop(r.1)) &&
      (r.0 ==> Flanked(r.1, (position, direction), side))
  {
    var r := FloodHandsSpec(fields, position, direction, side);
    assert OnlyMarksAdded(fields, fields, true);
    if InBounds(fields, position) && fields[position.y][position.x].pipe.Some? &&
       ExitDirection(fields[position.y][position.x].pipe.value, direction).Some? &&
       FloodBesideSpec(fields, position, InnerTurn(side, direction)).Some? {
      var exiting := ExitDirection(fields[position.y][position.x].pipe.value, direction).value;
      var mid := FloodBesideSpec(fields, position, InnerTurn(side, direction)).value;
      FloodBesideMeaning(fields, position, InnerTurn(side, direction));
      FloodBesideMeaning(mid, position, InnerTurn(side, exiting));
      if FloodBesideSpec(mid, position, InnerTurn(side, exiting)).Some? {
        var after := r.1;
        assert after == FloodBesideSpec(mid, position, InnerTurn(side, exiting)).value;
        OnlyMarksAddedTransitive(fields, mid, after, true);
        InnerMarksKeepBeside(mid, after, position, InnerTurn(side, direction));
        assert after[position.y][position.x] == fields[position.y][position.x] ||
               after[position.y][position.x] == Mark(fields[position.y][position.x], true);
      }
    }
  }

  /**
   * The body of the loop of `flooding_hamster` on the tile at `position`, entered heading
   * `direction`: flood the inside on the entering and then on the exiting hand. Reports
   * false where the source panics; otherwise the tile is flanked and the walker can go on.
   */
  method FloodHands(maze: Maze, position: Coords, direction: Direction, side: Side) returns (ok: bool)
    modifies maze
    ensures maze.start == old(maze.start)
    ensures (ok, maze.fields) == FloodHandsSpec(old(maze.fields), position, direction, side)
    ensures OnlyMarksAdded(old(maze.fields), maze.fields, true)
    ensures InnerOffLoop(old(maze.fields)) ==> InnerOffLoop(maze.fields)
    ensures ok ==> Flanked(maze.fields, (position, direction), side)
  {
    ghost var before := maze.fields;
    ok := false;
    if InBounds(maze.fields, position) && maze.fields[position.y][position.x].pipe.Some? {
      var pipe := maze.fields[position.y][position.x].pipe.value;
      var exiting := ExitDirection(pipe, direction);
      if exiting.Some? {
        ok := FloodBeside(maze, position, InnerTurn(side, direction));
        if ok {
          ok := FloodBeside(maze, position, InnerTurn(side, exiting.value));
          if ok {
            ok := CanWalk(maze.fields, position, direction);
          }
        }
      }
    }
    FloodHandsMeaning(before, position, direction, side);
  }

  /**
   * The loop of `flooding_hamster` as a value, from the walker at `position` heading
   * `direction`, with `fuel` walks left: stop back at `start`; otherwise flood both inside
   * hands and walk on. The outcome and the tiles at the end.
   */
  function LapFrom(fields: seq<seq<Field>>, position: Coords, direction: Direction, start: Coords, side: Side,
                   fuel: nat): (Lap, seq<seq<Field>>)
    decreases fuel
  {
    if position == start then (Completed, fields)
    else if fuel == 0 then (LapOutOfFuel, fields)
    else
      var (ok, after) := FloodHandsSpec(fields, position, direction, side);
      if !ok then (LapPanicked, after)
      else
        var (p, d) := WalkSpec(after, position, direction);
        LapFrom(after, p, d, start, side, fuel - 1)
  }

  /** `flooding_hamster` as a value: one walk off `start`, then the loop. */
  function FloodLap(fields: seq<seq<Field>>, start: Coords, startDirection: Direction, side: Side, fuel: nat)
    : (Lap, seq<seq<Field>>)
  {
    if !CanWalk(fields, start, startDirection) then (LapPanicked, fields)
    else
      var (p, d) := WalkSpec(fields, start, startDirection);
      LapFrom(fields, p, d, start, side, fuel)
  }

  /** Back at `start`, the lap is complete and leaves the tiles as they are. */
  lemma LapFromAtStart(fields: seq<seq<Field>>, position: Coords, direction: Direction, start: Coords, side: Side, fuel: nat)
    requires position == start
    ensures LapFrom(fields, position, direction, start, side, fuel) == (Completed, fields)
  {
  }

  /** One round of the loop: flood both hands, walk, and go on with one walk less. */
  lemma LapFromUnfold(fields: seq<seq<Field>>, position: Coords, direction: Direction, start: Coords, side: Side, fuel: nat)
    requires position != start && fuel > 0 && FloodHandsSpec(fields, position, direction, side).0
    ensures var after := FloodHandsSpec(fields, position, direction, side).1;
      var next := WalkSpec(after, position, direction);
      LapFrom(fields, position, direction, start, side, fuel) == LapFrom(after, next.0, next.1, start, side, fuel - 1)
  {
  }

  /**
   * One round off `start` without a panic: the tiles gain only inside marks, none on the
   * loop, and the lap walked so far grows by the walk, flanked in the new tiles.
   */
  lemma LapStep(walks: seq<seq<Field>>, fields: seq<seq<Field>>, trail: seq<(Coords, Direction)>, start: Coords, side: Side)
    requires |trail| >= 1 && OnlyMarksAdded(walks, fields, true) && Lapped(walks, fields, trail, start, side)
    requires trail[|trail| - 1].0 != start
    requires FloodHandsSpec(fields, trail[|trail| - 1].0, trail[|trail| - 1].1, side).0
    ensures var last := trail[|trail| - 1];
      var after := FloodHandsSpec(fields, last.0, last.1, side).1;
      OnlyMarksAdded(walks, after, true) && (InnerOffLoop(fields) ==> InnerOffLoop(after)) &&
      Lapped(walks, after, trail + [WalkSpec(after, last.0, last.1)], start, side)
  {
    var last := trail[|trail| - 1];
    var after := FloodHandsSpec(fields, last.0, last.1, side).1;
    FloodHandsMeaning(fields, last.0, last.1, side);
    OnlyMarksAddedTransitive(walks, fields, after, true);
    LapGrows(walks, fields, after, trail, start, side, WalkSpec(after, last.0, last.1));
  }

  /** `lap` starts at `first` and ends back at `start`, every state of it but the last flanked in `fields`. */
  predicate LapBack(walks: seq<seq<Field>>, fields: seq<seq<Field>>, lap: seq<(Coords, Direction)>, first: (Coords, Direction),
                    start: Coords, side: Side) {
    |lap| >= 1 && lap[0] == first && lap[|lap| - 1].0 == start && Lapped(walks, fields, lap, start, side)
  }

  /**
   * The loop from the end of a lap walked so far only adds inside marks, none on the loop;
   * when it gets back to `start`, the lap so far grows into a lap that ends at `start`,
   * every tile of it flanked in the final tiles.
   */
  lemma {:induction false} LapFromMeaning(walks: seq<seq<Field>>, fields: seq<seq<Field>>, trail: seq<(Coords, Direction)>,
                                          start: Coords, side: Side, fuel: nat)
    returns (lap: seq<(Coords, Direction)>)
    requires |trail| >= 1 && OnlyMarksAdded(walks, fields, true) && Lapped(walks, fields, trail, start, side)
    ensures var res := LapFrom(fields, trail[|trail| - 1].0, trail[|trail| - 1].1, start, side, fuel);
      OnlyMarksAdded(walks, res.1, true) && (InnerOffLoop(fields) ==> InnerOffLoop(res.1)) &&
      (res.0.Completed? ==> LapBack(walks, res.1, lap, trail[0], start, side))
    decreases fuel, 1
  {
    var last := trail[|trail| - 1];
    lap := trail;
    if last.0 != start && fuel > 0 {
      if FloodHandsSpec(fields, last.0, last.1, side).0 {
        lap := LapFromStepMeaning(walks, fields, trail, start, side, fuel);
      } else {
        FloodHandsMeaning(fields, last.0, last.1, side);
        OnlyMarksAddedTransitive(walks, fields, FloodHandsSpec(fields, last.0, last.1, side).1, true);
      }
    }
  }

  /** The round of `LapFromMeaning` that floods both hands without a panic and walks on. */
  lemma {:induction false} LapFromStepMeaning(walks: seq<seq<Field>>, fields: seq<seq<Field>>,
                                              trail: seq<(Coords, Direction)>, start: Coords, side: Side, fuel: nat)
    returns (lap: seq<(Coords, Direction)>)
    requires |trail| >= 1 && OnlyMarksAdded(walks, fields, true) && Lapped(walks, fields, trail, start, side)
    requires trail[|trail| - 1].0 != start && fuel > 0
    requires FloodHandsSpec(fields, trail[|trail| - 1].0, trail[|trail| - 1].1, side).0
    ensures var res := LapFrom(fields, trail[|trail| - 1].0, trail[|trail| - 1].1, start, side, fuel);
      OnlyMarksAdded(walks, res.1, true) && (InnerOffLoop(fields) ==> InnerOffLoop(res.1)) &&
      (res.0.Completed? ==> LapBack(walks, res.1, lap, trail[0], start, side))
    decreases fuel, 0
  {
    var last := trail[|trail| - 1];
    var after := FloodHandsSpec(fields, last.0, last.1, side).1;
    var next := WalkSpec(after, last.0, last.1);
    var t := trail + [next];
    assert t[|t| - 1] == next && t[0] == trail[0];
    assert OnlyMarksAdded(walks, after, true) && (InnerOffLoop(fields) ==> InnerOffLoop(after)) &&
           Lapped(walks, after, t, start, side) by {
      LapStep(walks, fields, trail, start, side);
    }
    var res := LapFrom(after, next.0, next.1, start, side, fuel - 1);
    assert LapFrom(fields, last.0, last.1, start, side, fuel) == res by {
      LapFromUnfold(fields, last.0, last.1, start, side, fuel);
    }
    lap := LapFromMeaning(walks, after, t, start, side, fuel - 1);
  }

  /**
   * `flooding_hamster` only adds inside marks, none on the loop; a completed lap is a walk
   * along the pipes from `start` back to `start` with every tile passed flanked at the end.
   */
  lemma FloodLapMeaning(fields: seq<seq<Field>>, start: Coords, startDirection: Direction, side: Side, fuel: nat)
    returns (trail: seq<(Coords, Direction)>)
    ensures var (r, final) := FloodLap(fields, start, startDirection, side, fuel);
      OnlyMarksAdded(fields, final, true) && (InnerOffLoop(fields) ==> InnerOffLoop(final)) &&
      (r.Completed? ==>
         |trail| >= 1 && Follows(fields, (start, startDirection), trail[0]) &&
         trail[|trail| - 1].0 == start && Lapped(fields, final, trail, start, side))
  {
    trail := [];
    assert OnlyMarksAdded(fields, fields, true);
    if CanWalk(fields, start, startDirection) {
      var next := WalkSpec(fields, start, startDirection);
      trail := LapFromMeaning(fields, fields, [next], start, side, fuel);
    }
  }

  /**
   * `flooding_hamster`: from the tile found by the search, walk round the loop back to it,
   * flooding the inside on both the entering and the exiting hand of every tile passed,
   * with `fuel` walks at most. Only inside marks are added, and none on the loop. `trail`
   * lists the walker's states after each walk; on a completed lap it is a walk along the
   * pipes from `start` back to `start`, and every tile passed on the way is flanked.
   */
  method FloodingHamster(maze: Maze, start: Coords, startDirection: Direction, side: Side, fuel: nat)
    returns (r: Lap, ghost trail: seq<(Coords, Direction)>)
    modifies maze
    ensures maze.start == old(maze.start)
    ensures (r, maze.fields) == FloodLap(old(maze.fields), start, startDirection, side, fuel)
    ensures OnlyMarksAdded(old(maze.fields), maze.fields, true)
    ensures InnerOffLoop(old(maze.fields)) ==> InnerOffLoop(maze.fields)
    ensures r.Completed? ==>
      |trail| >= 1 && Follows(old(maze.fields), (start, startDirection), trail[0]) &&
      trail[|trail| - 1].0 == start && Lapped(old(maze.fields), maze.fields, trail, start, side)
  {
    trail := FloodLapMeaning(maze.fields, start, startDirection, side, fuel);
    var hamster := new Hamster.New(start, startDirection);
    if !CanWalk(maze.fields, hamster.position, hamster.direction) {
      return LapPanicked, trail;
    }
    hamster.WalkMaze(maze);
    r := LapLoop(maze, hamster, start, side, fuel);
  }

  /** The loop of `flooding_hamster`, proved to follow `LapFrom`. */
  method LapLoop(maze: Maze, hamster: Hamster, start: Coords, side: Side, fuel: nat) returns (r: Lap)
    modifies maze, hamster
    ensures maze.start == old(maze.start)
    ensures (r, maze.fields) == LapFrom(old(maze.fields), old(hamster.position), old(hamster.direction), start, side, fuel)
  {
    ghost var goal := LapFrom(maze.fields, hamster.position, hamster.direction, start, side, fuel);
    var left := fuel;
    while hamster.position != start
      invariant maze.start == old(maze.start)
      invariant LapFrom(maze.fields, hamster.position, hamster.direction, start, side, left) == goal
      decreases left
    {
      var stop := LapRound(maze, hamster, start, side, left);
      if stop.Some? {
        return stop.value;
      }
      left := left - 1;
    }
    LapFromAtStart(maze.fields, hamster.position, hamster.direction, start, side, left);
    return Completed;
  }

  /**
   * One round of the loop of `flooding_hamster` off `start`, with `left` walks left: stop
   * when out of fuel; otherwise flood both inside hands and, without a panic, walk on.
   * On a stop the outcome and the tiles are those of the lap; otherwise the lap from the
   * walker's new place with one walk less is the lap from its old place.
   */
  method LapRound(maze: Maze, hamster: Hamster, start: Coords, side: Side, left: nat) returns (stop: Option<Lap>)
    requires hamster.position != start
    modifies maze, hamster
    ensures maze.start == old(maze.start)
    ensures stop.Some? ==>
              (stop.value, maze.fields) ==
              LapFrom(old(maze.fields), old(hamster.position), old(hamster.direction), start, side, left)
    ensures stop.None? ==>
              left > 0 &&
              LapFrom(old(maze.fields), old(hamster.position), old(hamster.direction), start, side, left) ==
              LapFrom(maze.fields, hamster.position, hamster.direction, start, side, left - 1)
  {
    if left == 0 {
      return Some(LapOutOfFuel);
    }
    var ok := FloodHands(maze, hamster.position, hamster.direction, side);
    if !ok {
      return Some(LapPanicked);
    }
    LapFromUnfold(old(maze.fields), hamster.position, hamster.direction, start, side, left);
    hamster.WalkMaze(maze);
    return None;
  }

  function InnerWeight(f: Field): nat {
    if f.inner then 1 else 0
  }

  /** How `run_private` ends: the count of inside tiles, a panic, or a walk out of fuel. */
  datatype Answer = Counted(n: nat) | RunPanicked | RunOutOfFuel

  lemma FilledKeepsShape(before: seq<seq<Field>>, after: seq<seq<Field>>)
    requires OnlyFilled(before, after) && NoneMarked(before, true)
    ensures SameDims(before, after) && NoneMarked(after, true)
  {
    forall y, x | 0 <= y < |after| && 0 <= x < |after[y]|
      ensures !after[y][x].inner
    {
      assert !before[y][x].inner;
    }
  }

  lemma OuterKeepsShape(before: seq<seq<Field>>, after: seq<seq<Field>>)
    requires OnlyMarksAdded(before, after, false) && NoneMarked(before, true)
    ensures SameDims(before, after) && NoneMarked(after, true)
  {
    forall y, x | 0 <= y < |after| && 0 <= x < |after[y]|
      ensures !after[y][x].inner
    {
      assert after[y][x] == before[y][x] || after[y][x] == Mark(before[y][x], false);
    }
  }

  /** The tiles of `Maze::new`: the parsed text with `startChar`'s tile at the start. */
  function StartFields(input: string, startChar: char): seq<seq<Field>>
    requires IsMazeText(input) && FindStartCoords(input).Some? && IsFieldChar(startChar)
  {
    var s := FindStartCoords(input).value;
    var parsed := ParseFields(input);
    parsed[s.y := parsed[s.y][s.x := ParseField(startChar)]]
  }

  /**
   * The first two stages of `run_private` as a value: the loop filled by `pooping_hamster`
   * and then the outside flooded from the top-left tile, or None where the walker panics.
   */
  function Outside(input: string, startChar: char): Option<seq<seq<Field>>>
    requires IsMazeText(input) && FindStartCoords(input).Some? && IsFieldChar(startChar)
  {
    match Poop(StartFields(input, startChar), FindStartCoords(input).value, Left)
    case None => None
    case Some(filled) => Some(FloodFrom(filled.0, Coords(0, 0), false))
  }

  /**
   * The last two stages of `run_private` as a value: search from `start` for the inside
   * hand, then flood the inside round the loop from the tile found.
   */
  function FloodInsideSpec(fields: seq<seq<Field>>, start: Coords, fuel: nat): (Lap, seq<seq<Field>>) {
    match FindInner(fields, start, Left, fuel)
    case SearchPanicked => (LapPanicked, fields)
    case SearchOutOfFuel => (LapOutOfFuel, fields)
    case Found(p, d, side) => FloodLap(fields, p, d, side, fuel)
  }

  /** `run_private` as a value: the outcome and the tiles at the end. */
  function RunSpec(input: string, startChar: char, fuel: nat): (Answer, seq<seq<Field>>)
    requires IsMazeText(input) && FindStartCoords(input).Some? && IsFieldChar(startChar)
  {
    match Outside(input, startChar)
    case None => (RunPanicked, StartFields(input, startChar))
    case Some(outside) =>
      var (lap, final) := FloodInsideSpec(outside, FindStartCoords(input).value, fuel);
      match lap
      case Completed => (Counted(Sum(final, InnerWeight)), final)
      case LapPanicked => (RunPanicked, final)
      case LapOutOfFuel => (RunOutOfFuel, final)
  }

  /** The maze as parsed has the shape of the text and no inside mark. */
  lemma StartFieldsShape(input: string, startChar: char)
    requires IsMazeText(input) && FindStartCoords(input).Some? && IsFieldChar(startChar)
    ensures SameDims(ParseFields(input), StartFields(input, startChar))
    ensures NoneMarked(StartFields(input, startChar), true)
  {
  }

  /** The filled and outside-flooded maze has the shape of the text and no inside mark. */
  lemma OutsideShape(input: string, startChar: char)
    requires IsMazeText(input) && FindStartCoords(input).Some? && IsFieldChar(startChar)
    requires Outside(input, startChar).Some?
    ensures SameDims(ParseFields(input), Outside(input, startChar).value)
    ensures NoneMarked(Outside(input, startChar).value, true)
  {
    var fields0 := StartFields(input, startChar);
    var start := FindStartCoords(input).value;
    StartFieldsShape(input, startChar);
    PoopFillsTrail(fields0, start, Left);
    var filled := Poop(fields0, start, Left).value.0;
    FilledKeepsShape(fields0, filled);
    FloodFromMeaning(filled, Coords(0, 0), false);
    OuterKeepsShape(filled, Outside(input, startChar).value);
  }

  /** Two changes that keep the shape keep it together. */
  lemma SameDimsTransitive(a: seq<seq<Field>>, b: seq<seq<Field>>, c: seq<seq<Field>>)
    requires SameDims(a, b) && SameDims(b, c)
    ensures SameDims(a, c)
  {
    forall y | 0 <= y < |a|
      ensures |a[y]| == |c[y]|
    {
      assert |b[y]| == |c[y]|;
    }
  }

  /**
   * The search found a tile of the loop with its inside hand, and `trail` is a lap from
   * that tile along the pipes of `walks` back to it, every state of it flanked in `fields`.
   */
  predicate LapClosed(walks: seq<seq<Field>>, fields: seq<seq<Field>>, search: Search, trail: seq<(Coords, Direction)>) {
    search.Found? &&
    |trail| >= 1 && Follows(walks, (search.position, search.direction), trail[0]) &&
    trail[|trail| - 1].0 == search.position && Lapped(walks, fields, trail, search.position, search.side)
  }

  /**
   * What a completed flood of the inside means: the search found a tile of the loop with
   * its inside hand, and the flood round the loop completed a lap from that tile back to
   * it, adding only inside marks and none on the loop, and leaving every tile passed
   * flanked.
   */
  lemma FloodInsideMeaning(fields: seq<seq<Field>>, start: Coords, fuel: nat) returns (trail: seq<(Coords, Direction)>)
    ensures var res := FloodInsideSpec(fields, start, fuel);
      var search := FindInner(fields, start, Left, fuel);
      OnlyMarksAdded(fields, res.1, true) && (InnerOffLoop(fields) ==> InnerOffLoop(res.1)) &&
      (res.0.Completed? ==> LapClosed(fields, res.1, search, trail))
  {
    trail := [];
    assert OnlyMarksAdded(fields, fields, true);
    var search := FindInner(fields, start, Left, fuel);
    if search.Found? {
      trail := FloodLapMeaning(fields, search.position, search.direction, search.side, fuel);
    }
  }

  /**
   * What a count of `run_private` means: the loop was filled and the outside flooded
   * (`Outside`), the search found a tile of the loop with its inside hand, and the flood
   * round the loop completed a lap from that tile back to it, adding only inside marks and
   * leaving every tile passed flanked. The count is the number of inside tiles at the end,
   * none of them on the loop, and at most the number of tiles of the text.
   */
  lemma RunSpecMeaning(input: string, startChar: char, fuel: nat) returns (trail: seq<(Coords, Direction)>)
    requires IsMazeText(input) && FindStartCoords(input).Some? && IsFieldChar(startChar)
    ensures var res := RunSpec(input, startChar, fuel);
      res.0.Counted? ==>
        Outside(input, startChar).Some? &&
        var outside := Outside(input, startChar).value;
        var search := FindInner(outside, FindStartCoords(input).value, Left, fuel);
        OnlyMarksAdded(outside, res.1, true) && SameDims(ParseFields(input), res.1) && InnerOffLoop(res.1) &&
        res.0.n == Sum(res.1, InnerWeight) && res.0.n <= Cells(ParseFields(input)) &&
        LapClosed(outside, res.1, search, trail)
  {
    trail := [];
    RunSpecCompleted(input, startChar, fuel);
    if RunSpec(input, startChar, fuel).0.Counted? {
      var outside := Outside(input, startChar).value;
      var start := FindStartCoords(input).value;
      var final := FloodInsideSpec(outside, start, fuel).1;
      assert SameDims(ParseFields(input), outside) && InnerOffLoop(outside) by {
        OutsideShape(input, startChar);
      }
      trail := FloodInsideMeaning(outside, start, fuel);
      assert SameDims(ParseFields(input), final) && Sum(final, InnerWeight) <= Cells(ParseFields(input)) by {
        SameDimsTransitive(ParseFields(input), outside, final);
        SumBounded(final, InnerWeight, 1);
        SameDimsCells(ParseFields(input), final);
      }
    }
  }

  /** `run_private` counts only after a completed lap round the flooded maze; the count is that of its end. */
  lemma RunSpecCompleted(input: string, startChar: char, fuel: nat)
    requires IsMazeText(input) && FindStartCoords(input).Some? && IsFieldChar(startChar)
    ensures RunSpec(input, startChar, fuel).0.Counted? ==>
      Outside(input, startChar).Some? &&
      var res := FloodInsideSpec(Outside(input, startChar).value, FindStartCoords(input).value, fuel);
      res.0.Completed? && RunSpec(input, startChar, fuel) == (Counted(Sum(res.1, InnerWeight)), res.1)
  {
  }

  /** A count is that of the inside tiles of a maze of the input's shape, none on the loop. */
  lemma RunSpecCounted(input: string, startChar: char, fuel: nat)
    requires IsMazeText(input) && FindStartCoords(input).Some? && IsFieldChar(startChar)
    ensures var (r, final) := RunSpec(input, startChar, fuel);
      r.Counted? ==>
        SameDims(ParseFields(input), final) && r.n == Sum(final, InnerWeight) && r.n <= Cells(final) &&
        InnerOffLoop(final)
  {
    var trail := RunSpecMeaning(input, startChar, fuel);
    SumBounded(RunSpec(input, startChar, fuel).1, InnerWeight, 1);
  }

  /**
   * The first two stages of `run_private`: fill the loop and flood the outside. Reports
   * false where the source panics; otherwise the maze is Poop's filled loop flooded from
   * the top-left tile. When no tile was inside, none is yet, and the maze keeps its shape.
   */
  method FillAndFloodOutside(maze: Maze) returns (ok: bool)
    modifies maze
    ensures maze.start == old(maze.start)
    ensures ok <==> Poop(old(maze.fields), old(maze.start), Left).Some?
    ensures ok ==> maze.fields == FloodFrom(Poop(old(maze.fields), old(maze.start), Left).value.0, Coords(0, 0), false)
    ensures ok && NoneMarked(old(maze.fields), true) ==> SameDims(old(maze.fields), maze.fields) && NoneMarked(maze.fields, true)
  {
    ghost var fields0 := maze.fields;
    ok := PoopingHamster(maze);
    if !ok {
      return;
    }
    PoopFillsTrail(fields0, old(maze.start), Left);
    ghost var fields1 := maze.fields;
    FloodOuter(maze);
    if NoneMarked(fields0, true) {
      FilledKeepsShape(fields0, fields1);
      OuterKeepsShape(fields1, maze.fields);
    }
  }

  /**
   * The last two stages of `run_private`: find the inside hand and flood the inside round
   * the loop. The outcome is that of `FloodInsideSpec`, and unless the walk panicked the
   * maze is its tiles. The maze keeps its shape and no inside mark lands on the loop.
   */
  method FloodInside(maze: Maze, fuel: nat) returns (lap: Lap)
    modifies maze
    ensures maze.start == old(maze.start)
    ensures lap == FloodInsideSpec(old(maze.fields), old(maze.start), fuel).0
    ensures maze.fields == FloodInsideSpec(old(maze.fields), old(maze.start), fuel).1
    ensures SameDims(old(maze.fields), maze.fields)
    ensures InnerOffLoop(old(maze.fields)) ==> InnerOffLoop(maze.fields)
  {
    var search := FindInnerDirectionHamster(maze, fuel);
    if search.SearchPanicked? {
      return LapPanicked;
    } else if search.SearchOutOfFuel? {
      return LapOutOfFuel;
    }
    ghost var trail;
    lap, trail := FloodingHamster(maze, search.position, search.direction, search.side, fuel);
  }

  /**
   * `run_private`: parse with `startChar` at the start, fill the loop, flood the outside,
   * find the inside hand, flood the inside round the loop, and count the inside tiles.
   * The outcome is that of `RunSpec`, and on a count `final` is its tiles: the number of
   * inside tiles of that maze, which has the shape of the input, and none of them is on
   * the loop.
   */
  method RunPrivate(input: string, startChar: char, fuel: nat) returns (r: Answer, ghost final: seq<seq<Field>>)
    requires IsMazeText(input) && FindStartCoords(input).Some? && IsFieldChar(startChar)
    ensures r == RunSpec(input, startChar, fuel).0
    ensures r.Counted? ==> final == RunSpec(input, startChar, fuel).1
    ensures r.Counted? ==> SameDims(ParseFields(input), final)
    ensures r.Counted? ==> r.n == Sum(final, InnerWeight) && r.n <= Cells(final) && InnerOffLoop(final)
  {
    var maze := new Maze.New(input, startChar);
    var ok := FillAndFloodOutside(maze);
    final := maze.fields;
    if !ok {
      return RunPanicked, final;
    }
    var lap := FloodInside(maze, fuel);
    final := maze.fields;
    if lap.LapPanicked? {
      return RunPanicked, final;
    } else if lap.LapOutOfFuel? {
      return RunOutOfFuel, final;
    }
    RunSpecCounted(input, startChar, fuel);
    return Counted(Sum(maze.fields, InnerWeight)), final;
  }

  /**
   * `run`: `run_private` with a horizontal pipe under the start. The outcome is that of
   * `RunSpec` on the text with '-' under the start; a count is the number of tiles marked
   * inside in its final maze `final`, none of them on the loop, and at most the number of
   * tiles of the input.
   */
  method Run(input: string, fuel: nat) returns (r: Answer, ghost final: seq<seq<Field>>)
    requires IsMazeText(input) && FindStartCoords(input).Some?
    ensures r == RunSpec(input, '-', fuel).0
    ensures r.Counted? ==> final == RunSpec(input, '-', fuel).1
    ensures r.Counted? ==> SameDims(ParseFields(input), final)
    ensures r.Counted? ==> r.n == Sum(final, InnerWeight) && InnerOffLoop(final)
    ensures r.Counted? ==> r.n <= Cells(ParseFields(input))
  {
    r, final := RunPrivate(input, '-', fuel);
    if r.Counted? {
      SameDimsCells(ParseFields(input), final);
    }
  }

  lemma {:induction false} SameDimsCells(a: seq<seq<Field>>, b: seq<seq<Field>>)
    requires SameDims(a, b)
    ensures Cells(a) == Cells(b)
    decreases |a|
  {
    if a != [] {
      SameDimsCells(a[1..], b[1..]);
    }
  }
}
