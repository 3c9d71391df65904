/**
 * Day 10, part one: two walkers leave the start tile in opposite directions and walk in
 * lockstep until they stand on the same tile; the answer is the number of steps.
 */
module Day10Part1 {
  import opened Wrappers
  import opened Grid
  import opened Day10Maze

  /** A walker's state as a value. */
  datatype Walker = Walker(position: Coords, direction: Direction)

  /** One `walk_maze`, or None where it would panic. */
  function Walk(fields: seq<seq<Field>>, w: Walker): Option<Walker> {
    if CanWalk(fields, w.position, w.direction) then
      var (p, d) := WalkSpec(fields, w.position, w.direction);
      Some(Walker(p, d))
    else None
  }

  /** `n` walks in a row, or None if one of them would panic. */
  function Walks(fields: seq<seq<Field>>, w: Walker, n: nat): Option<Walker>
    decreases n
  {
    if n == 0 then Some(w)
    else match Walk(fields, w)
      case None => None
      case Some(v) => Walks(fields, v, n - 1)
  }

  /**
   * How `run` ends: the walkers met after `steps` rounds, one of them would panic, or the
   * step budget ran out (the source's loop has no bound).
   */
  datatype Outcome = Met(steps: nat) | Panicked | OutOfFuel

  /**
   * The lockstep loop from `steps` rounds on, with `fuel` rounds left: each round walks
   * walker `a` and then walker `b`, and stops when they stand on the same tile.
   */
  function Lockstep(fields: seq<seq<Field>>, a: Walker, b: Walker, steps: nat, fuel: nat): Outcome
    decreases fuel
  {
    if fuel == 0 then OutOfFuel
    else match Walk(fields, a)
      case None => Panicked
      case Some(a') =>
        match Walk(fields, b)
        case None => Panicked
        case Some(b') =>
          if a'.position == b'.position then Met(steps + 1)
          else Lockstep(fields, a', b', steps + 1, fuel - 1)
  }

  /** The walkers have not met in rounds 1..n (and could walk that far). */
  predicate Apart(fields: seq<seq<Field>>, a: Walker, b: Walker, n: nat) {
    forall k :: 1 <= k <= n ==>
      Walks(fields, a, k).Some? && Walks(fields, b, k).Some? &&
      Walks(fields, a, k).value.position != Walks(fields, b, k).value.position
  }

  /**
   * A meeting is reported after exactly the number of rounds at which the walkers first
   * stand on the same tile, and running out of fuel means they stayed apart throughout.
   */
  lemma {:induction false} LockstepMeaning(fields: seq<seq<Field>>, a: Walker, b: Walker, steps: nat, fuel: nat)
    ensures Lockstep(fields, a, b, steps, fuel).Met? ==>
      var n := Lockstep(fields, a, b, steps, fuel).steps - steps;
      1 <= n <= fuel &&
      Walks(fields, a, n).Some? && Walks(fields, b, n).Some? &&
      Walks(fields, a, n).value.position == Walks(fields, b, n).value.position &&
      Apart(fields, a, b, n - 1)
    ensures Lockstep(fields, a, b, steps, fuel).OutOfFuel? ==> Apart(fields, a, b, fuel)
    decreases fuel
  {
    if fuel > 0 && Walk(fields, a).Some? && Walk(fields, b).Some? {
      var a' := Walk(fields, a).value;
      var b' := Walk(fields, b).value;
      if a'.position != b'.position {
        LockstepMeaning(fields, a', b', steps + 1, fuel - 1);
        var r := Lockstep(fields, a, b, steps, fuel);
        assert r == Lockstep(fields, a', b', steps + 1, fuel - 1);
        forall k | 2 <= k <= fuel
          ensures Walks(fields, a, k) == Walks(fields, a', k - 1) && Walks(fields, b, k) == Walks(fields, b', k - 1)
        {
        }
        assert Walks(fields, a, 1) == Some(a') && Walks(fields, b, 1) == Some(b');
      } else {
        assert Walks(fields, a, 1) == Some(a') && Walks(fields, b, 1) == Some(b');
      }
    }
  }

  /** The walker objects hold the walker values. */
  function State(h: Hamster): Walker
    reads h
  {
    Walker(h.position, h.direction)
  }

  /** The lockstep loop of `run` on a parsed maze, for at most `fuel` rounds. */
  method WalkInLockstep(maze: Maze, fuel: nat) returns (r: Outcome)
    ensures r == Lockstep(maze.fields, Walker(maze.start, Right), Walker(maze.start, Left), 0, fuel)
  {
    var hamster0 := new Hamster.New(maze.start, Right);
    var hamster1 := new Hamster.New(maze.start, Left);
    var steps := 0;
    while true
      invariant steps <= fuel
      invariant hamster0 != hamster1
      invariant Lockstep(maze.fields, State(hamster0), State(hamster1), steps, fuel - steps) ==
        Lockstep(maze.fields, Walker(maze.start, Right), Walker(maze.start, Left), 0, fuel)
      decreases fuel - steps
    {
      if steps == fuel {
        return OutOfFuel;
      }
      if !CanWalk(maze.fields, hamster0.position, hamster0.direction) {
        return Panicked;
      }
      hamster0.WalkMaze(maze);
      if !CanWalk(maze.fields, hamster1.position, hamster1.direction) {
        return Panicked;
      }
      hamster1.WalkMaze(maze);
      steps := steps + 1;
      if hamster0.position == hamster1.position {
        return Met(steps);
      }
    }
  }

  /**
   * `run`: a maze whose start tile is a horizontal pipe, one walker entering it heading
   * right and one heading left, walked in lockstep until they meet, for at most `fuel`
   * rounds.
   */
  method Run(input: string, fuel: nat) returns (r: Outcome)
    requires IsMazeText(input) && FindStartCoords(input).Some?
    ensures var start := FindStartCoords(input).value; var parsed := ParseFields(input);
      var fields := parsed[start.y := parsed[start.y][start.x := ParseField('-')]];
      r == Lockstep(fields, Walker(start, Right), Walker(start, Left), 0, fuel)
  {
    var maze := new Maze.New(input, '-');
    r := WalkInLockstep(maze, fuel);
  }
}
