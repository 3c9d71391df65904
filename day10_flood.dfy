/**
 * Day 10, part two: the flood fill. Starting from one tile, a stack of positions marks
 * tiles as inside (or outside) the loop, spreading in the four directions and stopping
 * at the edge, at tiles already marked with the same kind and at full pipes.
 */
module Day10Flood {
  import opened Wrappers
  import opened Grid
  import opened GridSum
  import opened Day10Maze

  /** `is_inner` / `is_outer`, chosen by `inner`. */
  predicate Marked(f: Field, inner: bool) {
    if inner then f.inner else f.outer
  }

  /** `mark_inner` / `mark_outer`. */
  function Mark(f: Field, inner: bool): Field {
    if inner then f.(inner := true) else f.(outer := true)
  }

  /** A full pipe: the walker's trail, which floods do not cross. */
  predicate Blocked(f: Field) {
    f.pipe.Some? && f.pipe.value.full
  }

  function At(fields: seq<seq<Field>>, c: Coords): Field
    requires InBounds(fields, c)
  {
    fields[c.y][c.x]
  }

  /** The flood takes the tile at `c`: on the map, not yet marked with this kind, not a full pipe. */
  predicate Takes(fields: seq<seq<Field>>, c: Coords, inner: bool) {
    InBounds(fields, c) && !Marked(At(fields, c), inner) && !Blocked(At(fields, c))
  }

  function SetMark(fields: seq<seq<Field>>, c: Coords, inner: bool): seq<seq<Field>>
    requires InBounds(fields, c)
  {
    fields[c.y := fields[c.y][c.x := Mark(fields[c.y][c.x], inner)]]
  }

  predicate SameDims(a: seq<seq<Field>>, b: seq<seq<Field>>) {
    |a| == |b| && forall y :: 0 <= y < |a| ==> |a[y]| == |b[y]|
  }

  /** Every tile is as before or has gained the mark of kind `inner`: nothing else changes. */
  predicate OnlyMarksAdded(before: seq<seq<Field>>, after: seq<seq<Field>>, inner: bool) {
    SameDims(before, after) &&
    forall y, x :: 0 <= y < |before| && 0 <= x < |before[y]| ==>
      after[y][x] == before[y][x] || after[y][x] == Mark(before[y][x], inner)
  }

  /** The tile at `c` gained its mark between `before` and `after`. */
  predicate NewlyMarked(before: seq<seq<Field>>, after: seq<seq<Field>>, c: Coords, inner: bool) {
    InBounds(before, c) && InBounds(after, c) && !Marked(At(before, c), inner) && Marked(At(after, c), inner)
  }

  /** The positions pushed after marking `c`: the steps up, down, left and right that exist. */
  function Neighbours(c: Coords): (r: seq<Coords>)
    ensures forall d :: MoveIntoDirection(c, d).Some? ==> MoveIntoDirection(c, d).value in r
    ensures forall i :: 0 <= i < |r| ==> Distance(c, r[i]) == 1
  {
    var up := MoveIntoDirection(c, Up);
    var down := MoveIntoDirection(c, Down);
    var left := MoveIntoDirection(c, Left);
    var right := MoveIntoDirection(c, Right);
    (if up.Some? then [up.value] else []) + (if down.Some? then [down.value] else []) +
    (if left.Some? then [left.value] else []) + (if right.Some? then [right.value] else [])
  }

  /**
   * Each tile after the first is next to an earlier one, and the first is the seed: the
   * tiles are connected to the seed through one another.
   */
  predicate Chain(order: seq<Coords>, start: Coords) {
    (|order| > 0 ==> order[0] == start) &&
    forall i :: 0 < i < |order| ==> exists j :: 0 <= j < i && Distance(order[j], order[i]) == 1
  }

  /** A neighbour `n` of a marked tile is taken care of: off the map, marked, full, or still to visit. */
  predicate Settled(fields: seq<seq<Field>>, n: Coords, inner: bool, stack: seq<Coords>) {
    !InBounds(fields, n) || Marked(At(fields, n), inner) || Blocked(At(fields, n)) || n in stack
  }

  /** Every neighbour of every newly marked tile is settled. */
  predicate Closed(fields: seq<seq<Field>>, order: seq<Coords>, inner: bool, stack: seq<Coords>) {
    forall i, d :: 0 <= i < |order| && MoveIntoDirection(order[i], d).Some? ==>
      Settled(fields, MoveIntoDirection(order[i], d).value, inner, stack)
  }

  /** The flood loop's invariant, with `order` the tiles it has marked, in marking order. */
  ghost predicate FloodInv(start0: seq<seq<Field>>, fields: seq<seq<Field>>, inner: bool, seed: Coords,
                     stack: seq<Coords>, order: seq<Coords>)
  {
    OnlyMarksAdded(start0, fields, inner) &&
    (forall c :: NewlyMarked(start0, fields, c, inner) <==> c in order) &&
    (forall i :: 0 <= i < |order| ==> InBounds(start0, order[i]) && !Blocked(At(start0, order[i]))) &&
    Chain(order, seed) &&
    (forall k :: 0 <= k < |stack| ==>
      (|order| == 0 ==> stack[k] == seed) &&
      (|order| > 0 ==> exists j :: 0 <= j < |order| && Distance(order[j], stack[k]) == 1)) &&
    Closed(fields, order, inner, stack) &&
    (|order| == 0 ==> fields == start0 && (stack == [] || stack == [seed]))
  }

  function UnmarkedWeight(inner: bool): Field -> nat {
    (f: Field) => if Marked(f, inner) then 0 else 1
  }

  /** The number of tiles not yet marked with this kind: it falls with every mark. */
  function Unmarked(fields: seq<seq<Field>>, inner: bool): nat {
    Sum(fields, UnmarkedWeight(inner))
  }

  lemma SetMarkLowersUnmarked(fields: seq<seq<Field>>, c: Coords, inner: bool)
    requires InBounds(fields, c) && !Marked(At(fields, c), inner)
    ensures Unmarked(SetMark(fields, c, inner), inner) < Unmarked(fields, inner)
  {
    SumUpdate(fields, c.y, c.x, Mark(fields[c.y][c.x], inner), UnmarkedWeight(inner));
  }

  /** A popped position that is skipped keeps the invariant with the shorter stack. */
  lemma SkipKeepsInv(start0: seq<seq<Field>>, fields: seq<seq<Field>>, inner: bool, seed: Coords,
                     stack: seq<Coords>, order: seq<Coords>)
    requires stack != [] && FloodInv(start0, fields, inner, seed, stack, order)
    requires !Takes(fields, stack[|stack| - 1], inner)
    ensures FloodInv(start0, fields, inner, seed, stack[..|stack| - 1], order)
  {
    var pos := stack[|stack| - 1];
    var rest := stack[..|stack| - 1];
    assert stack == rest + [pos];
    forall i, d | 0 <= i < |order| && MoveIntoDirection(order[i], d).Some?
      ensures Settled(fields, MoveIntoDirection(order[i], d).value, inner, rest)
    {
      var n := MoveIntoDirection(order[i], d).value;
      assert Settled(fields, n, inner, stack);
    }
    if |order| == 0 {
      assert rest == [];
    }
  }

  /** Marking a taken tile keeps "only marks added", and makes it the one new member of the order. */
  lemma TakeKeepsMarks(start0: seq<seq<Field>>, fields: seq<seq<Field>>, inner: bool, pos: Coords, order: seq<Coords>)
    requires OnlyMarksAdded(start0, fields, inner)
    requires forall c :: NewlyMarked(start0, fields, c, inner) <==> c in order
    requires forall i :: 0 <= i < |order| ==> InBounds(start0, order[i]) && !Blocked(At(start0, order[i]))
    requires Takes(fields, pos, inner)
    ensures OnlyMarksAdded(start0, SetMark(fields, pos, inner), inner)
    ensures forall c :: NewlyMarked(start0, SetMark(fields, pos, inner), c, inner) <==> c in order + [pos]
    ensures forall i :: 0 <= i < |order + [pos]| ==> InBounds(start0, (order + [pos])[i]) && !Blocked(At(start0, (order + [pos])[i]))
  {
    var after := SetMark(fields, pos, inner);
    var order' := order + [pos];
    assert At(fields, pos) == At(start0, pos) by {
      assert fields[pos.y][pos.x] == start0[pos.y][pos.x] || fields[pos.y][pos.x] == Mark(start0[pos.y][pos.x], inner);
    }
    forall y, x | 0 <= y < |start0| && 0 <= x < |start0[y]|
      ensures after[y][x] == start0[y][x] || after[y][x] == Mark(start0[y][x], inner)
    {
      if (y, x) != (pos.y, pos.x) {
        assert after[y][x] == fields[y][x];
      }
    }
    forall c
      ensures NewlyMarked(start0, after, c, inner) <==> c in order'
    {
      if c != pos && InBounds(fields, c) {
        assert At(after, c) == At(fields, c);
      }
    }
  }

  /** The taken tile extends the chain, and the stack stays next to the chain. */
  lemma TakeKeepsChain(seed: Coords, stack: seq<Coords>, order: seq<Coords>)
    requires stack != [] && Chain(order, seed)
    requires forall k :: 0 <= k < |stack| ==>
      (|order| == 0 ==> stack[k] == seed) &&
      (|order| > 0 ==> exists j :: 0 <= j < |order| && Distance(order[j], stack[k]) == 1)
    requires |order| == 0 ==> stack == [seed]
    ensures var pos := stack[|stack| - 1]; var stack' := stack[..|stack| - 1] + Neighbours(pos); var order' := order + [pos];
      Chain(order', seed) &&
      forall k :: 0 <= k < |stack'| ==> exists j :: 0 <= j < |order'| && Distance(order'[j], stack'[k]) == 1
  {
    var pos := stack[|stack| - 1];
    var rest := stack[..|stack| - 1];
    var stack' := rest + Neighbours(pos);
    var order' := order + [pos];
    if |order| > 0 {
      var j :| 0 <= j < |order| && Distance(order[j], pos) == 1;
      assert order'[j] == order[j];
    }
    forall i | 0 < i < |order'|
      ensures exists j :: 0 <= j < i && Distance(order'[j], order'[i]) == 1
    {
      if i < |order| {
        var j' :| 0 <= j' < i && Distance(order[j'], order[i]) == 1;
        assert order'[j'] == order[j'];
      } else {
        var j :| 0 <= j < |order| && Distance(order[j], pos) == 1;
        assert order'[j] == order[j];
      }
    }
    forall k | 0 <= k < |stack'|
      ensures exists j :: 0 <= j < |order'| && Distance(order'[j], stack'[k]) == 1
    {
      if k < |rest| {
        assert stack'[k] == stack[k];
        var j :| 0 <= j < |order| && Distance(order[j], stack[k]) == 1;
        assert order'[j] == order[j];
      } else {
        assert stack'[k] == Neighbours(pos)[k - |rest|];
        assert Distance(order'[|order|], stack'[k]) == 1;
      }
    }
  }

  /** After marking the taken tile and pushing its neighbours, every settled neighbour stays settled. */
  lemma TakeKeepsClosed(fields: seq<seq<Field>>, inner: bool, stack: seq<Coords>, order: seq<Coords>)
    requires stack != [] && Closed(fields, order, inner, stack)
    requires InBounds(fields, stack[|stack| - 1])
    ensures var pos := stack[|stack| - 1];
      Closed(SetMark(fields, pos, inner), order + [pos], inner, stack[..|stack| - 1] + Neighbours(pos))
  {
    var pos := stack[|stack| - 1];
    var rest := stack[..|stack| - 1];
    var after := SetMark(fields, pos, inner);
    var stack' := rest + Neighbours(pos);
    var order' := order + [pos];
    assert stack == rest + [pos];
    forall i, d | 0 <= i < |order'| && MoveIntoDirection(order'[i], d).Some?
      ensures Settled(after, MoveIntoDirection(order'[i], d).value, inner, stack')
    {
      var n := MoveIntoDirection(order'[i], d).value;
      if i == |order| {
        assert n in Neighbours(pos);
      } else if n != pos {
        assert order'[i] == order[i];
        assert Settled(fields, n, inner, stack);
        if InBounds(fields, n) {
          assert At(after, n) == At(fields, n);
        }
      }
    }
  }

  /** A popped position that is taken is marked, its neighbours pushed, and it joins the order. */
  lemma TakeKeepsInv(start0: seq<seq<Field>>, fields: seq<seq<Field>>, inner: bool, seed: Coords,
                     stack: seq<Coords>, order: seq<Coords>)
    requires stack != [] && FloodInv(start0, fields, inner, seed, stack, order)
    requires Takes(fields, stack[|stack| - 1], inner)
    ensures var pos := stack[|stack| - 1];
      FloodInv(start0, SetMark(fields, pos, inner), inner, seed, stack[..|stack| - 1] + Neighbours(pos), order + [pos])
  {
    var pos := stack[|stack| - 1];
    TakeKeepsMarks(start0, fields, inner, pos, order);
    TakeKeepsChain(seed, stack, order);
    TakeKeepsClosed(fields, inner, stack, order);
  }

  /**
   * The flood loop as a value: pop the last position, drop it unless the flood takes it,
   * and otherwise mark it and push its neighbours.
   */
  function FloodRun(fields: seq<seq<Field>>, stack: seq<Coords>, inner: bool): seq<seq<Field>>
    decreases Unmarked(fields, inner), |stack|
  {
    if stack == [] then fields
    else
      var pos := stack[|stack| - 1];
      if !Takes(fields, pos, inner) then FloodRun(fields, stack[..|stack| - 1], inner)
      else
        SetMarkLowersUnmarked(fields, pos, inner);
        FloodRun(SetMark(fields, pos, inner), stack[..|stack| - 1] + Neighbours(pos), inner)
  }

  /** `flood` from `start` as a value. */
  function FloodFrom(fields: seq<seq<Field>>, start: Coords, inner: bool): seq<seq<Field>> {
    FloodRun(fields, [start], inner)
  }

  /** The flood loop keeps its invariant to the end, where some order lists what it marked. */
  lemma {:induction false} FloodRunKeepsInv(start0: seq<seq<Field>>, fields: seq<seq<Field>>, inner: bool, seed: Coords,
                                            stack: seq<Coords>, order: seq<Coords>)
    returns (order': seq<Coords>)
    requires FloodInv(start0, fields, inner, seed, stack, order)
    requires Takes(start0, seed, inner) ==> (stack == [seed] && order == []) || (|order| > 0 && order[0] == seed)
    requires !Takes(start0, seed, inner) ==> order == []
    ensures FloodInv(start0, FloodRun(fields, stack, inner), inner, seed, [], order')
    ensures Takes(start0, seed, inner) ==> |order'| > 0 && order'[0] == seed
    ensures !Takes(start0, seed, inner) ==> order' == []
    decreases Unmarked(fields, inner), |stack|
  {
    if stack == [] {
      return order;
    }
    var pos := stack[|stack| - 1];
    if !Takes(fields, pos, inner) {
      SkipKeepsInv(start0, fields, inner, seed, stack, order);
      order' := FloodRunKeepsInv(start0, fields, inner, seed, stack[..|stack| - 1], order);
    } else {
      TakeKeepsInv(start0, fields, inner, seed, stack, order);
      SetMarkLowersUnmarked(fields, pos, inner);
      order' := FloodRunKeepsInv(start0, SetMark(fields, pos, inner), inner, seed,
                                 stack[..|stack| - 1] + Neighbours(pos), order + [pos]);
    }
  }

  /**
   * What `flood` from `seed` does: it only adds marks of its kind; it marks the seed when
   * the seed is to be taken and changes nothing otherwise; it marks no full pipe; every
   * neighbour of a marked tile ends up marked, full or off the map; and the marked tiles
   * are connected to the seed through one another.
   */
  lemma FloodFromMeaning(fields: seq<seq<Field>>, seed: Coords, inner: bool)
    ensures var after := FloodFrom(fields, seed, inner);
      OnlyMarksAdded(fields, after, inner) &&
      (Takes(fields, seed, inner) ==> NewlyMarked(fields, after, seed, inner)) &&
      (!Takes(fields, seed, inner) ==> after == fields) &&
      (forall c :: NewlyMarked(fields, after, c, inner) ==> !Blocked(At(fields, c))) &&
      (forall c, d :: NewlyMarked(fields, after, c, inner) && MoveIntoDirection(c, d).Some? ==>
        Settled(after, MoveIntoDirection(c, d).value, inner, [])) &&
      exists order :: Chain(order, seed) && forall c :: NewlyMarked(fields, after, c, inner) <==> c in order
  {
    var after := FloodFrom(fields, seed, inner);
    assert FloodInv(fields, fields, inner, seed, [seed], []);
    var order := FloodRunKeepsInv(fields, fields, inner, seed, [seed], []);
    forall c | NewlyMarked(fields, after, c, inner)
      ensures !Blocked(At(fields, c))
    {
      var i :| 0 <= i < |order| && order[i] == c;
    }
    forall c, d | NewlyMarked(fields, after, c, inner) && MoveIntoDirection(c, d).Some?
      ensures Settled(after, MoveIntoDirection(c, d).value, inner, [])
    {
      var i :| 0 <= i < |order| && order[i] == c;
    }
  }

  /** The pushes after a tile is marked: up, down, left, right, each where the step exists. */
  method PushNeighbours(stack: seq<Coords>, pos: Coords) returns (r: seq<Coords>)
    ensures r == stack + Neighbours(pos)
  {
    r := stack;
    var up := MoveIntoDirection(pos, Up);
    if up.Some? {
      r := r + [up.value];
    }
    var down := MoveIntoDirection(pos, Down);
    if down.Some? {
      r := r + [down.value];
    }
    var left := MoveIntoDirection(pos, Left);
    if left.Some? {
      r := r + [left.value];
    }
    var right := MoveIntoDirection(pos, Right);
    if right.Some? {
      r := r + [right.value];
    }
  }

  /**
   * `flood`: mark, with the kind `inner`, the tiles reachable from `start` through tiles
   * that are on the map, not yet marked with that kind and not full pipes.
   * Only marks of that kind are added; the tiles newly marked are listed by `order`, each
   * after the first next to an earlier one and the first being `start`, and none of them a
   * full pipe; every neighbour of a newly marked tile ends up marked, full or off the map.
   */
  method Flood(maze: Maze, start: Coords, inner: bool) returns (ghost order: seq<Coords>)
    modifies maze
    ensures maze.start == old(maze.start)
    ensures OnlyMarksAdded(old(maze.fields), maze.fields, inner)
    ensures forall c :: NewlyMarked(old(maze.fields), maze.fields, c, inner) <==> c in order
    ensures forall i :: 0 <= i < |order| ==> InBounds(old(maze.fields), order[i]) && !Blocked(At(old(maze.fields), order[i]))
    ensures Chain(order, start)
    ensures forall i, d :: 0 <= i < |order| && MoveIntoDirection(order[i], d).Some? ==>
      Settled(maze.fields, MoveIntoDirection(order[i], d).value, inner, [])
    ensures Takes(old(maze.fields), start, inner) ==> NewlyMarked(old(maze.fields), maze.fields, start, inner)
    ensures maze.fields == FloodFrom(old(maze.fields), start, inner)
  {
    ghost var start0 := maze.fields;
    var stack := [start];
    order := [];
    while stack != []
      invariant maze.start == old(maze.start)
      invariant FloodInv(start0, maze.fields, inner, start, stack, order)
      invariant Takes(start0, start, inner) ==> (stack == [start] && order == []) || (|order| > 0 && order[0] == start)
      invariant FloodRun(maze.fields, stack, inner) == FloodFrom(start0, start, inner)
      decreases Unmarked(maze.fields, inner), |stack|
    {
      stack, order := FloodStep(maze, start0, start, inner, stack, order);
    }
  }

  /** One round of the flood: pop a tile, and mark it and push its neighbours if it is to be taken. */
  method FloodStep(maze: Maze, ghost start0: seq<seq<Field>>, ghost start: Coords, inner: bool, stack: seq<Coords>, ghost order: seq<Coords>)
    returns (stack': seq<Coords>, ghost order': seq<Coords>)
    requires stack != [] && FloodInv(start0, maze.fields, inner, start, stack, order)
    requires Takes(start0, start, inner) ==> (stack == [start] && order == []) || (|order| > 0 && order[0] == start)
    modifies maze
    ensures maze.start == old(maze.start)
    ensures FloodInv(start0, maze.fields, inner, start, stack', order')
    ensures Takes(start0, start, inner) ==> (stack' == [start] && order' == []) || (|order'| > 0 && order'[0] == start)
    ensures FloodRun(maze.fields, stack', inner) == FloodRun(old(maze.fields), stack, inner)
    ensures Unmarked(maze.fields, inner) < old(Unmarked(maze.fields, inner)) ||
      (Unmarked(maze.fields, inner) == old(Unmarked(maze.fields, inner)) && |stack'| < |stack|)
  {
    var pos := stack[|stack| - 1];
    if !Takes(maze.fields, pos, inner) {
      SkipKeepsInv(start0, maze.fields, inner, start, stack, order);
      return stack[..|stack| - 1], order;
    }
    TakeKeepsInv(start0, maze.fields, inner, start, stack, order);
    SetMarkLowersUnmarked(maze.fields, pos, inner);
    var field := maze.fields[pos.y][pos.x];
    maze.fields := maze.fields[pos.y := maze.fields[pos.y][pos.x := Mark(field, inner)]];
    stack' := PushNeighbours(stack[..|stack| - 1], pos);
    order' := order + [pos];
  }
}
