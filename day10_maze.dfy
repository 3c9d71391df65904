/**
 * Day 10, part one: a maze of pipes with one start tile, and a walker ("hamster") that
 * follows the pipe it stands in, never turning back the way it came.
 */
module Day10Maze {
  import opened Wrappers
  import opened Text
  import opened Grid

  /** A pipe: its two openings, and whether a walker has filled it. */
  datatype Pipe = Pipe(openings: (Direction, Direction), full: bool)

  /**
   * A tile: its pipe, if any, and the two flood marks (inside or outside the loop) that the
   * flood fill of part two sets.
   */
  datatype Field = Field(pipe: Option<Pipe>, inner: bool, outer: bool)

  predicate IsPipeChar(c: char) {
    c == '|' || c == '-' || c == 'L' || c == 'J' || c == '7' || c == 'F'
  }

  /** `Pipe::from`: the openings of the six pipe glyphs; any other char panics. */
  function ParsePipe(c: char): (p: Pipe)
    requires IsPipeChar(c)
    ensures !p.full && p.openings.0 != p.openings.1
    ensures PipeGlyph(p.openings) == Some(c)
  {
    var openings := match c
      case '|' => (Up, Down)
      case '-' => (Left, Right)
      case 'L' => (Up, Right)
      case 'J' => (Up, Left)
      case '7' => (Left, Down)
      case 'F' => (Right, Down);
    Pipe(openings, false)
  }

  /** The glyph drawing a pair of openings, if a pipe glyph does. */
  function PipeGlyph(openings: (Direction, Direction)): Option<char> {
    match openings
    case (Up, Down) => Some('|')
    case (Left, Right) => Some('-')
    case (Up, Right) => Some('L')
    case (Up, Left) => Some('J')
    case (Left, Down) => Some('7')
    case (Right, Down) => Some('F')
    case _ => None
  }

  predicate IsFieldChar(c: char) {
    c == '.' || c == 'S' || IsPipeChar(c)
  }

  /** `Field::from`: ground and the start tile carry no pipe; every other glyph is a pipe. */
  function ParseField(c: char): (f: Field)
    requires IsFieldChar(c)
    ensures f.pipe.None? <==> c == '.' || c == 'S'
    ensures f.pipe.Some? ==> f.pipe.value == ParsePipe(c)
    ensures !f.inner && !f.outer
  {
    Field(if c == '.' || c == 'S' then None else Some(ParsePipe(c)), false, false)
  }

  /** Every char of every line is a tile glyph: parsing panics otherwise. */
  predicate IsMazeText(s: string) {
    var ls := Lines(s);
    forall y, x :: 0 <= y < |ls| && 0 <= x < |ls[y]| ==> IsFieldChar(ls[y][x])
  }

  /** One row of fields per line, one field per char. */
  function ParseFields(s: string): (fields: seq<seq<Field>>)
    requires IsMazeText(s)
    ensures |fields| == |Lines(s)|
    ensures forall y :: 0 <= y < |fields| ==> |fields[y]| == |Lines(s)[y]|
    ensures forall y, x :: 0 <= y < |fields| && 0 <= x < |fields[y]| ==> fields[y][x] == ParseField(Lines(s)[y][x])
  {
    var ls := Lines(s);
    seq(|ls|, y requires 0 <= y < |ls| =>
      seq(|ls[y]|, x requires 0 <= x < |ls[y]| => ParseField(ls[y][x])))
  }

  /** The first 'S' of the lines from row `y` on, in reading order. */
  function FindStartFrom(ls: seq<string>, y: nat): (r: Option<Coords>)
    requires y <= |ls|
    ensures r.None? <==> forall k :: y <= k < |ls| ==> 'S' !in ls[k]
    ensures r.Some? ==> var c := r.value;
      y <= c.y < |ls| && c.x < |ls[c.y]| && ls[c.y][c.x] == 'S' &&
      'S' !in ls[c.y][..c.x] && forall k :: y <= k < c.y ==> 'S' !in ls[k]
    decreases |ls| - y
  {
    if y == |ls| then None
    else match IndexOf(ls[y], 'S')
      case Some(x) => Some(Coords(x, y))
      case None => FindStartFrom(ls, y + 1)
  }

  /**
   * `Maze::find_start_coords`: the column and line of the first 'S' in reading order,
   * None when there is none.
   */
  function FindStartCoords(s: string): (r: Option<Coords>)
    ensures r.None? <==> forall k :: 0 <= k < |Lines(s)| ==> 'S' !in Lines(s)[k]
    ensures r.Some? ==> var c := r.value; var ls := Lines(s);
      c.y < |ls| && c.x < |ls[c.y]| && ls[c.y][c.x] == 'S' &&
      'S' !in ls[c.y][..c.x] && forall k :: 0 <= k < c.y ==> 'S' !in ls[k]
  {
    FindStartFrom(Lines(s), 0)
  }

  predicate InBounds(fields: seq<seq<Field>>, c: Coords) {
    c.y < |fields| && c.x < |fields[c.y]|
  }

  /**
   * The opening a walker entering in direction `entering` leaves by: the first opening that
   * does not lead straight back.
   */
  function ExitDirection(p: Pipe, entering: Direction): (r: Option<Direction>)
    ensures r.None? <==> p.openings.0 == Opposite(entering) && p.openings.1 == Opposite(entering)
    ensures r.Some? ==> r.value != Opposite(entering)
    ensures r.Some? ==> r.value == (if p.openings.0 != Opposite(entering) then p.openings.0 else p.openings.1)
  {
    if p.openings.0 != Opposite(entering) then Some(p.openings.0)
    else if p.openings.1 != Opposite(entering) then Some(p.openings.1)
    else None
  }

  /**
   * A walker that came in through one of a pipe's openings leaves through the other one:
   * it follows the pipe.
   */
  lemma WalkerFollowsPipe(p: Pipe, entering: Direction)
    requires p.openings.0 != p.openings.1
    requires Opposite(entering) == p.openings.0 || Opposite(entering) == p.openings.1
    ensures ExitDirection(p, entering) == Some(if Opposite(entering) == p.openings.0 then p.openings.1 else p.openings.0)
  {
  }

  /**
   * `walk_maze` does not panic: the tile is on the map and has a pipe, the pipe has a way
   * on, and the step does not leave the top or left edge.
   */
  predicate CanWalk(fields: seq<seq<Field>>, position: Coords, direction: Direction) {
    InBounds(fields, position) &&
    var pipe := fields[position.y][position.x].pipe;
    pipe.Some? && ExitDirection(pipe.value, direction).Some? &&
    MoveIntoDirection(position, ExitDirection(pipe.value, direction).value).Some?
  }

  /** The walker after `walk_maze`: one step through its pipe, facing the way it went. */
  function WalkSpec(fields: seq<seq<Field>>, position: Coords, direction: Direction): (r: (Coords, Direction))
    requires CanWalk(fields, position, direction)
    ensures r.1 != Opposite(direction)
    ensures Distance(position, r.0) == 1
    ensures MoveIntoDirection(position, r.1) == Some(r.0)
  {
    var d := ExitDirection(fields[position.y][position.x].pipe.value, direction).value;
    (MoveIntoDirection(position, d).value, d)
  }

  /** The tiles after the pipe at `c` has been filled, and nothing else changed. */
  function Fill(fields: seq<seq<Field>>, c: Coords): (r: seq<seq<Field>>)
    requires InBounds(fields, c) && fields[c.y][c.x].pipe.Some?
    ensures |r| == |fields| && forall y :: 0 <= y < |r| ==> |r[y]| == |fields[y]|
    ensures r[c.y][c.x].pipe.Some? && r[c.y][c.x].pipe.value.full
    ensures r[c.y][c.x].pipe.value.openings == fields[c.y][c.x].pipe.value.openings
    ensures r[c.y][c.x].inner == fields[c.y][c.x].inner && r[c.y][c.x].outer == fields[c.y][c.x].outer
    ensures forall y, x :: 0 <= y < |r| && 0 <= x < |r[y]| && (y, x) != (c.y, c.x) ==> r[y][x] == fields[y][x]
  {
    var f := fields[c.y][c.x];
    fields[c.y := fields[c.y][c.x := f.(pipe := Some(f.pipe.value.(full := true)))]]
  }

  /**
   * `take_dump` as written: the pipe is copied out of the tile (pipes are `Copy`) and the
   * copy is filled, so the maze comes back unchanged.
   */
  function DumpAsWritten(fields: seq<seq<Field>>, c: Coords): (r: seq<seq<Field>>)
    requires InBounds(fields, c) && fields[c.y][c.x].pipe.Some?
    ensures r == fields
  {
    var copy := fields[c.y][c.x].pipe.value;
    var filledCopy := copy.(full := true);
    fields
  }

  /**
   * The dump as written never fills anything: on a tile whose pipe is not yet full, the pipe
   * stays empty, so a walker that loops until it stands in a full pipe never stops.
   */
  lemma DumpAsWrittenLeavesPipeEmpty(fields: seq<seq<Field>>, c: Coords)
    requires InBounds(fields, c) && fields[c.y][c.x].pipe.Some? && !fields[c.y][c.x].pipe.value.full
    ensures !DumpAsWritten(fields, c)[c.y][c.x].pipe.value.full
    ensures Fill(fields, c)[c.y][c.x].pipe.value.full
  {
  }

  /** `Maze`: the parsed tiles with the start tile replaced, and the start position. */
  class Maze {
    var fields: seq<seq<Field>>
    var start: Coords

    /**
     * `Maze::new`: parse, find the start, and put `startChar`'s tile in its place. Panics
     * (so here: requires) on an unknown glyph or a missing start.
     */
    constructor New(input: string, startChar: char)
      requires IsMazeText(input) && FindStartCoords(input).Some? && IsFieldChar(startChar)
      ensures start == FindStartCoords(input).value && InBounds(fields, start)
      ensures fields == ParseFields(input)[start.y := ParseFields(input)[start.y][start.x := ParseField(startChar)]]
    {
      var parsed := ParseFields(input);
      var s := FindStartCoords(input).value;
      fields := parsed[s.y := parsed[s.y][s.x := ParseField(startChar)]];
      start := s;
    }

    /** `Maze::get_field`: indexing panics off the map. */
    function GetField(c: Coords): (f: Field)
      requires InBounds(fields, c)
      reads this
      ensures f == fields[c.y][c.x]
    {
      fields[c.y][c.x]
    }
  }

  /** Only the start tile differs from the parsed text. */
  lemma NewMazeKeepsOtherTiles(input: string, startChar: char, y: nat, x: nat)
    requires IsMazeText(input) && FindStartCoords(input).Some? && IsFieldChar(startChar)
    requires y < |Lines(input)| && x < |Lines(input)[y]|
    ensures var s := FindStartCoords(input).value; var parsed := ParseFields(input);
      var fields := parsed[s.y := parsed[s.y][s.x := ParseField(startChar)]];
      (Coords(x, y) != s ==> fields[y][x] == ParseField(Lines(input)[y][x])) &&
      (Coords(x, y) == s ==> Lines(input)[y][x] == 'S' && fields[y][x] == ParseField(startChar))
  {
  }

  /** `Hamster`: a walker with a position and the direction it last moved in. */
  class Hamster {
    var position: Coords
    var direction: Direction

    /** `Hamster::new`: `entering` is the direction the walker will not walk back against. */
    constructor New(position: Coords, entering: Direction)
      ensures this.position == position && this.direction == entering
    {
      this.position := position;
      this.direction := entering;
    }

    /** `Hamster::take_dump`, as intended: the pipe under the walker is filled in the maze. */
    method TakeDump(maze: Maze)
      requires InBounds(maze.fields, position) && maze.fields[position.y][position.x].pipe.Some?
      modifies maze
      ensures maze.fields == Fill(old(maze.fields), position) && maze.start == old(maze.start)
    {
      var field := maze.GetField(position);
      var filled := field.(pipe := Some(field.pipe.value.(full := true)));
      maze.fields := maze.fields[position.y := maze.fields[position.y][position.x := filled]];
    }

    /** `Hamster::walk_maze`: one tile further along the pipe. */
    method WalkMaze(maze: Maze)
      requires CanWalk(maze.fields, position, direction)
      modifies this
      ensures (position, direction) == WalkSpec(maze.fields, old(position), old(direction))
    {
      var field := maze.GetField(position);
      var d := ExitDirection(field.pipe.value, direction).value;
      position := MoveIntoDirection(position, d).value;
      direction := d;
    }
  }
}
