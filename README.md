# Advent of Code 2023, days 1 to 17, in Dafny

This project models the solutions of the first seventeen puzzles of Advent of Code 2023, as one Rust crate per day. It proves properties of the model. Each source file is one Dafny module: `day16/src/map.rs` becomes `Day16Map` in `day16_map.dfy`, and so on. Source code that updates state in place is modelled by classes whose methods change `seq` fields, or by methods over arrays. Examples are the day 3 number collector, the day 4 card pile, the day 14 panel, the day 15 lens boxes and the day 16 and 17 maps. Most such methods are proved equal to a specification function of their inputs and old state, among them the day 10 and day 17 search loops. The rest state the invariant or the result that the source promises. The properties are then proved about the specification functions.

The days, in the source's own terms:

- **Day 1, calibration.** The first and last digit of each line, as numerals (part 1), or as numerals and spelled-out words (part 2).
- **Day 2, cube games.** Games that are possible with 12 red, 13 green and 14 blue cubes, and the power of the fewest cubes each game needs.
- **Day 3, gear ratios.** The part numbers of the engine schematic, and the gears around a cell.
- **Day 4, scratchcards.** The points of each card, and the pile of won copies.
- **Day 5, seed maps.** The category maps, and the lowest location any seed reaches.
- **Day 6, boat races.** The number of winning button presses, for several races and for the one kerned race.
- **Day 7, camel cards.** Hand types, hand rankings and total winnings.
- **Day 8, the desert network.** The walk from AAA to ZZZ, and the simultaneous walks from every node ending in A.
- **Day 9, mirage readings.** Extrapolating each history forwards and backwards.
- **Day 10, the pipe maze.** The farthest point of the loop, and the tiles it encloses.
- **Day 11, cosmic expansion.** The sum of the distances between galaxies after empty rows and columns are doubled.
- **Day 12, hot springs.** The number of arrangements of each row, counted by a pruned depth-first search.
- **Day 13, mirrors.** Row and column hashes, and the new reflection line that appears once the smudge is fixed.
- **Day 14, the reflector dish.** Tilting, the load on the north beams, and spin cycles cut short by cycle detection.
- **Day 15, lens library.** The HASH algorithm and the HASHMAP procedure.
- **Day 16, the lava contraption.** How many tiles a beam energises, and the best edge to fire it from.
- **Day 17, the clumsy crucible.** The search for the least heat loss.

Shared modules:

- `Wrappers`: Option and Result.
- `Text`: the parts of Rust's `str` API that the days use, with round-trip lemmas.
- `Grid`: directions and unsigned coordinates.
- `GridSum`: sums of a per-cell weight over a grid.

Many of the source's `#[test]` functions are stated as lemmas, or as methods where they drive a class, next to the code they cover. Some live in the `DayNTests` modules. Each of these proves the value the source asserts. The tests that are not proved are named under "Left out".

Integers are unbounded in the model. Where the source's width matters (u32 parsing on day 2, the u128 spring masks on day 12, the u32 hashes on day 13), it is written out. The widths the model does not follow are listed below.

## Model

| member | source | states |
|---|---|---|
| Grid.Opposite | day16/src/direction.rs:12-19 | the opposite of a direction is never the direction itself |
| Grid.OppositeInvolution | day16/src/direction.rs:12-19 | opposite(opposite(d)) = d |
| Grid.TurnLeft | day17/src/map.rs:107-114 | a left turn differs from d and from its opposite |
| Grid.TurnRight | day17/src/map.rs:116-123 | a right turn differs from d, from its opposite and from the left turn |
| Grid.TurnsAreInverse | day17/src/map.rs:107-123 | left(right(d)) = d and right(left(d)) = d |
| Grid.FourTurnsAreIdentity | day17/src/map.rs:107-123 | four left turns or four right turns give d back; two left turns give the opposite |
| Grid.MoveIntoDirection | day17/src/map.rs:74-95 | None exactly for Up at y = 0 or Left at x = 0; otherwise a unit step that changes only the coordinate of its axis, by +1 for Down/Right and -1 for Up/Left |
| Grid.MoveThereAndBack | day16/src/map.rs:73-94 | a step followed by a step in the opposite direction returns to the start |
| Day17Map.ParseField | day17/src/map.rs:36-41 | the heat loss is the digit's value (0..9, the digit char is recovered from it) and there is no trace; a non-digit is excluded (the source panics) |
| Day17Map.ParseFields | day17/src/map.rs:5-11 | one row per line and one field per char, each the parse of that char |
| Day17Map.ParsedMapIsFresh | day17/src/map.rs:5-11 | a parsed map carries no trace, its heat losses are single digits, and field (x, y) holds the digit at line y, column x |
| Day17Map.Map.Parse | day17/src/map.rs:5-11 | the map's fields are the parse of the text |
| Day17Map.Map.GetField | day17/src/map.rs:13-19 | None exactly when y is past the last row or x past that row's end; otherwise the field at (x, y) |
| Day17Map.Map.NewSmallestTrace | day17/src/map.rs:51-60 | Err exactly when a trace exists and the new one is strictly larger, and then nothing changes; on Ok the trace of that field becomes the new one and nothing else changes (equal traces are accepted) |
| Day17Map.SetTraceNeverIncreases | day17/src/map.rs:51-60 | an accepted trace keeps the heat losses, sets exactly that field's trace, leaves every other field alone, and never raises a recorded trace |
| Day17Map.SetTraceCount | day17/src/map.rs:51-60 | recording a trace adds one traced field exactly when the field had none, and keeps the number of fields |
| Day17Map.BottomRightInBounds | day17/src/part1.rs:33-35 | on a non-empty rectangular map the block (width - 1, height - 1) exists |
| Day17Hamster.OrderIsReversedHeat | day17/src/hamster.rs:10-30 | a < b exactly when a has more heat than b; neither is less than the other exactly when the heats are equal (the `PartialEq`); the order is transitive and irreflexive, so a max-heap yields the least heat |
| Day17Hamster.Reorient | day17/src/hamster.rs:44-51 | the first two results face left and right of the hamster, at the same position and heat, with straight count 0; the third is the hamster itself exactly when its straight count is below MAX_STRAIGHT_WALKS = 3; no result faces backwards |
| Day17Hamster.TakeHeatSpec | day17/src/hamster.rs:53-60 | off the map: gone and nothing changes; otherwise the heat grows by the block's heat loss and survives exactly when the block accepts that total as its trace, which is then recorded; a refused hamster changes nothing |
| Day17Hamster.WalkSpec | day17/src/hamster.rs:88-95 | the hamster survives exactly when it is on the map, its block accepts the new trace and the step does not leave the top/left edge; a survivor is one step on in the same direction, with one more straight step and the heat of the block it left added |
| Day17Hamster.WalkNeverRaisesTraces | day17/src/hamster.rs:53-60 | a walk keeps the terrain, never raises a recorded trace and every trace still includes its own block's heat loss |
| Day17Hamster.WalkKeepsHeatBound | day17/src/hamster.rs:53-60 | with single-digit heat losses, traces and the walker's heat stay at most nine per traced block, and the number of traced blocks never drops |
| Day17Hamster.TakeHeatAndLeaveTrace | day17/src/hamster.rs:53-60 | the hamster and the map's new fields are those of TakeHeatSpec on the old fields |
| Day17Hamster.Walk | day17/src/hamster.rs:88-95 | the hamster and the map's new fields are those of WalkSpec on the old fields |
| Day17Walks.ParsedTracesWitnessed | day17/src/map.rs:36-41 | a freshly parsed map has no trace that needs a witnessing walk |
| Day17Walks.ArrivedOnBlock | day17/src/hamster.rs:53-60 | the heat a hamster carries after taking its block's heat is the heat lost along some walk from the top-left block to that block |
| Day17Walks.SetTraceKeepsWitnesses | day17/src/map.rs:51-60 | recording the heat of a walk to a block as its trace keeps every trace the heat of a walk to its block |
| Day17Walks.WalkKeepsWitnesses | day17/src/hamster.rs:88-95 | a walk of a hamster that arrived by a walk keeps every trace the heat of a walk from the top-left block |
| Day17Walks.WalkSurvivorArrived | day17/src/hamster.rs:88-95 | the survivor of such a walk stands next to the end of a walk whose heat it carries |
| Day17Part1.Copies | day17/src/part1.rs:18-30 | a popped hamster turns into two or three copies, all with its heat and all allowed to walk straight |
| Day17Part1.Successors | day17/src/part1.rs:18-30 | one round pushes at most three hamsters |
| Day17Part1.WalkAllKeepsInvariants | day17/src/part1.rs:18-30 | walking the copies keeps the terrain, never raises a trace, keeps the heat bound, and, when no block has heat loss 0, pushes only hamsters strictly hotter than the popped one |
| Day17Part1.SearchStepKeepsInvariants | day17/src/part1.rs:17-31 | one loop iteration keeps the invariants and, when no heat loss is 0, strictly lowers the queue's termination measure |
| Day17Part1.SearchStepKeepsWitnesses | day17/src/part1.rs:17-31 | one loop iteration keeps every trace the heat of a real walk and every queued hamster at the end of one |
| Day17Part1.PushedWeighLess | day17/src/part1.rs:17-31 | at most three hamsters, each hotter than the popped one, weigh less than it in the termination measure |
| Day17Part1.Expand | day17/src/part1.rs:18-30 | the pushed hamsters and the new map are those of Successors, walking left, right and straight copies in that order |
| Day17Part1.LeastIndex | day17/src/part1.rs:17 | the position of the hamster to pop is a position in the queue |
| Day17Part1.LeastIndexIsLeast | day17/src/part1.rs:17 | the popped position holds the least heat in the queue, and no earlier position holds as little |
| Day17Part1.PeekLeastHeat | day17/src/part1.rs:17 | the scan finds LeastIndex: the first hamster with the least heat in the queue |
| Day17Part1.SearchUnfold | day17/src/part1.rs:17-31 | with a non-empty queue and a round left, the search is one Round followed by the search of the rest with one round less |
| Day17Part1.RecordedStays | day17/src/map.rs:51-60 | traces that never rise keep every block entry recorded: each block's trace stays at most the heat of every hamster that entered it |
| Day17Part1.WalkRecords | day17/src/map.rs:51-60 | after a walk, the block it entered has a trace at most the heat brought there: the hamster's own heat when the block took it, a smaller one when it refused it |
| Day17Part1.WalkAllRecords | day17/src/part1.rs:18-30 | walking the copies one after the other keeps the terrain, never raises a trace and records every block entry |
| Day17Part1.EntriesSameTerrain | day17/src/part1.rs:18-30 | which blocks the copies enter, and with what heat, depends only on the terrain, not on the traces |
| Day17Part1.SearchRecordsEntries | day17/src/part1.rs:17-31 | the whole search keeps the terrain, never raises a trace, and leaves every block's trace at most the heat of every hamster it walked onto that block |
| Day17Part1.SearchAnswerMinimal | day17/src/part1.rs:17-40 | the answer is at most the heat of every hamster the search walked onto the target block, and there is an answer once one did |
| Day17Part1.TargetTrace | day17/src/part1.rs:33-40 | the answer is the smallest trace recorded on block (width - 1, height - 1), None exactly when that block is missing or has no trace (where the source panics); an answer is the heat of some walk from the top-left block to it, at least that block's heat loss and at most nine per block |
| Day17Part1.SearchRound | day17/src/part1.rs:17-31 | the new queue and map are those of Round on the old map, with one round less; the round keeps the invariants, keeps traces witnessed by walks, and lowers the measure when no heat loss is 0 |
| Day17Part1.SearchLoop | day17/src/part1.rs:17-31 | the loop ends with an empty queue or no rounds left, and the search from where it stopped is the search from where it began; the invariants hold, and with no heat loss 0 the queue's measure stays within the rounds left |
| Day17Part1.Run | day17/src/part1.rs:6-41 | the outcome and final map are those of Search from the parsed map and the one hamster at the top-left heading down: when the queue runs empty the answer is the final map's trace on the bottom-right block (None exactly when it has none); with no heat loss 0 and enough fuel the queue runs empty; an answer is the heat of some walk from the top-left block to the bottom-right one, between that block's heat loss and nine per block |
| Day16Direction.Follow | day16/src/direction.rs:21-29 | empty space passes the beam straight on; the two mirrors turn it without a second beam |
| Day16Direction.SecondBeamIffSideOnSplitter | day16/src/direction.rs:21-47 | a second direction appears exactly for a splitter hit side-on: '-' gives (Left, Right), '|' gives (Up, Down); a splitter hit along its line is passed straight through |
| Day16Direction.SplitBeamsDoNotSplitAgain | day16/src/direction.rs:31-43 | both beams leaving a side-on splitter travel along it |
| Day16Direction.MirrorsAreInvolutions | day16/src/direction.rs:49-67 | each mirror applied twice is the identity, and each switches the beam between vertical and horizontal |
| Day16Map.ParseShape | day16/src/map.rs:107-116 | the five glyphs map to the five shapes (the glyph is recovered by ShapeChar); any other char is excluded (the source panics) |
| Day16Map.ShapeCharRoundTrip | day16/src/map.rs:107-116 | parsing a shape's glyph gives the shape back |
| Day16Map.SetTraversed | day16/src/map.rs:127-135 | sets the flag of d, leaves the other three as they were and clears none |
| Day16Map.WasVisited | day16/src/map.rs:146-148 | true exactly when some direction's flag is set |
| Day16Map.ParseField | day16/src/map.rs:37-42 | a parsed tile has its glyph's shape and is not visited |
| Day16Map.ParseFields | day16/src/map.rs:8-14 | one row per line, one tile per char, with that char's shape and no flag set |
| Day16Map.SetFlagEffect | day16/src/map.rs:49-55 | setting a flag keeps shapes and every other flag, and lowers the number of unset flags by one exactly when it was unset |
| Day16Map.NumVisitedAtMostCells | day16/src/map.rs:24-30 | the visited count is at most the number of tiles |
| Day16Map.VisitedCounted | day16/src/map.rs:24-30 | a tile with a flag set makes the visited count at least 1 |
| Day16Map.FreshUnset | day16/src/map.rs:37-42 | a map with no flag set has visited count 0 |
| Day16Map.Map.Parse | day16/src/map.rs:8-14 | the map's fields are the parse of the text |
| Day16Map.Map.Clone | day16/src/part2.rs:13 | the copy has the same fields (the clone itself is not in the shown map.rs) |
| Day16Map.Map.GetField | day16/src/map.rs:16-22 | None exactly when the row or column is out of range; otherwise the tile there |
| Day16Map.Map.Traverse | day16/src/map.rs:48-55 | Err, changing nothing, exactly when the flag of d is already set; on Ok exactly that flag is set |
| Day16Hamster.Reorient | day16/src/hamster.rs:19-24 | the beam turns to the first direction of follow for its tile; a second beam at the same position with the other direction appears exactly for a side-on splitter; the tile must be on the map (the source unwraps) |
| Day16Hamster.WalkEffect | day16/src/hamster.rs:34-44 | a walk dies exactly on an old flag under it, off the map (any side) or on an old opposite flag ahead; a survivor is one tile on with its direction kept; flags set before dying stay; a survivor sets two new flags |
| Day16Hamster.Walk | day16/src/hamster.rs:34-44 | the beam and the map's new fields are those of WalkSpec on the old fields |
| Day16Part1.WalkLeads | day16/src/part1.rs:21-26 | one walk is one unfolding of the beam specification Beam |
| Day16Part1.BeamKeepsMarks | day16/src/part1.rs:14-29 | tracing beams keeps shapes and every flag, and marks each walker's own tile |
| Day16Part1.FiredCountBounds | day16/src/part1.rs:14-29 | a beam fired from a tile on the map energises between 1 and all of the tiles |
| Day16Part1.WalkStep | day16/src/part1.rs:21 | one walk leads to the same final map, and a survivor costs two unset flags |
| Day16Part1.WalkOn | day16/src/part1.rs:21-26 | the inner loop ends with the same final map as Beam, and every walk cost two unset flags |
| Day16Part1.PopAndTrace | day16/src/part1.rs:17-26 | one outer round keeps the final map, and lowers either the unset flags or the stack's weight |
| Day16Part1.FireHamster | day16/src/part1.rs:14-29 | the map ends as Beam on the single launched beam, the count is its number of visited tiles (1..tiles), and the walks are at most twice the unset flags, which are at most 4 per tile |
| Day16Part1.UnsetAtMostFour | day16/src/map.rs:119-125 | there are at most four unset flags per tile |
| Day16Part1.CountVisited | day16/src/map.rs:24-30 | the loop count equals the number of visited tiles |
| Day16Part1.Run | day16/src/part1.rs:5-12 | the count is that of the beam from (0, 0) heading right, between 1 and the number of tiles |
| Day16Part2.AsWrittenLaunchers | day16/src/part2.rs:6-52 | the launchers as written: 2 x width + 2 x height of them |
| Day16Part2.EdgeLaunchers | day16/src/part2.rs:6-52 | the intended launchers: 2 x width + 2 x height of them |
| Day16Part2.EdgeLaunchersOnMap | day16/src/part2.rs:18-52 | every intended launcher is on the map, and every edge tile is launched from with each inward direction |
| Day16Part2.AsWrittenOnSquareMap | day16/src/part2.rs:18-52 | on a square map the written (transposed) launchers are on the map |
| Day16Part2.AsWrittenLauncherOffMap | day16/src/part2.rs:18-25 | on the one-row map "..." the second launcher from above is at column 0 of row 1, off the map |
| Day16Part2.FireOnCopy | day16/src/part2.rs:13 | a beam fired into a copy gives FireCount of the original fields, between 1 and the number of tiles |
| Day16Part2.MaxOverLaunchers | day16/src/part2.rs:13-15 | the result is at least every launcher's count and equal to one of them |
| Day16Part2.Run | day16/src/part2.rs:6-16 | corrected program (launchers as in the Findings table): the result is at least the count of every edge launcher and equal to one of them, between 1 and the number of tiles |
| Day10Maze.ParsePipe | day10/src/part1.rs:144-160 | the six glyphs give two distinct openings (drawn back by the same glyph) and an empty pipe; any other char is excluded (the source panics) |
| Day10Maze.ParseField | day10/src/part1.rs:126-136 | '.' and 'S' give no pipe, every other glyph its pipe; no flood mark is set |
| Day10Maze.ParseFields | day10/src/part1.rs:88-92 | one row per line, one tile per char, each the parse of that char |
| Day10Maze.FindStartFrom | day10/src/part1.rs:100-106 | the first 'S' at or after row y in reading order, or None exactly when those rows have none |
| Day10Maze.FindStartCoords | day10/src/part1.rs:100-106 | (column, line) of the first 'S' in reading order: no 'S' earlier in its line or in earlier lines; None exactly when no line has an 'S' |
| Day10Maze.ExitDirection | day10/src/part1.rs:39-43 | the first opening that does not lead straight back; None only when both openings lead back |
| Day10Maze.WalkerFollowsPipe | day10/src/part1.rs:36-46 | a walker that entered through one opening of a pipe leaves through the other |
| Day10Maze.WalkSpec | day10/src/part1.rs:36-46 | one walk never turns back, moves exactly one tile, and its new direction is the step it took |
| Day10Maze.Fill | day10/src/part1.rs:167-169 | filling a pipe makes it full, keeps its openings and marks, and leaves every other tile alone |
| Day10Maze.DumpAsWritten | day10/src/part1.rs:52-56 | take_dump as written fills a copy of the `Copy` pipe, so the maze comes back unchanged |
| Day10Maze.DumpAsWrittenLeavesPipeEmpty | day10/src/part1.rs:52-56 | an empty pipe stays empty after the dump as written, while the intended fill makes it full |
| Day10Maze.Maze.New | day10/src/part1.rs:88-99 | the start is the first 'S', on the map, and the tiles are the parsed ones with the start tile replaced by start_char's tile |
| Day10Maze.Maze.GetField | day10/src/part1.rs:112-114 | the tile at (x, y); off the map is excluded (indexing panics) |
| Day10Maze.NewMazeKeepsOtherTiles | day10/src/part1.rs:88-99 | every tile except the start is the parse of its char, and the start tile (an 'S' in the text) is start_char's tile |
| Day10Maze.Hamster.New | day10/src/part1.rs:28-33 | the walker stands at the position, facing the entering direction |
| Day10Maze.Hamster.TakeDump | day10/src/part1.rs:52-56 | as intended: the maze's pipe under the walker is filled and nothing else changes |
| Day10Maze.Hamster.WalkMaze | day10/src/part1.rs:36-46 | the walker's new position and direction are those of WalkSpec |
| Day10Part1.LockstepMeaning | day10/src/part1.rs:7-17 | a meeting is reported after exactly the first round n >= 1 at which both walkers stand on the same tile; running out of fuel means they stayed apart throughout |
| Day10Part1.WalkInLockstep | day10/src/part1.rs:7-17 | the loop's outcome is Lockstep from the start, walkers heading right and left |
| Day10Part1.Run | day10/src/part1.rs:1-18 | the outcome is Lockstep on the parsed maze with a '-' pipe under the start, one walker heading right and one heading left |
| Day10Flood.Neighbours | day10/src/part2.rs:140-151 | every existing step up, down, left and right is pushed, and only those, each one tile away |
| Day10Flood.SetMarkLowersUnmarked | day10/src/part2.rs:134-138 | marking an unmarked tile lowers the number of unmarked tiles |
| Day10Flood.SkipKeepsInv | day10/src/part2.rs:114-132 | a popped position that is off the map, already marked or full is dropped and the flood invariant holds for the shorter stack |
| Day10Flood.TakeKeepsMarks | day10/src/part2.rs:134-138 | marking a taken tile only adds that mark, and the tile becomes the one new member of the marked tiles |
| Day10Flood.TakeKeepsChain | day10/src/part2.rs:134-151 | the marked tile extends the chain of tiles connected to the seed |
| Day10Flood.TakeKeepsClosed | day10/src/part2.rs:134-151 | after marking and pushing the neighbours, every neighbour of a marked tile is still off the map, marked, full or on the stack |
| Day10Flood.TakeKeepsInv | day10/src/part2.rs:134-151 | a popped position that is taken is marked, its neighbours pushed, and the flood invariant holds with it added to the marked tiles |
| Day10Flood.PushNeighbours | day10/src/part2.rs:140-151 | the stack grows by the neighbours, in the order up, down, left, right |
| Day10Flood.Flood | day10/src/part2.rs:109-153 | the new tiles are those of FloodFrom on the old tiles; only marks of the flood's kind are added; the newly marked tiles are exactly those in `order`, none a full pipe, each after the first next to an earlier one and the first the seed; every neighbour of a marked tile is off the map, marked or full; the seed is marked when it can be taken |
| Day10Flood.FloodStep | day10/src/part2.rs:114-152 | one round keeps the flood invariant and lowers the unmarked count or the stack |
| Day10Flood.FloodRunKeepsInv | day10/src/part2.rs:109-153 | the flood loop as a value, run to an empty stack, keeps the flood invariant, with some order listing the tiles it marked, starting at the seed exactly when the seed can be taken |
| Day10Flood.FloodFromMeaning | day10/src/part2.rs:109-153 | a flood from a seed only adds marks of its kind, marks the seed when it can be taken and changes nothing when it cannot; no marked tile is full, every neighbour of a marked tile ends up marked, full or off the map, and the marked tiles are connected to the seed through one another |
| Day10Part2.NeighbourMarked | day10/src/part2.rs:140-151 | in a finished flood over a map with no full pipe and no mark, a neighbour on the map of a marked tile is marked |
| Day10Part2.FloodReachesAll | day10/src/part2.rs:100-103 | a flood from the top-left tile of such a map marks every tile |
| Day10Part2.FloodOuter | day10/src/part2.rs:100-103 | only outside marks are added; on a map with no full pipe and no outside mark, every tile ends up outside |
| Day10Part2.FloodInner | day10/src/part2.rs:105-107 | only inside marks are added, none on a full pipe, and the start tile is marked inside when it is on the map and not full |
| Day10Part2.FloodInnerKeeps | day10/src/part2.rs:105-107 | an inside flood only adds inside marks, keeps inside marks off the loop, and marks its seed when the seed is on the map and not full |
| Day10Part2.FillLowersUnfilled | day10/src/part2.rs:34 | filling an empty pipe lowers the number of empty pipes |
| Day10Part2.PoopFillsTrail | day10/src/part2.rs:23-37 | the walker only fills pipes, stops in a full pipe, and the pipe it set out from is full at the end |
| Day10Part2.PoopingHamster | day10/src/part2.rs:23-37 | succeeds exactly when Poop does (no panic), and then the maze is Poop's result |
| Day10Part2.FindInnerMeaning | day10/src/part2.rs:44-66 | a found tile is reached by walks from the start within the fuel, the reported inside is on the right exactly when the tile on the left is outside, and on the left only when the right one is |
| Day10Part2.FindInnerDirectionHamster | day10/src/part2.rs:44-66 | the search's outcome is FindInner from the start heading left |
| Day10Part2.InnerTurn | day10/src/part2.rs:82-89 | the inside direction is the walker's heading turned towards the inside hand |
| Day10Part2.InnerMarksKeepWalks | day10/src/part2.rs:90-96 | adding inside marks changes neither whether a walker can walk on nor where it goes |
| Day10Part2.LapGrows | day10/src/part2.rs:81-97 | one more flanked tile off the start extends the lap walked so far, which survives the new inside marks |
| Day10Part2.FloodBeside | day10/src/part2.rs:72-79 | the new tiles are those of FloodBesideSpec on the old ones, and unchanged on a failure; only inside marks, none on the loop; fails exactly when the tile on that hand is not inside and the step there leaves the top or left edge (the unwrap panics); otherwise that tile is off the map, on the loop or inside |
| Day10Part2.FloodBesideMeaning | day10/src/part2.rs:72-79 | FloodBesideSpec succeeds exactly when the tile on that hand is inside or the step there does not cross the top or left edge; then it only adds inside marks, none on the loop, and leaves that tile off the map, on the loop or inside |
| Day10Part2.FloodHandsSpec | day10/src/part2.rs:82-95 | when both hands are flooded without a panic, the walker can walk on from its tile |
| Day10Part2.FloodHandsMeaning | day10/src/part2.rs:82-95 | the tiles after both hands are flooded only add inside marks, none on the loop, and on success the tile is flanked on its entering and exiting inside hands |
| Day10Part2.FloodHands | day10/src/part2.rs:82-95 | the outcome and the new tiles are those of FloodHandsSpec on the old tiles; only inside marks, none on the loop; on success the tile is flanked: both its entering and its exiting inside hands are off the map, on the loop or inside |
| Day10Part2.LapFromUnfold | day10/src/part2.rs:81-97 | a lap from a tile other than the start, whose hands flood without a panic, is the lap from the next tile of the walk over the flooded tiles, with one round less |
| Day10Part2.LapFromAtStart | day10/src/part2.rs:81 | back at the start the lap is complete and the tiles stay as they are |
| Day10Part2.LapStep | day10/src/part2.rs:81-97 | one round off the start only adds inside marks, keeps them off the loop and extends the lap walked so far by the next tile |
| Day10Part2.LapFromMeaning | day10/src/part2.rs:81-97 | the rest of the lap only adds inside marks, none on the loop; a completed lap continues the trail walked so far back to the start, every tile passed flanked on its inside hand |
| Day10Part2.LapFromStepMeaning | day10/src/part2.rs:82-96 | the same as LapFromMeaning for a round whose hands flood without a panic: the flooding only adds inside marks and a completed rest of the lap continues the trail back to the start |
| Day10Part2.FloodLapMeaning | day10/src/part2.rs:68-98 | the whole lap only adds inside marks, none on the loop; a completed lap is a walk along the pipes from the tile after the start back to the start, every tile passed flanked on its inside hand |
| Day10Part2.FloodingHamster | day10/src/part2.rs:68-98 | the outcome and the new tiles are those of FloodLap on the old tiles (the lap walked from the tile after the start, flooding both inside hands of each tile, until the start); only inside marks, none on the loop; a completed lap is a walk along the pipes from the start back to it with every tile passed flanked on its inside hand |
| Day10Part2.LapLoop | day10/src/part2.rs:81-97 | the outcome and the new tiles are those of LapFrom from the walker's tile and heading on the old tiles |
| Day10Part2.LapRound | day10/src/part2.rs:82-96 | one round off the start with `left` walks left: a stop (out of fuel, or the panic of a flood) is the outcome and the tiles of the lap from the old place; otherwise there was a walk left, and the lap from the walker's new place with one walk less is the lap from its old place |
| Day10Part2.FillAndFloodOutside | day10/src/part2.rs:9-10 | succeeds exactly when Poop does (no panic); the maze then is Poop's filled loop flooded outside from the top-left tile by FloodFrom, and, from unmarked tiles, keeps its shape and has no tile marked inside |
| Day10Part2.FilledKeepsShape | day10/src/part2.rs:23-37 | filling pipes keeps the grid's dimensions and adds no inside mark |
| Day10Part2.OuterKeepsShape | day10/src/part2.rs:100-103 | an outside flood keeps the grid's dimensions and adds no inside mark |
| Day10Part2.StartFieldsShape | day10/src/part1.rs:88-98 | putting the start character under the start keeps the parsed grid's dimensions, with no tile marked inside |
| Day10Part2.OutsideShape | day10/src/part2.rs:8-10 | the tiles after filling the loop and flooding the outside have the input's dimensions and no inside mark |
| Day10Part2.SameDimsTransitive | day10/src/part2.rs:7-15 | grids of the same dimensions as a grid of the same dimensions as a third have the third's dimensions |
| Day10Part2.FloodInside | day10/src/part2.rs:11-12 | the outcome and the new tiles are those of FloodInsideSpec: FindInner from the start heading left, then FloodLap from the tile and hand it finds; the maze keeps its shape and gets no inside mark on the loop |
| Day10Part2.FloodInsideMeaning | day10/src/part2.rs:11-12 | the inside search and lap only add inside marks, none on the loop; a completed lap means the search found a tile, and the lap walks along the pipes from it back to it, flanked on its inside hand |
| Day10Part2.RunSpecMeaning | day10/src/part2.rs:7-15 | a count means the outside flood succeeded and the inside search found a tile; the final tiles only add inside marks to the outside-flooded ones, have the input's dimensions, no inside mark on the loop, and a lap from the found tile flanked on its inside hand; the count is the number of inside tiles, at most the number of tiles |
| Day10Part2.RunSpecCompleted | day10/src/part2.rs:7-15 | a count means the outside flood succeeded and the lap round the flooded maze completed; the count is the number of inside tiles at its end |
| Day10Part2.RunSpecCounted | day10/src/part2.rs:7-15 | a count is the number of inside tiles of final tiles with the input's dimensions, at most their number of tiles, with no inside tile on the loop |
| Day10Part2.SameDimsCells | day10/src/part2.rs:14 | grids of the same dimensions have the same number of tiles |
| Day10Part2.RunPrivate | day10/src/part2.rs:7-15 | the outcome is RunSpec's (fill the loop, flood outside, find the inside hand, flood round the loop, count) and a count's final tiles are RunSpec's; the count is the number of inside tiles of the final maze, which has the input's shape; it is at most the number of tiles, and no inside tile is on the loop |
| Day10Part2.Run | day10/src/part2.rs:3-5 | as RunPrivate with '-' under the start: the outcome and final tiles are RunSpec's with '-'; the count is at most the input's number of tiles |
| Day11Universe.DistanceIsMetric | day11/src/part1.rs:35-37 | the galaxy distance is symmetric, zero exactly between a galaxy and itself, and obeys the triangle inequality |
| Day11Universe.LineGalaxiesMeaning | day11/src/part1.rs:101-106 | a line's galaxies are exactly its '#' places on that line, left to right |
| Day11Universe.ParseGalaxiesMeaning | day11/src/part1.rs:108-112 | the parsed galaxies are exactly the '#' places of the image, in reading order |
| Day11Universe.OccurrencesMeaning | day11/src/part1.rs:47-61 | a column (row) counts no galaxy exactly when no galaxy stands in it |
| Day11Universe.UnusedMeaning | day11/src/part1.rs:67-77 | the lines to double are exactly the columns (rows) inside the image that hold no galaxy, in increasing order |
| Day11Universe.CountBelowUnused | day11/src/part1.rs:80-83 | the doubled lines counted before a galaxy are the empty lines strictly before it |
| Day11Universe.CountBelowMonotone | day11/src/part1.rs:80-83 | a galaxy further right (down) has at least as many doubled lines before it |
| Day11Universe.ExpandedDistance | day11/src/part1.rs:79-86 | expanding adds to the distance of two galaxies exactly the doubled columns and rows between them, so it never shortens a distance |
| Day11Universe.AxisDistance | day11/src/part1.rs:84-85 | along one axis, two shifted places are as far apart as before plus the doubled lines between them |
| Day11Universe.ExpandedKeepsOrder | day11/src/part1.rs:79-86 | expanding keeps the galaxies in reading order |
| Day11Universe.ExpandedInBounds | day11/src/part1.rs:79-89 | galaxies inside the image stay inside the grown image |
| Day11Universe.Universe.FromStr | day11/src/part1.rs:100-122 | the galaxies in reading order, width the first line's length, height the number of lines; a first line is required (unwrap) |
| Day11Universe.Universe.Expand | day11/src/part1.rs:63-90 | every galaxy moves right by the empty columns and down by the empty rows before it, count and order kept, and the sizes grow by the number of empty columns and rows |
| Day11Universe.SumDistancesIsPairSum | day11/src/part1.rs:9-22 | the source's sum (each galaxy but the last with every later one) adds every unordered pair of galaxies exactly once; at least one galaxy is required (`len - 1`) |
| Day11Universe.Run | day11/src/part1.rs:3-7 | the answer is the sum over all pairs of the parsed galaxies' distances after expansion |
| Day11Universe.ExampleExpansion | day11/src/part1.rs:129-155 | the expand test: (1,0), (3,0), (1,2), (0,4) move to (1,0), (4,0), (1,3), (0,6) and the 4 by 5 image grows to 5 by 7 |
| Day11Universe.ExampleGalaxies | day11/src/part1.rs:131-137 | the test image parses to the galaxies (1,0), (3,0), (1,2), (0,4) |
| Day11Universe.ExampleDistanceSum | day11/src/part1.rs:157-174 | the nine galaxies of the distance example have pairwise distances adding up to 374 |
| Day12Springs.TrailingZeros | day12/src/part1.rs:82 | `trailing_zeros`: the count of clear bits below the lowest set bit, 128 for a zero mask |
| Day12Springs.TrailingOnes | day12/src/part1.rs:133 | `trailing_ones`: the count of set bits below the lowest clear bit |
| Day12Springs.Format | day12/src/part1.rs:213-230 | the `Debug` loop prints one symbol per spring, first spring first: '?' for an unknown spring, else '#' for a broken one, else '.' |
| Day12Springs.FromStr | day12/src/part1.rs:232-268 | None exactly for a line without a space; otherwise the count of springs before the first space, with bit i of the broken (unknown) mask set exactly when spring i is '#' ('?') |
| Day12Springs.ParseMask | day12/src/part1.rs:248-255 | bit i of the or-ed shifted symbols is the symbol's bit for i below the row's length and clear above |
| Day12Springs.FromStrShows | day12/src/part1.rs:232-268 | a parsed row is well formed and prints back as the text before the space (the parse test's round trip) |
| Day12Springs.ShowFromStr | day12/src/part1.rs:232-268 | a well-formed row printed and parsed back is the same row |
| Day12Springs.CollapseNext | day12/src/part1.rs:303-306 | None exactly when no spring is unknown |
| Day12Springs.CollapseNextMeaning | day12/src/part1.rs:303-327 | the two rows are the row with its first '?' read as '.' and as '#': the same bit cleared from the unknown mask, cleared and set in the broken mask, both well formed, one unknown spring fewer |
| Day12Springs.Unfold | day12/src/part1.rs:271-301 | the unfolded row is well formed and prints as `factor` copies of the row joined by '?'; rows that would not fit 128 bits and a factor of 0 are excluded (both panic) |
| Day12Springs.CopiesAt | day12/src/part1.rs:286-300 | place r of copy q of the unfolded row is the original's place r, and the place after each copy but the last is '?' |
| Day12Springs.UnfoldStepShows | day12/src/part1.rs:287-299 | one loop round puts the original row and a '?' in front of the row built so far |
| Day12Springs.GroupsFromStr | day12/src/part1.rs:51-60 | None exactly for a line without a space; otherwise one group per comma-separated part after it |
| Day12Springs.ShowGroupsFromStr | day12/src/part1.rs:36-60 | a non-empty group list printed after a row and parsed back is the same list |
| Day12Springs.UnfoldGroupsAt | day12/src/part1.rs:64-70 | the unfolded list has `factor` times the groups, and place r of copy q is the original's place r |
| Day12Arrangements.GroupsEmpty | day12/src/part1.rs:176-177 | a row has no groups exactly when none of its springs is broken |
| Day12Arrangements.ArrangementWitness | day12/src/part1.rs:8-29 | a positive count has an arrangement with exactly the listed groups behind it |
| Day12Arrangements.ArrangementCounted | day12/src/part1.rs:8-29 | every arrangement with exactly the listed groups makes the count positive |
| Day12Arrangements.ArrangementsDecided | day12/src/part1.rs:15-19 | a row without '?' has one arrangement, itself, counted exactly when its groups match |
| Day12Validate.CheckLoopExact | day12/src/part1.rs:173-192 | on a fully known window after a working spring, the check loop accepts exactly the rows whose groups are the listed ones |
| Day12Validate.CheckLoopComplete | day12/src/part1.rs:140-153 | the loop never rejects a known prefix that can still be completed with undecided springs to a row with the listed groups |
| Day12Validate.ValidateDecided | day12/src/part1.rs:72-203 | on a row without unknown springs, `validate` accepts exactly the rows whose groups are the listed ones |
| Day12Validate.ValidateKeeps | day12/src/part1.rs:72-203 | `validate` never rejects a row that still has a valid arrangement |
| Day12Validate.KnownPartAgrees | day12/src/part1.rs:80-88 | the springs before the first unknown one start every arrangement of the row |
| Day12Validate.Checker.constructor | day12/src/part1.rs:79-99 | the buffer holds a working spring followed by the known springs, and the rest are ignored |
| Day12Validate.Checker.ShiftOut | day12/src/part1.rs:101-105 | the first `num` springs leave the window |
| Day12Validate.Checker.CheckGoodBeforeGroup | day12/src/part1.rs:107-121 | succeeds exactly when the window starts with a working spring, and then all leading working springs are shifted out |
| Day12Validate.Checker.CheckGroup | day12/src/part1.rs:131-154 | succeeds exactly when the leading broken run has the group's size (then shifted out) or the group overruns the window but fits with the ignored springs (then nothing remains) |
| Day12Validate.Validate | day12/src/part1.rs:72-203 | the method's answer is the check loop's verdict on the row's known springs |
| Day12Part1.CollapseValue | day12/src/part1.rs:15-19 | a row's count is the sum of the counts of its two collapsed rows, each of less than half its search weight |
| Day12Part1.PushedValue | day12/src/part1.rs:20-25 | dropping the rows `validate` rejects loses no arrangement |
| Day12Part1.SearchStep | day12/src/part1.rs:15-26 | one round lowers the stack's weight and moves into the count exactly what leaves the stack |
| Day12Part1.Search | day12/src/part1.rs:15-28 | the search ends with the total of the starting stack |
| Day12Part1.CountPossibleArrangements | day12/src/part1.rs:8-29 | as written: the number of valid arrangements of a row with an unknown spring, and 1 for a row without one whatever its groups |
| Day12Part1.AsWrittenCountsUnmatchedRow | day12/src/part1.rs:13 | the line "# 2" has no valid arrangement, yet is counted once |
| Day12Part1.CountArrangements | day12/src/part1.rs:8-29 | with the starting row checked like every other: the number of valid arrangements of the line's row |
| Day12Part1.TotalNext | day12/src/part1.rs:4-6 | the total over one more line adds that line's number of arrangements |
| Day12Part1.Run | day12/src/part1.rs:4-6 | the sum over all lines of their numbers of valid arrangements |
| Day13Part1.ParseChar | day13/src/part1.rs:19-25 | '#' gives 1 and '.' gives 0; any other char is excluded (the source panics) |
| Day13Part1.ParseLineSum | day13/src/part1.rs:12-17 | the row hash, bit i set exactly for a '#' at place i, is the number the source's sum of `parse_char(c) << i` computes |
| Day13Part1.ShowParseLine | day13/src/part1.rs:12-17 | writing a row's hash back as cells gives the row |
| Day13Part1.ParseShowLine | day13/src/part1.rs:12-17 | a hash with no bits past the row's end is the hash of the cells it shows |
| Day13Part1.ParseLineInjective | day13/src/part1.rs:12-17 | two rows of the same length hash alike exactly when they are the same row |
| Day13Part1.AddBit | day13/src/part1.rs:31 | adding `((hash >> j) & 1) << i` to a value whose bit i is clear sets bit i to the added bit, changes no other bit and adds its weight |
| Day13Part1.TransposeTwice | day13/src/part1.rs:27-35 | transposing the column hashes back gives the row hashes |
| Day13Part1.TransposeHashes | day13/src/part1.rs:27-35 | the nested loops build `len` column hashes, bit i of column j being bit j of row i |
| Day13Part1.FromBlock | day13/src/part1.rs:11-45 | the row hashes of the block's lines and their transpose over the first line's length |
| Day13Part1.CellsHashed | day13/src/part1.rs:11-45 | cell (i, j) is '#' exactly when bit j of row hash i and bit i of column hash j are set |
| Day13Part1.ExampleHashes | day13/src/part1.rs:52-61 | `test_map_parse`: the row hashes are 0, 2, 1 and the column hashes 4, 2 |
| Day13Part2.Toggled | day13/src/part2.rs:59-66 | `^= 1 << k` toggles exactly bit k of the chosen hash |
| Day13Part2.ToggledTwice | day13/src/part2.rs:59-66 | flipping the same cell twice restores the hashes |
| Day13Part2.ParsedTransposed | day13/src/part2.rs:21-57 | the parsed column hashes are the row hashes transposed |
| Day13Part2.FlipKeepsTransposed | day13/src/part2.rs:59-66 | a flip keeps the column hashes the transpose of the row hashes |
| Day13Part2.ZipAllEqualMeans | day13/src/part2.rs:99-101 | the zip compares the pairs up to the shorter length |
| Day13Part2.IsMirroringMeans | day13/src/part2.rs:96-102 | `is_mirroring` holds exactly when any two hashes at the same distance from the line after `index` agree |
| Day13Part2.MirroringIterMeaning | day13/src/part2.rs:104-111 | the indices yielded are exactly the mirror indices below len - 1, increasing |
| Day13Part2.FirstMirrorMeaning | day13/src/part2.rs:81-82 | the first mirror index is one, and no smaller index is |
| Day13Part2.FindNewMirrorIndexMeaning | day13/src/part2.rs:113-115 | the result is the smallest mirror index other than the ignored one; every smaller mirror index is the ignored one, and when there is none every mirror index is |
| Day13Part2.FirstSmudgeMeaning | day13/src/part2.rs:68-90 | the kept flip passes the test (exactly one of rows and columns has a new mirror) and no flip before it in row-major order does |
| Day13Part2.OneBased | day13/src/part2.rs:118-123 | 0 exactly for no mirror |
| Day13Part2.SummaryOfNewMirror | day13/src/part2.rs:117-126 | with exactly one new mirror, the summary is 100 times the rows above a new horizontal line or the columns left of a new vertical one |
| Day13Part2.Map.FromBlock | day13/src/part2.rs:21-57 | the row and column hashes of the block, and no mirror to ignore |
| Day13Part2.Map.Clone | day13/src/part2.rs:12 | a map with the same hashes and ignored mirrors |
| Day13Part2.Map.Flip | day13/src/part2.rs:59-66 | toggles the cell in its row hash and in its column hash, nothing else |
| Day13Part2.Map.FlipClone | day13/src/part2.rs:73-77 | a fresh clone with the cell flipped, and whether it passes the `desmudge` test |
| Day13Part2.Map.Desmudge | day13/src/part2.rs:80-94 | a fresh map with the first passing flip in row-major order applied, ignoring the original mirror indices; the unwrap's panic is excluded |
| Day13Part2.SummaryNext | day13/src/part2.rs:1-10 | the total over one more block adds its summary |
| Day13Part2.SolveBlock | day13/src/part2.rs:4-8 | one block's summary after its smudge is fixed |
| Day13Part2.Run | day13/src/part2.rs:1-10 | the sum over the blocks between blank lines of their summaries after desmudging |
| Day14Panel.ParsePosition | day14/src/part2.rs:184-193 | '.', 'O' and '#' give empty, round and square, and the glyph prints back; any other char is excluded (the source panics) |
| Day14Panel.PositionCharRoundTrip | day14/src/part2.rs:173-193 | parsing a glyph and printing the position give the glyph back, and printing then parsing gives the position back |
| Day14Panel.ParsePanel | day14/src/part2.rs:14-24 | one row per line, one position per char, each printing as its char |
| Day14Panel.SlideStepKeepsInv | day14/src/part2.rs:200-228 | one slider step keeps the slider invariant: squares in place, no empty place before a round rock, the queue the run of empty places before the current place |
| Day14Panel.SlidePrefixPermutes | day14/src/part2.rs:200-228 | the slider only rearranges the line: the same positions as before |
| Day14Panel.SlideStepKeepsCounts | day14/src/part2.rs:207-222 | a slider step moves a round rock only across empty places, never past a square rock, so every square rock keeps its number of round rocks before it |
| Day14Panel.SlidePrefixKeepsCounts | day14/src/part2.rs:200-228 | the slider, after any number of places, keeps every square rock's number of round rocks before it |
| Day14Panel.SlidePrefixStepCounts | day14/src/part2.rs:200-228 | one more place processed by the slider keeps every square rock's number of round rocks before it |
| Day14Panel.SlideSettles | day14/src/part2.rs:200-228 | a tilted line keeps its square rocks in place and its positions, keeps the number of round rocks before every square rock (so in every stretch between square rocks), and has no empty place directly before a round rock |
| Day14Panel.SlideOfSettled | day14/src/part2.rs:200-228 | a line whose rocks cannot slide further is left as it is |
| Day14Panel.SlideIdempotent | day14/src/part2.rs:200-228 | tilting a line twice is tilting it once |
| Day14Panel.LoadUpToUpdate | day14/src/part2.rs:52-55 | overwriting a place changes the load only by that place's own load |
| Day14Panel.TiltNorthSpec | day14/src/part2.rs:122-131 | the panel tilted north has the same shape, and each of its columns is the original column slid towards row 0 |
| Day14Tilt.TiltSouthSpec | day14/src/part2.rs:144-153 | the same shape, each column slid towards the last row |
| Day14Tilt.TiltWestSpec | day14/src/part2.rs:133-142 | each row slid towards its first column |
| Day14Tilt.TiltEastSpec | day14/src/part2.rs:155-163 | each row slid towards its last column |
| Day14Tilt.SpinOnceSpec | day14/src/part2.rs:115-120 | a spin cycle keeps the panel's shape |
| Day14Tilt.TiltNorthSettles | day14/src/part2.rs:122-131 | tilting north keeps every square rock, rearranges each column, and leaves no column with an empty place before a round rock read from the north |
| Day14Tilt.TiltSouthSettles | day14/src/part2.rs:144-153 | tilting south keeps squares and each column's positions, and settles each column read from the south |
| Day14Tilt.TiltWestSettles | day14/src/part2.rs:133-142 | tilting west keeps squares and each row's positions, and settles each row towards the west |
| Day14Tilt.TiltEastSettles | day14/src/part2.rs:155-163 | tilting east keeps squares and each row's positions, and settles each row towards the east |
| Day14Tilt.SpinOnceKeepsSquares | day14/src/part2.rs:115-120 | a spin cycle leaves every square rock where it was |
| Day14Tilt.TiltWestIdempotent | day14/src/part2.rs:133-142 | tilting west twice is tilting once |
| Day14Tilt.TiltNorthIdempotent | day14/src/part2.rs:122-131 | tilting north twice is tilting once |
| Day14Cycle.IteratePeriodic | day14/src/part2.rs:90-96 | once a state recurs after `len` more steps, every further `len` steps change nothing |
| Day14Cycle.FirstIndex | day14/src/part2.rs:74 | `position`: the first index holding the value, None exactly when the value is absent |
| Day14Cycle.Detect | day14/src/part2.rs:67-82 | a reported repeat has length at least 1 and ends before `cycles` |
| Day14Cycle.DetectMeaning | day14/src/part2.rs:67-82 | without a repeat the search ends on the state after `cycles` steps; with one, on the state after start + len + 1 steps, whose hash equals that after start + 1 steps |
| Day14Cycle.ShortcutIsIterate | day14/src/part2.rs:62-97 | whatever the hashes do, the shortcut's result is the state after some number of steps |
| Day14Cycle.RepeatSteps | day14/src/part2.rs:90-96 | with a true repeat, the remaining `(cycles - start - 1) % len` steps land where `cycles` steps do |
| Day14Cycle.ShortcutSound | day14/src/part2.rs:62-97 | provided a repeated hash means a repeated state, the shortcut lands where `cycles` steps would |
| Day14Part1.TiltedPrefixFollowsSlider | day14/src/part1.rs:31-42 | a column's tilt correction is the length of the slider's queue, and its weight the load of the column as the slider has rearranged it |
| Day14Part1.TiltedWeightIsLoadOfTilt | day14/src/part1.rs:31-42 | each column's weight is the load of that column tilted north |
| Day14Part1.TiltedLoadIsLoadOfTiltNorth | day14/src/part1.rs:25-45 | computing the load without moving a rock gives the load of the panel tilted north |
| Day14Part1.TiltedPrefixNext | day14/src/part1.rs:34-40 | an empty place raises the correction, a square rock resets it, a round rock adds its row's load plus the correction |
| Day14Part1.AddRow | day14/src/part1.rs:32-41 | after a row, each column's weight and correction are those of the column's first row + 1 places |
| Day14Part1.CalcTiltedLoad | day14/src/part1.rs:25-45 | the sum over the columns of their tilted weights |
| Day14Part1.Run | day14/src/part1.rs:3-6 | the load of the parsed panel tilted north |
| Day14Part2.HashCollides | day14/src/part2.rs:99-113 | two different panels can share a hash, so a repeated hash need not be a repeated panel |
| Day14Part2.SpinNKeepsSquares | day14/src/part2.rs:115-120 | any number of spin cycles keeps the panel's shape and every square rock |
| Day14Part2.SpinResult | day14/src/part2.rs:62-97 | whatever the hashes do, `spin` keeps the panel's shape and every square rock |
| Day14Part2.SpinResultIsSpinN | day14/src/part2.rs:62-97 | `spin(cycles)` leaves the panel as `cycles` spin cycles would, provided a repeated hash means a repeated panel |
| Day14Part2.NorthFromColumns | day14/src/part2.rs:122-131 | a panel whose every column is the matching column slid north is the panel tilted north |
| Day14Part2.SouthFromColumns | day14/src/part2.rs:144-153 | the same for the south |
| Day14Part2.Sum | day14/src/part2.rs:59 | the sum of the weights |
| Day14Part2.Panel.FromStr | day14/src/part2.rs:14-24 | the positions are the parsed panel |
| Day14Part2.Panel.ProcessInColumn | day14/src/part2.rs:200-207 | the column, read in the slider's order, takes one slider step; other columns are unchanged |
| Day14Part2.Panel.ProcessInRow | day14/src/part2.rs:200-207 | the row, read in the slider's order, takes one slider step; other rows are unchanged |
| Day14Part2.Panel.FeedColumns | day14/src/part2.rs:126-130 | every column's slider takes the next place of its column |
| Day14Part2.Panel.TiltNorth | day14/src/part2.rs:122-131 | the positions become the panel tilted north |
| Day14Part2.Panel.TiltSouth | day14/src/part2.rs:144-153 | the positions become the panel tilted south |
| Day14Part2.Panel.SlideRow | day14/src/part2.rs:136-141 | one row is slid towards the chosen edge, the others unchanged |
| Day14Part2.Panel.TiltWest | day14/src/part2.rs:133-142 | the positions become the panel tilted west |
| Day14Part2.Panel.TiltEast | day14/src/part2.rs:155-163 | the positions become the panel tilted east |
| Day14Part2.Panel.SpinOnce | day14/src/part2.rs:115-120 | the positions become one spin cycle of the panel |
| Day14Part2.Panel.HashOf | day14/src/part2.rs:99-113 | the sum over the round rocks of their index in reading order |
| Day14Part2.Panel.CalcLoad | day14/src/part2.rs:45-60 | the load on the north beams: each round rock counts the rows from it to the south edge |
| Day14Part2.Panel.AddRowLoads | day14/src/part2.rs:51-56 | after a row each column's weight is the load of its first row + 1 places |
| Day14Part2.Panel.FindCycle | day14/src/part2.rs:67-82 | the panel and the reported repeat are those of the cycle search on spin cycles and the panel hash |
| Day14Part2.Panel.Spin | day14/src/part2.rs:62-97 | the positions become SpinResult of the old panel |
| Day14Part2.Panel.SpinTimes | day14/src/part2.rs:94-96 | `n` more spin cycles |
| Day14Part2.Run | day14/src/part2.rs:3-7 | the load of the parsed panel after `spin(1000000000)` |
| Day15Part1.HashBelow256 | day15/src/part1.rs:18-28 | every hash is below 256 |
| Day15Part1.HashIgnoresNewlines | day15/src/part1.rs:19-22 | newlines anywhere in a step do not change its hash |
| Day15Part1.HashAppend | day15/src/part1.rs:5-11 | the hasher keeps no state beyond its value: equal hashes stay equal after the same suffix |
| Day15Part1.Hasher.constructor | day15/src/part1.rs:13-16 | a fresh hasher holds 0 |
| Day15Part1.Hasher.Advance | day15/src/part1.rs:19-28 | one char: add its code, times 17, modulo 256; '\n' leaves the value unchanged; the `u32` never overflows |
| Day15Part1.Hash | day15/src/part1.rs:5-11 | the hasher's value after every char of the step, below 256 |
| Day15Part1.HashSumBounded | day15/src/part1.rs:1-3 | the sum of the hashes is at most 255 per step |
| Day15Part1.Run | day15/src/part1.rs:1-3 | the sum of the hashes of the comma-separated steps, at most 255 per step |
| Day15Part1.HashExample | day15/src/part1.rs:48-52 | hash("HASH") is 52 |
| Day15Part1.RunExample | day15/src/part1.rs:54-58 | the eleven example steps, joined by commas, split back into themselves and their hashes add up to 1320 |
| Day15Part2.IndexOfLabel | day15/src/part2.rs:30 | the first slot holding the label, None exactly when no slot does |
| Day15Part2.RemovedAt | day15/src/part2.rs:24-26 | in a map, removing a label cuts out exactly its one entry, or changes nothing when it is absent |
| Day15Part2.AddedAt | day15/src/part2.rs:28-36 | adding replaces the lens in the label's slot, or appends a new last entry |
| Day15Part2.RemovedLookup | day15/src/part2.rs:24-26 | after removal the label is absent and every other label keeps its lens |
| Day15Part2.AddedLookup | day15/src/part2.rs:28-36 | after adding the label holds the new lens and every other label keeps its lens |
| Day15Part2.RemovedKeepsUnique | day15/src/part2.rs:24-26 | removing keeps every label at most once in a box |
| Day15Part2.AddedKeepsUnique | day15/src/part2.rs:28-36 | adding keeps every label at most once in a box (the `assert!` holds) |
| Day15Part2.RemovedAfterAdded | day15/src/part2.rs:24-36 | removing after adding is removing alone |
| Day15Part2.LensSumReplace | day15/src/part2.rs:38-47 | replacing the lens in slot i changes the lens sum by (i + 1) times the change of focal length |
| Day15Part2.LensSumAppend | day15/src/part2.rs:38-47 | a lens appended as the n-th entry adds n times its focal length |
| Day15Part2.LensBox.constructor | day15/src/part2.rs:18-21 | a new box is empty |
| Day15Part2.LensBox.RemoveLens | day15/src/part2.rs:24-26 | the box becomes Removed of its old contents, still a map |
| Day15Part2.LensBox.AddLens | day15/src/part2.rs:28-36 | the box becomes Added of its old contents, still a map |
| Day15Part2.ParseOperation | day15/src/part2.rs:116-127 | '-' removes and a digit 1 to 9 sets that focal length; None for an empty step or any other last char (the source panics) |
| Day15Part2.RemoveNewline | day15/src/part2.rs:82-91 | the step, or the step without its one trailing newline |
| Day15Part2.RemoveNewlineKeepsHash | day15/src/part2.rs:71-72 | dropping the newline does not change the hash |
| Day15Part2.ParseLabel | day15/src/part2.rs:93-99 | the label is the step's prefix without the operation's chars; None where the length would underflow |
| Day15Part2.ParseInstructionAsWritten | day15/src/part2.rs:70-80 | as written: the box number, the hash of the whole step, is below 256 |
| Day15Part2.ParseInstruction | day15/src/part2.rs:70-80 | with the box chosen by the label's hash: the box number is below 256 |
| Day15Part2.ParseInstructionMeaning | day15/src/part2.rs:70-99 | a step parses exactly when its operation does and is long enough; then the box is the label's hash and the step is the label followed by the operation's chars |
| Day15Part2.ParseShowInstruction | day15/src/part2.rs:70-99 | a written step, with or without a newline, parses back to its label, its operation and the label's box |
| Day15Part2.ExecuteAllUnique | day15/src/part2.rs:101-107 | every box stays a map through any run of instructions |
| Day15Part2.ParseAll | day15/src/part2.rs:7-10 | one instruction per step, each aimed at one of the 256 boxes |
| Day15Part2.ParseAllNext | day15/src/part2.rs:7-10 | one more step is parsed and executed on the boxes of the steps before, or spoils the run when it does not parse |
| Day15Part2.ExecuteOn | day15/src/part2.rs:101-107 | the update lands in the instruction's box, which stays a map |
| Day15Part2.NewBoxes | day15/src/part2.rs:6 | 256 distinct, fresh, empty boxes |
| Day15Part2.SumPowers | day15/src/part2.rs:11-15 | the sum over the boxes of box number plus one times the lens sum |
| Day15Part2.ExecuteStep | day15/src/part2.rs:10 | the boxes hold the contents after one more instruction |
| Day15Part2.ExecuteSteps | day15/src/part2.rs:7-10 | succeeds exactly when every step parses, and then the boxes hold the contents after all instructions in order |
| Day15Part2.Run | day15/src/part2.rs:5-16 | corrected program (box chosen by the hash of the label, as in the Findings table): the total focusing power after all steps, as Answer gives it, None when a step does not parse (the source panics) |
| Day15Part2.AsWrittenBoxes | day15/src/part2.rs:72 | as written, "cm=2" goes to box 47 and "cm-" to box 253 |
| Day15Part2.AsWrittenRemovalMissed | day15/src/part2.rs:72 | as written, after "cm=2" and "cm-" box 47 still holds the lens of label "cm" |
| Day15Part2.RemoveUndoesAdd | day15/src/part2.rs:70-107 | with the box chosen by the label, `label=d` and `label-` go to the same box and the removal undoes the addition |
| Day9Part1.Calc | day9/src/part1.rs:83-100 | the in-place rewrite of the buffer returns CalcValue: the first entry of every difference row but the last, added up, the buffer reversed first for the next value |
| Day9Part1.DifferencePass | day9/src/part1.rs:94-96 | the inner loop turns the entries before the range end into the differences of neighbours and leaves the rest of the buffer as it was |
| Day9Part1.CalcNext | day9/src/part1.rs:15-17 | `calc_next` is `calc` with `Next` |
| Day9Part1.DifferencesOfReverse | day9/src/part1.rs:86-88 | on the reversed buffer one pass gives the reversed steps of the history |
| Day9Part1.FirstsSumOfReverse | day9/src/part1.rs:86-97 | on the reversed buffer the rows' first entries are the last entries of the difference table |
| Day9Part1.NextValueSplit | day9/src/part1.rs:83-100 | the puzzle's next value is the last entries of the first m rows plus the next value of row m |
| Day9Part1.DifferencesOfSignedRow | day9/src/part1.rs:91-97 | on the unreversed buffer one pass gives the next difference row with its sign flipped |
| Day9Part1.FirstsSumOfSignedRow | day9/src/part1.rs:91-97 | on the unreversed buffer the rows' first entries are the table's first entries with alternating sign |
| Day9Part1.PrevValueSplit | day9/src/part1.rs:83-100 | the puzzle's previous value splits into the signed first entries of the first m rows and row m's previous value |
| Day9Part1.CalcNextMeaning | day9/src/part1.rs:83-100 | `calc` for the next value equals the puzzle's extrapolation minus the single entry of the table's last row |
| Day9Part1.CalcPrevMeaning | day9/src/part1.rs:83-100 | `calc` for the previous value equals the puzzle's backward extrapolation minus the last row's entry, signed by that row's parity |
| Day9Part1.StepsOfZeros | day9/src/part1.rs:91-97 | the steps of a row of zeros are zeros |
| Day9Part1.ZeroRowsStayZero | day9/src/part1.rs:91-97 | once a difference row is all zeros every later row is too |
| Day9Part1.CalcExact | day9/src/part1.rs:83-100 | when the difference table reaches a row of zeros, `calc` gives exactly the next and the previous value of the history |
| Day9Part1.ExtrapolateZeros | day9/src/part1.rs:83-100 | a history of zeros extrapolates to 0 both ways |
| Day9Part1.ConstantRow | day9/src/part1.rs:133-137 | a constant row has zero steps and extrapolates to its constant both ways |
| Day9Part1.ConstantHistory | day9/src/part1.rs:133-137 | `calc` on a constant history returns the constant for both the next and the previous value |
| Day9Part1.ArithmeticSteps | day9/src/part1.rs:139-143 | the steps of an arithmetic sequence are all its difference |
| Day9Part1.ConstantSteps | day9/src/part1.rs:121-125 | a history with constant steps d continues with last + d and starts with first - d, and its second differences vanish |
| Day9Part1.ArithmeticHistory | day9/src/part1.rs:121-143 | `calc` continues an arithmetic history of three or more readings with its next and its previous term |
| Day9Part1.TwoReadings | day9/src/part1.rs:85-97 | with two readings `calc` returns the last reading, not the next term of the sequence |
| Day9Part1.ParseHistory | day9/src/part1.rs:4 | a line parses to one number per space-separated word, or fails where `parse().unwrap()` panics |
| Day9Part1.ParseAll | day9/src/part1.rs:4 | the words parse to as many numbers, or the parse fails |
| Day9Part1.ParseLines | day9/src/part1.rs:1-7 | every line parses to a history, or the whole parse fails |
| Day9Part1.SumCalc | day9/src/part1.rs:1-7 | the loop adds up `calc` over the histories, and fails where `calc` would panic |
| Day9Part1.AddCalc | day9/src/part1.rs:5-6 | one step of the sum adds the next history's `calc` value, or fails on a history of one reading |
| Day9Part1.TotalNext | day9/src/part1.rs:5-6 | the running total grows by the next history's `calc` value, or becomes a panic when that history has at most one reading |
| Day9Part1.Run | day9/src/part2.rs:3-13 | part 1 (`Next`) and part 2 (`Prev`) answer the sum of `calc` over the parsed lines |
| Day9Part1.TotalPrefixNone | day9/src/part1.rs:85 | once one history panics, so does the whole sum |
| Day9Tests.DiffOverZero | day9/src/part1.rs:115-119 | 4 2 1 1 continues with 2 |
| Day9Tests.NegativeOne | day9/src/part1.rs:127-131 | 0 -1 -3 -6 continues with -10 |
| Day9Tests.NextOne | day9/src/part1.rs:139-143 | 0 3 6 9 12 15 continues with 18 and, for part 2, starts with -3 |
| Day9Tests.NextTwo | day9/src/part1.rs:145-149 | 1 3 6 10 15 21 continues with 28 and, for part 2, starts with 0 |
| Day9Tests.NextThree | day9/src/part1.rs:151-154 | 10 13 16 21 30 45 continues with 68 and, for part 2, starts with 5 |
| Day9Tests.ExampleTotalNext | day9/src/part1.rs:106-113 | the next values of the example histories 0 3 6 9 12 15, 1 3 6 10 15 21 and 10 13 16 21 30 45 add up to 114 |
| Day9Tests.ExampleTotalPrev | day9/src/part2.rs:19-26 | the previous values of the same histories add up to 2 |
| Day8Part1.DirectionFrom | day8/src/part1.rs:46-54 | 'L' becomes Left and 'R' Right; any other character is excluded, as the source panics on it |
| Day8Part1.DirectionChar | day8/src/part1.rs:46-54 | every direction has a guide character the conversion accepts |
| Day8Part1.DirectionRoundTrip | day8/src/part1.rs:46-54 | the conversion from a guide character and back is a bijection between 'L'/'R' and the two directions |
| Day8Part1.IdEnds | day8/src/part1.rs:63-70 | `is_start` and `is_end` hold exactly when the id's last character is 'A', resp. 'Z', and never both |
| Day8Part1.Unbracketed | day8/src/part1.rs:102-106 | the node text loses its first and last character, or becomes empty when it has fewer than two |
| Day8Part1.ParseNode | day8/src/part1.rs:100-112 | a parsed node's left and right ids, joined by ", ", are the text inside the brackets; no node where `unwrap` panics |
| Day8Part1.ParseNodeText | day8/src/part1.rs:100-112 | parsing the bracketed text of a node gives the node back when its left id holds no ',' |
| Day8Part1.WalkFurtherParsed | day8/src/part1.rs:113-118 | walking left from a parsed node reaches its left id, walking right its right id |
| Day8Part1.Entries | day8/src/part1.rs:78-81 | the node lines are the lines with a " = ", in order, and there are no more of them than lines |
| Day8Part1.EntriesPrefix | day8/src/part1.rs:78-81 | the entries of the first k lines come first among the entries of all lines |
| Day8Part1.EntriesNext | day8/src/part1.rs:78-81 | one more line adds its entry exactly when it has a " = " |
| Day8Part1.ArenaKeys | day8/src/part1.rs:76-89 | every id in the arena comes from a node line |
| Day8Part1.ArenaLookup | day8/src/part1.rs:76-89 | an id no later line repeats maps to the node parsed from its own line |
| Day8Part1.ArenaValues | day8/src/part1.rs:76-89 | with the source's assertion of unique ids, every node line's id maps to its own node |
| Day8Part1.PrefixReadable | day8/src/part1.rs:84 | the lines before a readable line are readable |
| Day8Part1.NoRepeat | day8/src/part1.rs:85-86 | under unique ids the next insertion overwrites nothing, as the source asserts |
| Day8Part1.InsertLine | day8/src/part1.rs:79-86 | one pass of the line loop inserts the line's node when the line has " = " and skips it otherwise |
| Day8Part1.ParseArena | day8/src/part1.rs:76-89 | `NodeArena::parse` builds the map from every node line's id to its node |
| Day8Part1.ModUnique | day8/src/part1.rs:30-35 | the guide position after q full passes and r more characters is r |
| Day8Part1.ModNext | day8/src/part1.rs:30-35 | one character further the guide position advances by one, or wraps to the start at the end of the line |
| Day8Part1.Guide.Parse | day8/src/part1.rs:25-29 | the guide is the first line of the input, nothing read yet |
| Day8Part1.Guide.NextChar | day8/src/part1.rs:30-35 | the next character handed out is the guide's character at the number of calls so far, modulo its length |
| Day8Part1.Guide.WhereTo | day8/src/part1.rs:36-38 | each call hands out the direction of the next guide character, starting over past the end of the line |
| Day8Part1.Step | day8/src/part1.rs:13-14 | a step succeeds exactly when the node is in the arena, the guide is not empty and its character is 'L' or 'R' |
| Day8Part1.OnTheWayExtend | day8/src/part1.rs:12-16 | one more position other than the target extends the walk that has not arrived yet |
| Day8Part1.PanicReported | day8/src/part1.rs:12-16 | a step that fails before the target is reached makes the walk panic |
| Day8Part1.StepOn | day8/src/part1.rs:13-15 | one round of the loop looks the node up, asks the guide and walks to the neighbour the specification's step names |
| Day8Part1.Walk | day8/src/part1.rs:9-17 | the loop reports the first step count at which the target is reached, a panic on the way, or no arrival within the fuel |
| Day8Part1.Run | day8/src/part1.rs:3-18 | the walk from "AAA" to "ZZZ" over the parsed arena and guide reports its first arrival, a panic, or no arrival within the fuel |
| Day8Part2.StartIds | day8/src/part2.rs:21-32 | there are no more start ids than lines |
| Day8Part2.StartIdsMeaning | day8/src/part2.rs:21-32 | an id is a start id exactly when it ends in 'A' and is the first piece of some line |
| Day8Part2.Advanced | day8/src/part2.rs:38-44 | every walk moves on, so their number stays the same |
| Day8Part2.Path.Parse | day8/src/part2.rs:21-32 | the path starts at the start ids with no step taken |
| Day8Part2.Path.AreWeThereYet | day8/src/part2.rs:35-46 | one more step moves every walk in the given direction, and the answer is whether all of them now stand on an end |
| Day8Part2.Positions | day8/src/part2.rs:9-12 | after k steps there are as many walks as starts, unless a step panicked |
| Day8Part2.NotYetExtend | day8/src/part2.rs:9-12 | one more step that leaves some walk off an end extends the steps without arrival |
| Day8Part2.Round | day8/src/part2.rs:10-11 | one round asks the guide and moves every walk to where the specification's positions say, answering whether all stand on an end, or panics where a step fails |
| Day8Part2.Walk | day8/src/part2.rs:8-13 | the loop reports the first step after which all walks stand on an end, a panic, or no arrival within the fuel |
| Day8Part2.Run | day8/src/part2.rs:3-14 | part 2 walks every start id in lockstep over the parsed arena and guide and reports the first step at which all end in 'Z' |
| Day8Part2.AdvancedPair | day8/src/part2.rs:38-44 | two walks each move to their own neighbour in the given direction |
| Day8Part2.ExampleArrival | day8/src/part2.rs:56-72 | on the example network with guide "LR" the walks from 11A and 22A all first stand on an end after 6 steps |
| Day7Part1.CardFrom | day7/src/part1.rs:55-75 | a card character maps to its strength from 0 for '2' to 12 for 'A', exactly the characters of the card order, and nothing else (the panic) |
| Day7Part1.CardFromOrder | day7/src/part1.rs:55-76 | every strength below 13 is the value of its own character in the card order |
| Day7Part1.ParseCards | day7/src/part1.rs:80-84 | the first five characters are read as cards, each strength naming its character; the parse fails exactly when a character is missing or not a card |
| Day7Part1.CardsText | day7/src/part1.rs:80-84 | five cards are written as five characters |
| Day7Part1.ParseCardsText | day7/src/part1.rs:80-84 | cards written out read back as the same cards |
| Day7Part1.CountsOf | day7/src/part1.rs:23-27 | the counting array has one counter per card strength |
| Day7Part1.CountPair | day7/src/part1.rs:23-27 | two different strengths together occur no more often than there are cards |
| Day7Part1.CountMember | day7/src/part1.rs:23-27 | a strength some card has is counted at least once |
| Day7Part1.CountAtMost | day7/src/part1.rs:23-27 | no strength is counted more often than there are cards |
| Day7Part1.CountOther | day7/src/part1.rs:23-27 | when not every card has strength v, some card has another strength |
| Day7Part1.TopTwoWitness | day7/src/part1.rs:29-38 | the second loop keeps the largest count, found at some index, and the second largest, found at another index, and no other count exceeds the second |
| Day7Part1.Classify | day7/src/part1.rs:40-49 | the pairs the match accepts have the second count at most the largest and at most five cards between them |
| Day7Part1.FiveCardsClassified | day7/src/part1.rs:40-49 | for five cards the match always succeeds, so the panic arm cannot be reached |
| Day7Part1.HandTypeCounts | day7/src/part1.rs:22-50 | the type is the classification of the counts of two different strengths, with no other strength counted more than the second |
| Day7Part1.FromCards | day7/src/part1.rs:22-50 | the counting loop and the top-two loop give the type the specification's classification of the counts gives |
| Day7Part1.TypeRank | day7/src/part1.rs:95-104 | ranks lie between 0 and 6, 6 exactly for five of a kind and 0 exactly for high card |
| Day7Part1.TypeRankInjective | day7/src/part1.rs:95-104 | different types never share a rank |
| Day7Part1.HighcardRanking | day7/src/part1.rs:88-94 | the cards read as a five-digit base-13 number, first card most significant, below 13^5 and so below the type step of 1000000 |
| Day7Part1.LexTotal | day7/src/part1.rs:88-94 | of two different card lists of one length one comes first |
| Day7Part1.LexLessFive | day7/src/part1.rs:88-94 | comparing five cards in order means the first differing card decides |
| Day7Part1.HighcardOrder | day7/src/part1.rs:88-94 | one highcard ranking is below another exactly when the cards come first card by card |
| Day7Part1.HighcardInjective | day7/src/part1.rs:88-94 | different cards never share a highcard ranking |
| Day7Part1.RankingOrder | day7/src/part1.rs:95-109 | one hand ranks below another exactly when its type ranks lower, or the types agree and its cards come first card by card |
| Day7Part1.RankingInjective | day7/src/part1.rs:95-109 | two hands share a ranking only when they hold the same cards in the same order |
| Day7Part1.ParseHand | day7/src/part1.rs:118-125 | a parsed hand's ranking is the ranking of some five valid cards |
| Day7Part1.ParseHandLine | day7/src/part1.rs:118-125 | a line written from cards, a space and a bid reads back as the hand with that ranking and bid |
| Day7Part1.Insert | day7/src/part1.rs:3 | inserting into a sorted list keeps it sorted and adds exactly the one hand |
| Day7Part1.SortedCons | day7/src/part1.rs:3 | a hand ranked no higher than the head of a sorted list can go in front of it |
| Day7Part1.SortByRanking | day7/src/part1.rs:3 | the sort orders the hands by ranking and is a permutation of them |
| Day7Part1.SortedUnique | day7/src/part1.rs:3 | two sorted permutations of hands with distinct rankings are equal, so any sort, stable or not, gives the same order |
| Day7Part1.SortedHeads | day7/src/part1.rs:3 | two sorted permutations of hands with distinct rankings start with the same hand |
| Day7Part1.ParseHands | day7/src/part1.rs:2 | every line parsed as a hand, one hand per line, and the parse fails exactly when a line fails |
| Day7Part1.Part1AnySort | day7/src/part1.rs:1-9 | when no two hands share a ranking, the answer is the winnings of every sorted arrangement of the parsed hands |
| Day7Part1.Part1 | day7/src/part1.rs:1-9 | None exactly when some line does not parse (where the source panics); otherwise the total is the winnings of the parsed hands in some order of ascending ranking |
| Day7Part1.DistinctPermuted | day7/src/part1.rs:3 | a permutation of hands with distinct rankings has distinct rankings |
| Day7Part1.MultiplicityOne | day7/src/part1.rs:3 | in hands with distinct rankings each hand occurs once |
| Day7Part1.ExampleCards | day7/src/part1.rs:153-160 | "QTQTQ 42" and "TQQTQ 42" read as the cards Q T Q T Q and T Q Q T Q, the bid ignored |
| Day7Part1.CountMultiset | day7/src/part1.rs:23-27 | a strength's count is its multiplicity among the cards |
| Day7Part1.TypeFromCounts | day7/src/part1.rs:29-49 | the type follows from any most-counted strength and any most-counted other strength, whichever way ties fall |
| Day7Part1.ExampleFullHouse | day7/src/part1.rs:151-155 | QTQTQ and TQQTQ are full houses |
| Day7Part1.ExampleHighcard | day7/src/part1.rs:157-162 | QTQTQ has the higher highcard ranking and the higher ranking than TQQTQ |
| Day7Part1.ExampleHands | day7/src/part1.rs:166-171 | the five test lines read as their hands: one pair, two three-of-a-kinds and two two-pairs with their bids |
| Day7Part1.ExampleWinnings | day7/src/part1.rs:164-174 | the test hands in ranking order win 6440 |
| Day7Part1.ExampleTotal | day7/src/part1.rs:164-174 | the test input wins 6440 in total |
| Day7Part1.ExampleSorted | day7/src/part1.rs:164-174 | the test hands have distinct rankings, and in ranking order they win 6440 |
| Day6Races.ParseUsize | day6/src/main.rs:43 | a piece parses exactly when it is a decimal number below 2^64, to that number |
| Day6Races.CalcDistance | day6/src/main.rs:22-26 | the boat goes nowhere exactly when the button is not pressed or held for the whole race |
| Day6Races.DistanceSymmetric | day6/src/main.rs:22-26 | holding for `press` and for `time - press` goes equally far |
| Day6Races.DistanceGap | day6/src/main.rs:22-26 | the difference of two distances factors as (x - y) * (time - x - y) |
| Day6Races.HalfIsBest | day6/src/main.rs:22-26 | holding for half the race, rounded down, goes furthest |
| Day6Races.WinsBetween | day6/src/main.rs:28-34 | a press between two winning presses wins too |
| Day6Races.CountWins | day6/src/main.rs:28-34 | no more presses below n win than there are |
| Day6Races.WinOptions | day6/src/main.rs:28-34 | there are at most time + 1 winning options |
| Day6Races.CountWinsCounts | day6/src/main.rs:28-34 | the count is the size of the set of winning presses below n |
| Day6Races.WinOptionsCounts | day6/src/main.rs:28-34 | `calc_num_win_options` is the number of presses in 0 ..= time that beat the record |
| Day6Races.NoWinIffHalfLoses | day6/src/main.rs:28-34 | a race has no winning option exactly when holding for half the race does not beat the record |
| Day6Races.CountWinsInterval | day6/src/main.rs:28-34 | when the wins are exactly lo ..= hi, the count below n is the part of that interval below n |
| Day6Races.WinsExactly | day6/src/main.rs:28-34 | the winning presses form one run from a first to a last winning press, and their number is its length |
| Day6Races.ExampleRaces | day6/src/main.rs:96-104 | the test races (7, 9), (15, 40) and (30, 200) have 4, 8 and 9 winning options |
| Day6Races.Numbers | day6/src/main.rs:43 | `filter_map` keeps at most one number per piece, each below 2^64 |
| Day6Races.NumbersAppend | day6/src/main.rs:43 | the numbers of two runs of pieces are the numbers of each, in order |
| Day6Races.EmptyPieceSkipped | day6/src/main.rs:43 | an empty piece between two spaces adds no number |
| Day6Races.NumbersOfTexts | day6/src/main.rs:43 | printed numbers below 2^64 read back one by one |
| Day6Races.Zip | day6/src/main.rs:51-53 | zipping pairs the i-th time with the i-th record, as far as the shorter row goes |
| Day6Races.ParseRaces | day6/src/main.rs:39-54 | parsing fails exactly when the input has no '\n' or either line has no ':', the source's panics |
| Day6Races.Row | day6/src/main.rs:39-54 | a printed row holds no '\n' and no ':' |
| Day6Races.RacesTextSplits | day6/src/main.rs:40-45 | the printed rows come apart at the '\n' and at each ':' into the labels and the rows |
| Day6Races.RowTrimmed | day6/src/main.rs:46-47 | a printed row is its own trim |
| Day6Races.RowNumbers | day6/src/main.rs:43-49 | a printed row of numbers below 2^64 reads back as those numbers |
| Day6Races.ParseRacesText | day6/src/main.rs:39-54 | printed rows of equal length parse back to one race per column, time and record |
| Day6Races.JoinEnds | day6/src/main.rs:39-54 | joined printed numbers start and end with a digit |
| Day6Races.Product | day6/src/main.rs:59 | the product is zero exactly when some factor is zero |
| Day6Races.WinCounts | day6/src/main.rs:58 | each race's entry is its number of winning options |
| Day6Races.Part1 | day6/src/main.rs:56-60 | part 1 has an answer exactly when the races parse |
| Day6Races.Part1ZeroIffUnbeatable | day6/src/main.rs:56-60 | part 1 is zero exactly when some race's record cannot be beaten even by holding for half the race |
| Day6Races.Despace | day6/src/main.rs:67 | the result holds no space and is no longer than the input |
| Day6Races.DespaceAppend | day6/src/main.rs:67 | taking spaces out distributes over concatenation |
| Day6Races.DespaceUnspaced | day6/src/main.rs:67 | a string without spaces is left as it is |
| Day6Races.DespaceAfter | day6/src/main.rs:67 | a spaceless part, a space and the rest lose only the spaces |
| Day6Races.ConcatSplit | day6/src/main.rs:67 | splitting at spaces and pushing every piece onto one string takes the spaces out |
| Day6Races.KernedNumber | day6/src/main.rs:65-68 | a kerned line reads as the number its trimmed, despaced text spells, if it fits in 64 bits |
| Day6Races.ParseKernedRace | day6/src/main.rs:62-79 | the kerned race parses only when the input has a '\n' |
| Day6Races.Glued | day6/src/main.rs:67 | gluing printed numbers gives a non-empty string of digits |
| Day6Races.ParseKernedRaceText | day6/src/main.rs:62-79 | printed rows read as one race whose time and record are the glued digits of each row |
| Day6Races.GluedDigits | day6/src/main.rs:65-68 | a printed row read as one kerned number gives its glued digits |
| Day6Races.ConcatDigits | day6/src/main.rs:67 | gluing non-empty strings of digits gives a non-empty string of digits |
| Day6Races.ParseUsizeDigits | day6/src/main.rs:68 | digits without a sign parse as their value when it fits in 64 bits, and fail otherwise |
| Day6Races.Part2 | day6/src/main.rs:80-82 | part 2 has an answer exactly when the kerned race parses, and it is at most the race time plus one |
| Day5Main.FromLine | day5/src/main.rs:23-40 | a parsed range has source and destination of equal length, read from the first three of at least three space-separated pieces |
| Day5Main.FromLineOfText | day5/src/main.rs:23-40 | a range written as "dest source length" reads back as the same range |
| Day5Main.FromLineOfParts | day5/src/main.rs:23-40 | three numbers d, s, n separated by single spaces make the ranges [s, s+n) and [d, d+n) |
| Day5Main.SplitThree | day5/src/main.rs:24 | three pieces without spaces, joined by spaces, split back into those three pieces |
| Day5Main.Get | day5/src/main.rs:42-53 | a range gives a value exactly for the keys inside its source range |
| Day5Main.GetInDest | day5/src/main.rs:42-53 | a found key lands inside the destination range, at the key's offset into the source range |
| Day5Main.GetInjective | day5/src/main.rs:42-53 | two keys a range sends to the same place are the same key |
| Day5Main.GetOnto | day5/src/main.rs:42-53 | every value of the destination range is reached from the key at the same offset |
| Day5Main.FindMap | day5/src/main.rs:103-105 | no range holds the key exactly when nothing is found, and otherwise the first range holding the key decides |
| Day5Main.MapGet | day5/src/main.rs:101-107 | a key no range holds maps to itself |
| Day5Main.MapGetFirst | day5/src/main.rs:101-107 | a key maps to where the first range holding it sends it |
| Day5Main.MapId | day5/src/main.rs:88 | the header "{from}-to-{to} map:" is not empty |
| Day5Main.RangesOf | day5/src/main.rs:91-96 | the ranges read from the lines up to the first empty one are all well formed |
| Day5Main.ParseMap | day5/src/main.rs:85-99 | a parsed map's header occurs in the input and its ranges are well formed |
| Day5Main.RangeTextIsLine | day5/src/main.rs:91-96 | a written range line is a single non-empty line |
| Day5Main.RangesOfBlock | day5/src/main.rs:91-96 | written range lines followed by the end of input or an empty line read back as the ranges |
| Day5Main.RangesOfEnd | day5/src/main.rs:94 | the end of input or an empty line ends a map |
| Day5Main.RangesOfLineThen | day5/src/main.rs:91-96 | a written range line followed by lines that read back adds its range in front |
| Day5Main.RangesOfCons | day5/src/main.rs:91-96 | a non-empty range line in front adds its range in front |
| Day5Main.ParseMapOfText | day5/src/main.rs:85-99 | a map written as its header and range lines reads back when the header first occurs there and the block ends the input or an empty line follows |
| Day5Main.LinesAfterHeader | day5/src/main.rs:91-93 | the lines after the header line read back as the ranges |
| Day5Main.ParseSeeds | day5/src/main.rs:110-118 | the seed line, when it parses, holds at least one seed |
| Day5Main.JoinedDigits | day5/src/main.rs:110-118 | numbers joined by spaces start and end with a digit and hold no line break or ':' |
| Day5Main.ParseSeedsOfText | day5/src/main.rs:110-118 | any non-empty list of seeds written as "seeds: ..." and followed by more lines reads back |
| Day5Main.SeedsFirstLine | day5/src/main.rs:111 | the seed line is the first line and is cut after "seeds:" |
| Day5Main.SeedsNumbers | day5/src/main.rs:112-117 | the numbers after "seeds:" trim, split and parse back to the seeds |
| Day5Main.SeedsLineShape | day5/src/main.rs:111 | "seeds: " and a number list form one line cut at its ':' |
| Day5Main.TrimSpaced | day5/src/main.rs:113 | trimming the space in front of a number list gives the list |
| Day5Main.ParseSeedsFrom | day5/src/main.rs:110-118 | the seeds follow from the first line, the cut at ':', the trim and split and the parse |
| Day5Main.ParseChainFrom | day5/src/main.rs:121-129 | the maps from a category on are each parsed with their own header, and the chain fails exactly when one of them does |
| Day5Main.ParseChain | day5/src/main.rs:121-129 | the chain holds the seven maps from seed to location |
| Day5Main.LocationUntouched | day5/src/main.rs:133-142 | a key no range of any map holds comes out unchanged |
| Day5Main.MinOf | day5/src/main.rs:143 | the minimum is one of the values and no value is lower |
| Day5Main.Locations | day5/src/main.rs:133-142 | each seed's entry is the seed sent through every map in turn |
| Day5Main.Part1 | day5/src/main.rs:120-145 | part 1 has an answer exactly when all seven maps and the seed line parse |
| Day5Main.Part1Minimum | day5/src/main.rs:120-145 | part 1 is the location of some seed and no seed has a lower one |
| Day5Main.LowestLocation | day5/src/main.rs:133-144 | the least location is one seed's location and below every seed's location |
| Day5Main.ExampleRange | day5/src/main.rs:175-184 | "1 2 2" sends 2 and 3 to 1 and 2 and holds neither 0, 1 nor 4 |
| Day5Main.ExampleLine | day5/src/main.rs:186-221 | a range with numbers below 100 is written with those one- or two-digit numbers |
| Day5Main.SmallNatToString | day5/src/main.rs:186-221 | numbers below 100 print as one or two digits |
| Day5Main.ExampleParseSeedToSoil | day5/src/main.rs:186-223 | the seed-to-soil map parses from the example input as its two ranges, whatever maps follow |
| Day5Main.ExampleSeedToSoilLines | day5/src/main.rs:192-193 | "50 98 2" and "52 50 48" are the written ranges of the seed-to-soil map |
| Day5Main.ExampleSeedToSoilHeader | day5/src/main.rs:191 | "seed-to-soil map:" is the header for seed and soil |
| Day5Main.ExampleNoDash | day5/src/main.rs:189-190 | the seed line in front of the first map holds no '-' |
| Day5Main.ParseTwoLineMap | day5/src/main.rs:85-99 | a map of two range lines followed by an empty line reads back when the header's first occurrence is where it was written |
| Day5Main.BlockOfTwo | day5/src/main.rs:91-96 | a block of two ranges is their two lines, each ended by a line break |
| Day5Main.ExampleSeedToSoilGets | day5/src/main.rs:223-230 | seed to soil sends 0, 49 and 100 to themselves, 50 to 52, 97 to 99, 98 to 50 and 99 to 51 |
| Day4Main.Clone | day4/src/main.rs:16-25 | a clone is a copy with the original's id and numbers |
| Day4Main.MatchCount | day4/src/main.rs:62-68 | the matches are at most the chosen numbers, zero exactly when no chosen number wins, all of them exactly when every chosen number wins |
| Day4Main.MatchCountAppend | day4/src/main.rs:62-68 | the matches of two stretches of chosen numbers add up |
| Day4Main.PointsDouble | day4/src/main.rs:54-60 | a card scores exactly when a chosen number wins, and one more winning chosen number doubles a scoring card's points |
| Day4Main.CloneScores | day4/src/main.rs:16-25 | a copy matches and scores as its original |
| Day4Main.ParseCard | day4/src/main.rs:28-45 | a parsed card is an original, not a copy |
| Day4Main.SpacedPieces | day4/src/main.rs:47-52 | the non-empty pieces of spaced numbers are the numbers' texts |
| Day4Main.ParseSpaced | day4/src/main.rs:47-52 | spaced numbers, with or without a trailing space, parse back |
| Day4Main.PaddedWord | day4/src/main.rs:30-33 | spaces before a word leave only the word as a non-empty piece |
| Day4Main.TwoWords | day4/src/main.rs:30-33 | two words apart by a run of spaces are the two non-empty pieces |
| Day4Main.PrefixWords | day4/src/main.rs:29-36 | the written prefix "Card", padding and id has the id as its second word and no ':' |
| Day4Main.NumbersParts | day4/src/main.rs:37-43 | the written numbers split at '|' into the winning and the chosen numbers, which parse back |
| Day4Main.ParseCardLine | day4/src/main.rs:28-45 | a written card, however padded before its id, parses back to the original card it shows |
| Day4Main.SpacedAppend | day4/src/main.rs:47-52 | one more number is written after one more space |
| Day4Main.Part1 | day4/src/main.rs:120-126 | part 1 has an answer exactly when every line parses |
| Day4Main.ParseWritten | day4/src/main.rs:120-126 | cards written one per line parse back to the cards |
| Day4Main.LinesOfWritten | day4/src/main.rs:121-122 | written cards joined by line breaks come apart into the written lines |
| Day4Main.Part1OfWritten | day4/src/main.rs:120-126 | part 1 on cards written one per line is the sum of their points |
| Day4Main.PileOrder | day4/src/main.rs:96-99 | a pile built from a deck has the deck's first card on top and the pile of the rest beneath |
| Day4Main.Copies | day4/src/main.rs:105-117 | a card wins at most as many copies as it has matches and as there are originals in the pile, each a copy with a larger id |
| Day4Main.CopiesAreClones | day4/src/main.rs:105-117 | every won copy is a clone of an original card in the pile |
| Day4Main.CopiesAscending | day4/src/main.rs:105-117 | copies taken from originals in increasing id order come in increasing id order |
| Day4Main.Pile.constructor | day4/src/main.rs:96-99 | the pile holds the deck reversed, so the first card is on top |
| Day4Main.Pile.Pop | day4/src/main.rs:101-103 | nothing comes off exactly an empty pile, and otherwise the top card comes off and the rest stays |
| Day4Main.Pile.ProcessCard | day4/src/main.rs:105-117 | the copies the card wins go on top of the pile, the first of them topmost, and nothing else changes |
| Day4Main.CopiesOnTop | day4/src/main.rs:116 | after processing, the won copies are the next cards to come off the pile, in order |
| Day4Main.MeasureBounds | day4/src/main.rs:132-135 | a round keeps every id within the deck's largest and adds no originals |
| Day4Main.MeasureStep | day4/src/main.rs:132-135 | a round lowers the weight of the pile, so the loop of part 2 ends |
| Day4Main.WonLighter | day4/src/main.rs:105-117 | what one card wins weighs less than the card |
| Day4Main.TakeAbove | day4/src/main.rs:105-117 | when all originals have larger ids, a card wins clones of the next n of them |
| Day4Main.StackCopies | day4/src/main.rs:105-117 | in an ordered deck card p wins clones of the cards right after it, as many as its matches and the deck allow |
| Day4Main.PopCopy | day4/src/main.rs:132-135 | popping a copy takes the clone of the most recently won card and leaves the pile pictured by the positions before it |
| Day4Main.PopOriginal | day4/src/main.rs:132-135 | popping an original takes the next deck card and leaves the originals after it |
| Day4Main.TrackOriginal | day4/src/main.rs:132-135 | a round that takes an original off accounts for one card of the puzzle's total |
| Day4Main.TrackCopy | day4/src/main.rs:132-135 | a round that takes a copy off accounts for one card of the puzzle's total |
| Day4Main.RunningStart | day4/src/main.rs:129-130 | the pile as built from the deck starts the count at zero with the whole total still ahead |
| Day4Main.RunningStep | day4/src/main.rs:132-135 | a round keeps the loop's invariant with the count one higher and the pile lighter |
| Day4Main.RunningDone | day4/src/main.rs:132-137 | when the pile is empty the count is the puzzle's total |
| Day4Main.Round | day4/src/main.rs:132-135 | one pass processes the card in hand and pops the next, keeping the invariant and lowering the weight |
| Day4Main.ScratchAll | day4/src/main.rs:129-137 | the loop empties the pile, and for a deck whose ids increase the count is the puzzle's total of cards |
| Day4Main.Part2 | day4/src/main.rs:128-138 | part 2 fails exactly when parsing does, and for a deck whose ids increase it answers the total number of cards |
| Day4Tests.PointsTestOne | day4/src/main.rs:225-227 | "Card 1: 1 2 3 4 \| 2 3" is card 1 and scores 2 |
| Day4Tests.PointsTestTwo | day4/src/main.rs:228-230 | "Card 2: 1 2 3 4 \| 1 2 3 4 5" is card 2 and scores 8 |
| Day4Tests.PointsTestThree | day4/src/main.rs:231-233 | "Card  3: 1 2 3 4 \| 1 2 3 4 5" is card 3 and scores 8 |
| Day4Tests.PileMatches | day4/src/main.rs:167-170 | the three cards of the pile test match 2, 1 and 1 times, and so do their copies |
| Day4Tests.Round1 | day4/src/main.rs:172-176 | card 1 comes off and copies of cards 2 and 3 go on top |
| Day4Tests.Round2 | day4/src/main.rs:179-183 | the copy of card 2 comes off and a copy of card 3 goes on top |
| Day4Tests.Round3 | day4/src/main.rs:186-190 | a copy of card 3 comes off and wins nothing |
| Day4Tests.Round4 | day4/src/main.rs:193-197 | the other copy of card 3 comes off |
| Day4Tests.Round5 | day4/src/main.rs:200-204 | card 2 comes off and a copy of card 3 goes on top |
| Day4Tests.Round6 | day4/src/main.rs:207-211 | the copy of card 3 comes off |
| Day4Tests.Round7 | day4/src/main.rs:214-220 | card 3 comes off and the pile is empty |
| Day4Tests.PileTotal | day4/src/main.rs:166-221 | match counts 2, 1, 1 give 7 cards, the seven pops of the pile test |
| Day4Tests.ExampleTotal | day4/src/main.rs:153-163 | the example's match counts 4, 2, 2, 1, 0, 0 give 30 cards |
| Day3Schematic.ParseEntry | day3/src/main.rs:20-30 | a char is a number exactly when it is a decimal digit, with the digit's value; empty exactly for '.' and '\n'; a gear exactly for '*' |
| Day3Schematic.SymbolChars | day3/src/main.rs:32-39 | a parsed char is a symbol exactly when it is neither a digit, nor '.', nor '\n' |
| Day3Schematic.ContainsSymbols | day3/src/main.rs:63-89 | true exactly when one of the eight neighbouring entries is a symbol |
| Day3Schematic.CountNumbersInLine | day3/src/main.rs:91-105 | the count is the number of runs of number entries starting in the row of three |
| Day3Schematic.CountNumbers | day3/src/main.rs:107-120 | the count is the runs of numbers in the upper and lower rows plus the numbers left and right of the cell, the cell itself splitting its row |
| Day3Schematic.NeighborhoodNumsTest | day3/src/main.rs:276-285 | 2 and 3 above, 5 and 6 beside and 4 below make four numbers |
| Day3Schematic.ParseLine | day3/src/main.rs:129-134 | a line parses to its chars' entries between two empty ones |
| Day3Schematic.ParseLines | day3/src/main.rs:139-142 | every non-empty line is parsed on its own, in order |
| Day3Schematic.ParseShape | day3/src/main.rs:128-157 | the parsed grid is the lines inside an all-empty border as wide as the first line plus two; its dimensions are the first line's width and the line count; `entry(x, y)` is the parse of the line's char |
| Day3Schematic.RankOrder | day3/src/main.rs:178-201 | the eight checks of `neighboring_gears` run in row-major order |
| Day3Schematic.PushIf | day3/src/main.rs:178-201 | one guarded push keeps the list equal to the reported gears up to that cell, in row-major order |
| Day3Schematic.NeighboringGears | day3/src/main.rs:172-204 | the result holds exactly the gears around the cell that lie inside the width and height, in row-major order |
| Day3Part1.RunLength | day3/src/main.rs:247-258 | the length of the leading run of number entries: all before it are numbers, the entry after it is not |
| Day3Part1.PartNumbersAppend | day3/src/main.rs:247-261 | a row cut after a non-number has the part numbers of its two pieces, in order |
| Day3Part1.RunSplit | day3/src/main.rs:247-258 | a row starting with a run yields that run's number, if marked, followed by the part numbers of the rest |
| Day3Part1.RunPrefix | day3/src/main.rs:247-258 | a run that ends inside a row ends at the same place when more entries follow |
| Day3Part1.PartNumbersRun | day3/src/main.rs:249-257 | a run closed by a non-number contributes its value exactly when one of its digits touches a symbol |
| Day3Part1.RunAll | day3/src/main.rs:249-257 | a run closed by a non-number is read whole |
| Day3Part1.NumCollector.constructor | day3/src/main.rs:207-212 | the default collector has sum 0, no buffered digits and an invalid buffer |
| Day3Part1.NumCollector.ShiftIntoBuffer | day3/src/main.rs:215-220 | the buffered number gains the digit in its least significant place; sum and validity are unchanged |
| Day3Part1.NumCollector.FlushBuffer | day3/src/main.rs:222-231 | the buffered number is added to the sum exactly when there is one and it is valid; the buffer is emptied and invalidated |
| Day3Part1.NumCollector.SetBufferValid | day3/src/main.rs:233-235 | the buffer becomes valid and nothing else changes |
| Day3Part1.Row | day3/src/main.rs:247-249 | the row of entries read by the inner loop has the schematic's width |
| Day3Part1.Marks | day3/src/main.rs:252 | one symbol-neighbour flag per entry of the row |
| Day3Part1.RowTotals | day3/src/main.rs:247-261 | one part-number sum per row of the schematic |
| Day3Part1.SumAppend | day3/src/main.rs:225 | sums of part numbers add over concatenation |
| Day3Part1.PartNumbersWhole | day3/src/main.rs:249-257 | a row that is one run is one number, a part number exactly when a digit is marked |
| Day3Part1.SumSplit | day3/src/main.rs:248-258 | the part numbers read so far add up over a cut after a non-number |
| Day3Part1.CloseRunAt | day3/src/main.rs:255-257 | flushing at a non-number adds the open run's value to what the row had before it |
| Day3Part1.CloseRun | day3/src/main.rs:255-257 | a run closed by a non-number after a closed prefix adds its value to the prefix's sum |
| Day3Part1.CloseRunEnd | day3/src/main.rs:259-260 | the flush at the end of a row adds the open run's value |
| Day3Part1.ScanDigit | day3/src/main.rs:249-254 | reading a digit extends the buffered run and keeps its validity or sets it when the digit touches a symbol |
| Day3Part1.ScanOther | day3/src/main.rs:255-257 | reading a non-number closes the run and adds its value when valid |
| Day3Part1.ScanEntry | day3/src/main.rs:249-257 | one step of the inner loop keeps the collector in step with the row's part numbers read so far |
| Day3Part1.ScanEnd | day3/src/main.rs:259-260 | at the end of a row, the final flush leaves the sum at the previous rows' total plus this row's part numbers |
| Day3Part1.ScanRow | day3/src/main.rs:248-260 | a row's pass adds exactly the sum of its part numbers and leaves an empty, invalid buffer |
| Day3Part1.SumPartNumbers | day3/src/main.rs:246-263 | the two loops return the sum over all rows of their part numbers |
| Day3Part1.Part1 | day3/src/main.rs:242-264 | on an input whose lines are all as wide as the first, the result is the sum of every row's part numbers |
| Day3Part1.ParseRectangular | day3/src/main.rs:128-146 | such an input parses to a schematic in which every cell has its eight neighbours |
| Day3Tests.CollectedNumbers | day3/src/main.rs:362-373 | the digits 1, 3, 3, 7 make 1337 and 4, 2 make 42 |
| Day3Tests.UnmarkedNumber | day3/src/main.rs:356-361 | an empty flush and an unmarked 4, 2 leave the sum unchanged and the collector idle |
| Day3Tests.MarkedNumbers | day3/src/main.rs:362-373 | 1, 3, 3, 7 marked valid midway add 1337, then 4, 2 marked valid add 42 |
| Day3Tests.Leftovers | day3/src/main.rs:374-378 | a valid flag with no digits and an unmarked 1 leave the sum unchanged |
| Day3Tests.CollectorTest | day3/src/main.rs:352-379 | the collector's sums after each step of the test: 0, 0, 0, 1337, 1379, 1379 |
| Day2Games.ParseU32 | day2/src/main.rs:11 | a count or id parses exactly when it is a decimal number below 2^32, to that number |
| Day2Games.PossibleWithByColor | day2/src/main.rs:57-59 | a round fits a bag exactly when no colour's count exceeds the bag's |
| Day2Games.Max | day2/src/main.rs:61-66 | the colour-wise maximum covers both operands, is covered by every bag covering both, and takes each count from one of them |
| Day2Games.MaxAbsorbs | day2/src/main.rs:61-66 | raising the maxima to counts they already cover leaves them unchanged |
| Day2Games.MaxIdempotent | day2/src/main.rs:61-66 | raising the maxima to the same counts twice is raising them once |
| Day2Games.Power | day2/src/main.rs:68-70 | the power is zero exactly when some colour has no cubes |
| Day2Games.MaxColors.Default | day2/src/main.rs:37 | the running maxima start at zero cubes of each colour |
| Day2Games.MaxColors.IncreaseMax | day2/src/main.rs:61-66 | the maxima become the colour-wise maximum of the old maxima and the round |
| Day2Games.ParseColor | day2/src/main.rs:86-91 | a colour is recognised exactly when it is "red", "green" or "blue" |
| Day2Games.ColorName | day2/src/main.rs:86-91 | each colour's name parses back to it |
| Day2Games.ParseDraw | day2/src/main.rs:84-85 | a parsed draw's count fits in 32 bits |
| Day2Games.DrawsOfFails | day2/src/main.rs:83-92 | one piece that does not parse fails the whole round |
| Day2Games.DrawsOfAll | day2/src/main.rs:83-92 | pieces that all parse give their draws, in order |
| Day2Games.TallyUnmentioned | day2/src/main.rs:79-93 | a colour no piece names has count 0 |
| Day2Games.TallyLastMention | day2/src/main.rs:83-92 | a colour named more than once takes the count of its last mention |
| Day2Games.ParseRound | day2/src/main.rs:78-95 | the loop over the pieces returns the tally of their draws, or fails when a piece does not parse |
| Day2Games.TallySnoc | day2/src/main.rs:83-92 | one more piece sets the count of its colour in the tally |
| Day2Games.ParseId | day2/src/main.rs:8-12 | a parsed id fits in 32 bits |
| Day2Games.ParseGame | day2/src/main.rs:14-25 | a parsed game has at least one round |
| Day2Games.IsPossibleWith | day2/src/main.rs:27-34 | true exactly when every round fits the bag |
| Day2Games.MaxOfIsLeastBag | day2/src/main.rs:36-42 | every round fits the game's maxima, and the maxima fit every bag that all rounds fit |
| Day2Games.MaxOfAttained | day2/src/main.rs:36-42 | each maximum is 0 or the count of some round |
| Day2Games.GamePossibleIffMaxima | day2/src/main.rs:27-42 | a game is possible with a bag exactly when its maxima fit the bag |
| Day2Games.ColorPower | day2/src/main.rs:36-42 | the loop over the rounds returns the power of the game's maxima |
| Day2Games.PowerZeroIffColorMissing | day2/src/main.rs:36-42 | a game's power is zero exactly when some colour shows in none of its rounds |
| Day2Games.PossibleIdsByMaxima | day2/src/main.rs:113-126 | part 1's sum of possible ids equals the sum of the ids whose maxima fit the bag of 12 red, 13 green and 14 blue |
| Day2Games.SumPossibleIdsGrows | day2/src/main.rs:113-126 | every possible game's id is in the sum, and a bigger bag never gives a smaller sum |
| Day2Games.GamesOfMeaning | day2/src/main.rs:113-117 | the games of the lines fail exactly on a line that does not parse, and otherwise hold each line's game, one per line |
| Day2Games.Part1 | day2/src/main.rs:113-126 | None exactly when some line does not parse (where the source panics); the sum is that of the ids of the games whose maxima fit 12 red, 13 green and 14 blue, and it holds every possible game's id |
| Day2Games.SumPowersBounds | day2/src/main.rs:128-134 | every game's power is at most the sum of powers, which is 0 exactly when every power is |
| Day2Games.PowersZeroIffColorMissing | day2/src/main.rs:36-42 | each game of a list has power zero exactly when some colour shows in none of its rounds |
| Day2Games.Part2 | day2/src/main.rs:128-134 | None exactly when some line does not parse (where the source panics); each game's power is at most the sum, which is 0 exactly when every game leaves some colour out of all its rounds |
| Day2Games.DigitsOnly | day2/src/main.rs:11 | a printed number holds no separator |
| Day2Games.ColorNamePlain | day2/src/main.rs:86-91 | a colour name holds no space, comma or semicolon and does not end in whitespace |
| Day2Games.TrimDrawText | day2/src/main.rs:84 | a printed draw, trimmed, is its count, a space and its colour |
| Day2Games.ParseDrawText | day2/src/main.rs:84-91 | a printed draw parses back to itself |
| Day2Games.DrawTextPlain | day2/src/main.rs:83 | a printed draw holds no ',' or ';' |
| Day2Games.ParseRoundText | day2/src/main.rs:78-95 | a printed round parses back to the tally of its draws |
| Day2Games.RoundTexts | day2/src/main.rs:14-16 | one text per round |
| Day2Games.Tallies | day2/src/main.rs:14-16 | one tally per round |
| Day2Games.ParseRoundsText | day2/src/main.rs:14-16 | printed rounds separated by semicolons parse back to their tallies |
| Day2Games.ParseGameText | day2/src/main.rs:18-25 | a printed game line parses back to its id and the tallies of its rounds |
| Day2Games.GameTextSplits | day2/src/main.rs:18-19 | a printed game line splits at its colon into the "Game <id>" part and the rounds part |
| Day2Games.GameHeadParses | day2/src/main.rs:8-12 | the "Game <id>" part of a printed line parses back to the id |
| Day2Games.ParseGameOfParts | day2/src/main.rs:18-25 | a line whose id part and rounds part both parse is parsed to the game they make up |
| Day2Tests.RoundText0 | day2/src/main.rs:150 | the first round prints as " 3 blue, 4 red" |
| Day2Tests.RoundText1 | day2/src/main.rs:150 | the second round prints as " 1 red, 2 green, 6 blue" |
| Day2Tests.RoundText2 | day2/src/main.rs:150 | the third round prints as " 2 green" |
| Day2Tests.FirstGameText | day2/src/main.rs:150 | game 1 with those rounds prints as the test's line |
| Day2Tests.FirstTallies | day2/src/main.rs:153-162 | the rounds tally to 4 red and 3 blue; 1 red, 2 green and 6 blue; 2 green |
| Day2Tests.ParseFirstGame | day2/src/main.rs:148-163 | the test's line parses to game 1 with those three rounds |
| Day1Calibration.Numeral | day1/src/main.rs:20-31 | each digit's numeral is a decimal digit char of that value |
| Day1Calibration.SpelledFrom | day1/src/main.rs:33-39 | trying the table from a digit on finds a digit the string starts with, as numeral or word, and finds none exactly when no later entry matches |
| Day1Calibration.SubstringToNum | day1/src/main.rs:19-40 | the result is a digit the string starts with, as numeral or word, and None exactly when it starts with none |
| Day1Calibration.WordPrefix | day1/src/main.rs:20-31 | a two-letter prefix names at most one digit word and is not a numeral |
| Day1Calibration.WordPrefixOfWord | day1/src/main.rs:20-31 | every word is told apart from the others by its first two letters |
| Day1Calibration.SpelledAtStart | day1/src/main.rs:33-37 | a digit spelled at the start shows in the first char or in the first two letters |
| Day1Calibration.SpellsOneDigit | day1/src/main.rs:20-37 | a string starts with at most one digit, so the table's order does not decide the result |
| Day1Calibration.NothingSpelled | day1/src/main.rs:33-39 | when neither the first char nor the first two letters begin a digit, nothing is recognised |
| Day1Calibration.SpelledDigit | day1/src/main.rs:33-37 | a digit spelled at the start is what `substring_to_num` returns |
| Day1Calibration.DigitAt | day1/src/main.rs:1-46 | a digit read at a position is spelled there |
| Day1Calibration.NumeralsReadInBoth | day1/src/main.rs:1-46 | every digit part 1 reads at a position, part 2 reads too, with the same value |
| Day1Calibration.DigitsRead | day1/src/main.rs:43-46 | the digits read along a line are all below ten, and there are none exactly when no position reads one |
| Day1Calibration.FirstDigit | day1/src/main.rs:1-53 | the first or last digit read is below ten |
| Day1Calibration.NoDigitRead | day1/src/main.rs:1-53 | a line gives no digit, from either side, exactly when no position reads one |
| Day1Calibration.LeftmostDigit | day1/src/main.rs:48-52 | reading from the left gives the digit at the first position that reads one |
| Day1Calibration.DigitsReadTail | day1/src/main.rs:43-46 | the digits read from a position on are the tail of all the digits read |
| Day1Calibration.RightmostDigit | day1/src/main.rs:48-52 | reading from the right gives the digit at the last position that reads one |
| Day1Calibration.NumFromLine | day1/src/main.rs:11-61 | a value exists exactly when the line has a digit; its tens are the first digit and its units the last |
| Day1Calibration.NumeralLineHasValueInBoth | day1/src/main.rs:11-61 | a line with a value in part 1 has one in part 2 |
| Day1Calibration.SumValues | day1/src/main.rs:70-76 | the sum of the line values is at most 99 per line |
| Day1Calibration.SumValuesCons | day1/src/main.rs:70-76 | a line without digits adds nothing and a line with digits adds its value |
| Day1Calibration.Part1 | day1/src/main.rs:70-72 | part 1's total is at most 99 per line |
| Day1Calibration.Part2 | day1/src/main.rs:74-76 | part 2's total is at most 99 per line |
| Day1Calibration.LetterBeginsNothing | day1/src/main.rs:19-40 | a string starting with a char that begins no numeral and no word spells no digit |
| Day1Calibration.AsdReadsNothing | day1/src/main.rs:90-109 | no digit is read at the three positions of the tests' "asd" |
| Day1Calibration.NoDigitExample | day1/src/main.rs:90-95 | "asd" gives no digit from either side |
| Day1Calibration.NumeralsExampleGaps | day1/src/main.rs:97-102 | the positions of "asd1zero2asd" outside "1zero2" read no digit |
| Day1Calibration.NumeralsExample | day1/src/main.rs:97-102 | "asd1zero2asd" gives 1 from the left and 2 from the right |
| Day1Calibration.WordsExampleGaps | day1/src/main.rs:104-109 | the positions of "asdone0twoasd" outside "one0two" read no digit |
| Day1Calibration.WordsExample | day1/src/main.rs:104-109 | "asdone0twoasd" gives 1 from the left and 2 from the right |

## Left out

- The `main` functions, `read_input`, file reading and `println!` are not modelled. Tests that read the puzzle input file are also left out: day 3 `test_part1_solution` and the like.
- Day 3's `test_small_solution` (sum 55), `test_schematic_neighborhood_gears`, `test_schematic_parse` and `test_schematic_neighborhood` are not proved on their literal schematics, because evaluating them exceeds the proof budget. Part1, NeighboringGears, ParseShape and ContainsSymbols state what they check for every schematic.
- `Text.Lines` and the other `Text` members model only what the days need of Rust's `str` API. Characters are Dafny `char`s, with no UTF-8 byte offsets.
- Day3Part1.Part1: does not model the u32 overflow of the sum. It requires every line to be at least as wide as the first. The source indexes the rows below by the first row's width and panics otherwise.
- Day4Main.PointsDouble: does not model the u32 overflow of `2u32.pow(matches - 1)`.
- Day4Main.Part2: states the total only for decks whose ids strictly increase, as every puzzle input's do. For any other deck only termination is proved.
- Day4Main.ScratchAll: has the same restriction as `Part2`. The `Display` impl of the pile is not modelled.
- Day4Tests.ExampleTotal: proves part 2's total from the example's match counts. The per-card match counts of the example text are not proved, because evaluating them on the literals exceeds the proof budget.
- Day5Main.Part1: does not model usize overflow.
- Day 5's part 2 returns 0 in the source, a stub, so it is not modelled.
- Day 5's `Display` impl (`fmt`) is not modelled.
- Day5Main.ParseSeedsOfText: covers the seeds test only as the general round trip. The 10-digit literal of `test_parse_seeds` is not evaluated.
- Day5Main.ExampleParseSeedToSoil: of the example almanac, parses only the seed-to-soil map. The maps after it are left arbitrary.
- Day6Races.Part1: does not model the usize overflow of the product.
- Day6Races.ParseRacesText: covers `test_parse_race` as a general round trip. The test's literal, with its runs of spaces, is not evaluated.
- Day7Part1.Part1AnySort: requires distinct rankings. Under `sort_unstable`, identical hands with different bids come out in an unspecified order, and the model does not fix one.
- Day8Part1.Run: walks at most `fuel` steps. The source's loop need not end. It requires unique node ids and readable node lines, where the source asserts and unwraps.
- Day8Part2.Run: walks at most `fuel` steps.
- Day8Part2.ExampleArrival: proves the example's 6 steps on the parsed network. The parse of the example text is not proved.
- Day9Part1.Calc: does not model isize overflow. For a history of one reading, the source's `assert!(len > 1)` panics. The model gives no total instead.
- Day9Tests.ExampleTotalNext: proves the totals 114 and 2 (with ExampleTotalPrev) on the three histories. The parse of the example text is not proved.
- Day10Part1.Run: walks at most `fuel` steps.
- Day10Part2.Run: also walks at most `fuel` steps. A peek past the map's edge reads as a blank tile.
- Day10Part2.FloodOuter: floods the whole outside only for a map with no full pipes, no marks and non-empty rows.
- Day 10's tests are not proved: `test_find_start`, `test_maze`, `test_hamster`, `test_flood_outer_all`, `test_flood_outer_is_stopped_by_poop`, and part 2's answers 3, 4, 8 and 10. Evaluating the example mazes exceeds the proof budget. FloodReachesAll and FloodOuter state the flood tests' property for every map.
- Day11Universe.Run: does not model usize overflow. Part 2's `expand(rate)` is not part of this model: day11/src/part2.rs holds only a call to it. So its tests `test_example_with_rate_10` and `test_example_with_rate_100` are not proved.
- Day11Universe.ExampleDistanceSum: proves 374 on the galaxy list of `test_distance_example`'s image, 13 wide and 12 tall. The parse of that image is not proved.
- Day12Part1.Run: accepts rows of at most 126 springs. The bound follows the u128 shifts of the source's checker: a fully known row of 128 springs panics at `1 << 128` (day12/src/part1.rs:87), and a row of 127 working springs panics in `shift_out`. The bound therefore excludes some rows of 127 springs that the source handles. An unfold factor of 0 is excluded.
- Day12Part1.CountArrangements: is proved to count the arrangements only when every group size is positive.
- Day 12's part 2 is a stub in the source and is not modelled.
- Day 12's per-row example counts (1, 4, 1, 1, 4 and 10, `test_example_1` to `test_example_6`) are not proved: splitting the example rows into groups exceeds the proof budget.
- Day 12's `test_onsen_collapse_none`, `test_onsen_collapse` and `test_onsen_parse`, and part 2's four unfold tests, are not evaluated on their literals. CollapseNext, CollapseNextMeaning, FromStrShows, Unfold and UnfoldGroupsAt state their properties for every row.
- Day 12's `test_unfold_springs_panics_if_too_long` is not proved. Its line has no space, so GroupsFromStr gives None for it, where the source's `unwrap` panics.
- Day 13's part 1 `run` returns 0 in the source, a stub, so it is not modelled.
- Day 13's example answer 400 is not proved.
- Day14Part2.Panel.Spin: is equal to spinning a billion times only when the first hash repeat is a real repeat of the panel (`RepeatIsReal`). The hash is not injective (`HashCollides`).
- Day 14's tests are not proved: the parse test, the answers 6 + 5 + 4, 136, 3 + 2 + 1 and 64, and the tilt and spin tests on example panels.
- Day14Part1.Run: requires a rectangular panel, every row as wide as the first. The source also accepts shorter rows: `calc_tilted_load` (day14/src/part1.rs:25-45) sizes its columns by the first row, and "O\n\n" gives 2. A row longer than the first panics there. Neither case is modelled.
- Day14Part2.Run: requires a rectangular panel in the same way. The source's tilts and load on ragged rows (day14/src/part2.rs:45-60 and 122-163) are not modelled.
- Day 15's `Hasher` never overflows u32, since it stays below 256.
- Day15Part2.Run: models the corrected program, which picks the box by the hash of the label (see "Findings"). It therefore departs from the source as written: on "cm=2,cm-" the corrected program leaves every box empty, while the source leaves the lens in box 47 and reports 96. The model proves the two placements (AsWrittenRemovalMissed, RemoveUndoesAdd), not the two totals.
- Day16Part2.Run: models the corrected program, which launches from the top and bottom rows and the left and right columns (see "Findings"). On a map that is not square the source as written builds launchers off the map and panics.
- Day16Map.Map.Clone: `width`, `height` and `clone` are not in day16/src/map.rs. They are modelled as the first row's length, the row count and a copy.
- Day 16's example answer 46 is not proved, because tracing the beam over the 10 by 10 example exceeds the proof budget.
- Day17Part1.Run: searches for at most `fuel` rounds. Enough fuel is proved to finish when every heat loss is positive.
- Day17Part1.Run: pops the first-queued of the hamsters with the least heat. The source's `BinaryHeap` (day17/src/part1.rs:14-17) compares hamsters by heat only (day17/src/hamster.rs:26-29), so which of several equal-heat hamsters it pops depends on the heap's layout. Each block keeps one trace and `new_smallest_trace` rejects only strictly larger traces (day17/src/map.rs:51-60), so where heats tie the source's final trace can differ from the model's.
- Day17Part1.SearchAnswerMinimal: proves the answer minimal over the hamsters the search walked onto the target block, not over every walk the puzzle allows. With one trace per block, the source's search can prune a walk that would have led lower.
- Day 17 keeps one heat trace per block, as `Field::smallest_trace` does, not one per direction and straight count. The answers in the source's tests (4, 15, 13 and 15 on small maps, and 102 on the example) are not proved.
- Day 17's part 2 is not part of this model. day17/src/part2.rs calls a `hamster_wheel` that day17/src/part1.rs does not define. Its test's answer 94 is therefore not proved.
- Every day's `u32` and `usize` sums are unbounded integers in the model, except where stated above.

## Findings

| source | as written | input that shows it | evidently intended | confidence | as-written member | corrected member |
|---|---|---|---|---|---|---|
| day16/src/part2.rs:18-52 | the launchers from above and below are built as `Coords::new(x, y)` with x fixed at the first or last row index and y running over the width; the ones from left and right swap x and y the same way | the one-row map "..." yields the launcher (0, 1), which is off the map, so `reorient` unwraps a missing field | launchers on the top and bottom rows (x over the width) and on the left and right columns (y over the height) | not executed | Day16Part2.AsWrittenLaunchers, Day16Part2.AsWrittenLauncherOffMap | Day16Part2.EdgeLaunchers, Day16Part2.EdgeLaunchersOnMap, Day16Part2.Run |
| day10/src/part1.rs:52-56 | `take_dump` calls `fill` on `field.pipe.unwrap()`, which is a copy of the `Copy` pipe, so the maze keeps an unfilled pipe | any position holding a pipe: after `take_dump`, that pipe is still not full | the pipe in the maze becomes full | not executed | Day10Maze.DumpAsWritten, Day10Maze.DumpAsWrittenLeavesPipeEmpty | Day10Maze.Hamster.TakeDump, Day10Maze.Fill |
| day12/src/part1.rs:13 | the initial springs are pushed without `validate`, and a row with no unknown spring is counted once whatever its groups | "# 2" counts 1 arrangement, though its single broken spring cannot form a group of 2 | count only arrangements that match the groups: 0 for "# 2" | not executed | Day12Part1.CountPossibleArrangements, Day12Part1.AsWrittenCountsUnmatchedRow | Day12Part1.CountArrangements, Day12Part1.Run |
| day15/src/part2.rs:72 | `box_id` is the hash of the whole step, not of its label | "cm=2" goes to box 47 and "cm-" to box 253, so the removal misses the lens | the box is the hash of the label | not executed | Day15Part2.ParseInstructionAsWritten, Day15Part2.AsWrittenRemovalMissed | Day15Part2.ParseInstruction, Day15Part2.RemoveUndoesAdd, Day15Part2.Answer, Day15Part2.Run |
