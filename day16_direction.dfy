/**
 * Day 16: how a beam travelling in a direction leaves a tile of each shape; a splitter
 * hit side-on sends a second beam.
 */
module Day16Direction {
  import opened Wrappers
  import opened Grid
  import opened Day16Map

  /** `Direction::straight`. */
  function Straight(d: Direction): (Direction, Option<Direction>) {
    (d, None)
  }

  /** `Direction::follow_mirror_forward`, the tile '/'. */
  function MirrorForwardOf(d: Direction): Direction {
    match d
    case Up => Right
    case Right => Up
    case Down => Left
    case Left => Down
  }

  /** `Direction::follow_mirror_backward`, the tile '\'. */
  function MirrorBackwardOf(d: Direction): Direction {
    match d
    case Up => Left
    case Left => Up
    case Down => Right
    case Right => Down
  }

  predicate IsVertical(d: Direction) {
    d == Up || d == Down
  }

  /** `Direction::follow_splitter_horizontal`, the tile '-'. */
  function SplitHorizontal(d: Direction): (Direction, Option<Direction>) {
    if IsVertical(d) then (Left, Some(Right)) else Straight(d)
  }

  /** `Direction::follow_splitter_vertical`, the tile '|'. */
  function SplitVertical(d: Direction): (Direction, Option<Direction>) {
    if IsVertical(d) then Straight(d) else (Up, Some(Down))
  }

  /** `Direction::follow`. */
  function Follow(d: Direction, s: Shape): (r: (Direction, Option<Direction>))
    ensures s == Empty ==> r == (d, None)
    ensures s == MirrorForward ==> r == (MirrorForwardOf(d), None)
    ensures s == MirrorBackward ==> r == (MirrorBackwardOf(d), None)
  {
    match s
    case Empty => Straight(d)
    case MirrorForward => (MirrorForwardOf(d), None)
    case MirrorBackward => (MirrorBackwardOf(d), None)
    case SplitterHorizontal => SplitHorizontal(d)
    case SplitterVertical => SplitVertical(d)
  }

  /** A splitter hit side-on: the beam travels across the splitter's line. */
  predicate SplitsSideOn(d: Direction, s: Shape) {
    (s == SplitterHorizontal && IsVertical(d)) || (s == SplitterVertical && !IsVertical(d))
  }

  /** A second beam appears exactly when a splitter is hit side-on; otherwise a splitter is passed straight through. */
  lemma SecondBeamIffSideOnSplitter(d: Direction, s: Shape)
    ensures Follow(d, s).1.Some? <==> SplitsSideOn(d, s)
    ensures SplitsSideOn(d, s) && s == SplitterHorizontal ==> Follow(d, s) == (Left, Some(Right))
    ensures SplitsSideOn(d, s) && s == SplitterVertical ==> Follow(d, s) == (Up, Some(Down))
    ensures !SplitsSideOn(d, s) && (s == SplitterHorizontal || s == SplitterVertical) ==> Follow(d, s) == (d, None)
  {
  }

  /** Both beams leaving a side-on splitter travel along it, so neither splits there again. */
  lemma SplitBeamsDoNotSplitAgain(d: Direction, s: Shape)
    ensures !SplitsSideOn(Follow(d, s).0, s) || !SplitsSideOn(d, s)
    ensures Follow(d, s).1.Some? ==> !SplitsSideOn(Follow(d, s).1.value, s) && !SplitsSideOn(Follow(d, s).0, s)
  {
  }

  /** Each mirror is its own inverse, and reverses the beam's axis. */
  lemma MirrorsAreInvolutions(d: Direction)
    ensures MirrorForwardOf(MirrorForwardOf(d)) == d
    ensures MirrorBackwardOf(MirrorBackwardOf(d)) == d
    ensures IsVertical(MirrorForwardOf(d)) != IsVertical(d)
    ensures IsVertical(MirrorBackwardOf(d)) != IsVertical(d)
  {
  }
}
