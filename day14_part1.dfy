/**
 * Day 14, part one: the load on the north beams after tilting north, computed without
 * moving a rock. Walking each column from the top, the number of empty places since the
 * last square rock is how far the next round rock would slide up, so its load is its own
 * row's load plus that correction.
 */
module Day14Part1 {
  import opened Day14Panel

  /**
   * The running weight and tilt correction of a column after its first `k` places: an
   * empty place raises the correction, a square rock resets it, and a round rock adds its
   * row's load plus the correction.
   */
  function TiltedPrefix(line: seq<Position>, k: nat): (r: (nat, nat))
    requires k <= |line|
    decreases k
  {
    if k == 0 then (0, 0)
    else
      var prev := TiltedPrefix(line, k - 1);
      match line[k - 1]
      case Empty => (prev.0, prev.1 + 1)
      case Square => (prev.0, 0)
      case Round => (prev.0 + (|line| - (k - 1)) + prev.1, prev.1)
  }

  /** A round rock that slides to `to` adds the load of `to`, which is its own row's load plus the queue's length. */
  lemma SlidingRoundLoad(line: seq<Position>, k: nat, out: seq<Position>, queue: seq<nat>)
    requires k < |line| && line[k] == Round && queue != [] && SliderInv(line, k, out, queue)
    ensures LoadUpTo(out[queue[|queue| - 1] := Round][k := Empty], k + 1) == LoadUpTo(out, k) + (|line| - k) + |queue|
  {
    var to := queue[|queue| - 1];
    assert out[to] == Empty;
    LoadUpToUpdate(out, k, to, Round);
    var out' := out[to := Round][k := Empty];
    LoadUpToUpdate(out[to := Round], k, k, Empty);
  }

  /** A position that the slider leaves in place adds its own load. */
  lemma StayingLoad(line: seq<Position>, k: nat, out: seq<Position>, queue: seq<nat>)
    requires k < |line| && SliderInv(line, k, out, queue)
    requires line[k] != Round || queue == []
    ensures SlideStep(out, queue, k).0 == out
    ensures LoadUpTo(out, k + 1) == LoadUpTo(out, k) + RoundLoad(line[k], |line|, k)
  {
    assert out[k] == line[k];
  }

  /**
   * The correction is the length of the slider's queue, and the weight is the load of the
   * column as the slider has rearranged it so far.
   */
  lemma {:induction false} TiltedPrefixFollowsSlider(line: seq<Position>, k: nat)
    requires k <= |line|
    ensures TiltedPrefix(line, k).1 == |SlidePrefix(line, k).1|
    ensures TiltedPrefix(line, k).0 == LoadUpTo(SlidePrefix(line, k).0, k)
    decreases k
  {
    if k > 0 {
      TiltedPrefixFollowsSlider(line, k - 1);
      SlidePrefixLoad(line, k - 1);
    }
  }

  /** `SlideStepLoad` for the slider's state after `k` positions. */
  lemma SlidePrefixLoad(line: seq<Position>, k: nat)
    requires k < |line|
    ensures |SlidePrefix(line, k + 1).1| == (match line[k] case Empty => |SlidePrefix(line, k).1| + 1 case Square => 0 case Round => |SlidePrefix(line, k).1|)
    ensures LoadUpTo(SlidePrefix(line, k + 1).0, k + 1) ==
      LoadUpTo(SlidePrefix(line, k).0, k) + (if line[k] == Round then |line| - k + |SlidePrefix(line, k).1| else 0)
  {
    SlidePrefixInv(line, k);
    var prev := SlidePrefix(line, k);
    assert SlidePrefix(line, k + 1) == SlideStep(prev.0, prev.1, k);
    SlideStepLoad(line, k, prev.0, prev.1);
  }

  /** One step of the slider: how the queue's length and the load of the processed positions change. */
  lemma SlideStepLoad(line: seq<Position>, k: nat, out: seq<Position>, queue: seq<nat>)
    requires k < |line| && SliderInv(line, k, out, queue)
    ensures |SlideStep(out, queue, k).1| == (match line[k] case Empty => |queue| + 1 case Square => 0 case Round => |queue|)
    ensures LoadUpTo(SlideStep(out, queue, k).0, k + 1) == LoadUpTo(out, k) + (if line[k] == Round then |line| - k + |queue| else 0)
  {
    if line[k] == Round && queue != [] {
      SlidingRoundLoad(line, k, out, queue);
    } else {
      StayingLoad(line, k, out, queue);
    }
  }

  /** Each column's tilted weight is the load of that column tilted north. */
  lemma TiltedWeightIsLoadOfTilt(line: seq<Position>)
    ensures TiltedPrefix(line, |line|).0 == LineLoad(Slide(line))
  {
    TiltedPrefixFollowsSlider(line, |line|);
  }

  /** `calc_tilted_load` by columns: the sum of each column's tilted weight. */
  function TiltedLoad(p: seq<seq<Position>>): nat
    requires Rectangular(p)
  {
    SeqSum(seq(|p[0]|, x requires 0 <= x < |p[0]| => TiltedPrefix(Column(p, x), |p|).0))
  }

  /** The tilted load is the load of the panel tilted north. */
  lemma TiltedLoadIsLoadOfTiltNorth(p: seq<seq<Position>>)
    requires Rectangular(p)
    ensures TiltedLoad(p) == Load(TiltNorthSpec(p))
  {
    var t := TiltNorthSpec(p);
    forall x | 0 <= x < |p[0]|
      ensures TiltedPrefix(Column(p, x), |p|).0 == LineLoad(Column(t, x))
    {
      TiltedWeightIsLoadOfTilt(Column(p, x));
    }
    assert seq(|p[0]|, x requires 0 <= x < |p[0]| => TiltedPrefix(Column(p, x), |p|).0) ==
      seq(|t[0]|, x requires 0 <= x < |t[0]| => LineLoad(Column(t, x)));
  }

  /**
   * `calc_tilted_load`: one pass over the rows, keeping a weight and a correction per
   * column, then the sum of the weights.
   */
  method CalcTiltedLoad(p: seq<seq<Position>>) returns (load: nat)
    requires Rectangular(p)
    ensures load == TiltedLoad(p)
  {
    var rowLen := |p[0]|;
    var weights := seq(rowLen, _ => 0);
    var corrections := seq(rowLen, _ => 0);
    var row := 0;
    while row < |p|
      invariant row <= |p| && |weights| == rowLen && |corrections| == rowLen
      invariant forall x :: 0 <= x < rowLen ==> (weights[x], corrections[x]) == TiltedPrefix(Column(p, x), row)
    {
      weights, corrections := AddRow(p, row, weights, corrections);
      row := row + 1;
    }
    assert weights == seq(rowLen, x requires 0 <= x < rowLen => TiltedPrefix(Column(p, x), |p|).0);
    load := SeqSum(weights);
  }

  /** The inner loop of `calc_tilted_load`: every column takes in its place on row `row`. */
  method AddRow(p: seq<seq<Position>>, row: nat, weights0: seq<nat>, corrections0: seq<nat>)
    returns (weights: seq<nat>, corrections: seq<nat>)
    requires Rectangular(p) && row < |p| && |weights0| == |p[0]| && |corrections0| == |p[0]|
    requires forall x :: 0 <= x < |p[0]| ==> (weights0[x], corrections0[x]) == TiltedPrefix(Column(p, x), row)
    ensures |weights| == |p[0]| && |corrections| == |p[0]|
    ensures forall x :: 0 <= x < |p[0]| ==> (weights[x], corrections[x]) == TiltedPrefix(Column(p, x), row + 1)
  {
    var rowLen := |p[0]|;
    weights, corrections := weights0, corrections0;
    var col := 0;
    while col < rowLen
      invariant col <= rowLen && |weights| == rowLen && |corrections| == rowLen
      invariant forall x :: 0 <= x < col ==> (weights[x], corrections[x]) == TiltedPrefix(Column(p, x), row + 1)
      invariant forall x :: col <= x < rowLen ==> (weights[x], corrections[x]) == TiltedPrefix(Column(p, x), row)
    {
      var posWeight := |p| - row;
      TiltedPrefixNext(p, row, col);
      match p[row][col] {
        case Empty => corrections := corrections[col := corrections[col] + 1];
        case Square => corrections := corrections[col := 0];
        case Round => weights := weights[col := weights[col] + posWeight + corrections[col]];
      }
      col := col + 1;
    }
  }

  /** How place `row` of column `x` changes the column's running weight and correction. */
  lemma TiltedPrefixNext(p: seq<seq<Position>>, row: nat, x: nat)
    requires Rectangular(p) && row < |p| && x < |p[0]|
    ensures var prev := TiltedPrefix(Column(p, x), row);
      TiltedPrefix(Column(p, x), row + 1) ==
        match p[row][x]
        case Empty => (prev.0, prev.1 + 1)
        case Square => (prev.0, 0)
        case Round => (prev.0 + (|p| - row) + prev.1, prev.1)
  {
    assert Column(p, x)[row] == p[row][x];
  }

  /** `run`: parse the panel and compute its tilted load. */
  method Run(input: string) returns (load: nat)
    requires IsPanelText(input) && Rectangular(ParsePanel(input))
    ensures load == Load(TiltNorthSpec(ParsePanel(input)))
  {
    load := CalcTiltedLoad(ParsePanel(input));
    TiltedLoadIsLoadOfTiltNorth(ParsePanel(input));
  }
}
