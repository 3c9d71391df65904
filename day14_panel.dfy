/**
 * Day 14: a panel of round rocks, square rocks and empty places. Tilting the panel slides
 * every round rock as far as it goes towards one edge, stopped by square rocks and by
 * other round rocks. This module holds the panel's parse and the tilt of one line: a
 * "slider" walks the line towards the edge's far side and keeps a queue of the empty
 * places a rock can slide to.
 */
module Day14Panel {
  import opened Text

  datatype Position = Empty | Round | Square

  predicate IsPositionChar(c: char) {
    c == '.' || c == 'O' || c == '#'
  }

  /** `Position::from`: '.', 'O' and '#'; any other char panics. */
  function ParsePosition(c: char): (p: Position)
    requires IsPositionChar(c)
    ensures PositionChar(p) == c
  {
    match c
    case '.' => Empty
    case 'O' => Round
    case '#' => Square
  }

  /** The `Debug` glyph of a position. */
  function PositionChar(p: Position): (c: char)
    ensures IsPositionChar(c)
  {
    match p
    case Empty => '.'
    case Round => 'O'
    case Square => '#'
  }

  /** Parsing a glyph and printing the position give the glyph back, and the other way round. */
  lemma PositionCharRoundTrip(p: Position, c: char)
    requires IsPositionChar(c)
    ensures ParsePosition(PositionChar(p)) == p
    ensures PositionChar(ParsePosition(c)) == c
  {
  }

  predicate IsPanelText(s: string) {
    var ls := Lines(s);
    forall y, x :: 0 <= y < |ls| && 0 <= x < |ls[y]| ==> IsPositionChar(ls[y][x])
  }

  /** `Panel::from_str`: one row per line, one position per char. */
  function ParsePanel(s: string): (p: seq<seq<Position>>)
    requires IsPanelText(s)
    ensures |p| == |Lines(s)|
    ensures forall y :: 0 <= y < |p| ==> |p[y]| == |Lines(s)[y]|
    ensures forall y, x :: 0 <= y < |p| && 0 <= x < |p[y]| ==> PositionChar(p[y][x]) == Lines(s)[y][x]
  {
    var ls := Lines(s);
    seq(|ls|, y requires 0 <= y < |ls| => seq(|ls[y]|, x requires 0 <= x < |ls[y]| => ParsePosition(ls[y][x])))
  }

  /** A panel with at least one row, all rows as long as the first. */
  predicate Rectangular(p: seq<seq<Position>>) {
    |p| > 0 && forall y :: 0 <= y < |p| ==> |p[y]| == |p[0]|
  }

  /** Column `x` of a rectangular panel, top to bottom. */
  function Column(p: seq<seq<Position>>, x: nat): (col: seq<Position>)
    requires Rectangular(p) && x < |p[0]|
    ensures |col| == |p| && forall y :: 0 <= y < |p| ==> col[y] == p[y][x]
  {
    seq(|p|, y requires 0 <= y < |p| => p[y][x])
  }

  function Reverse<T>(s: seq<T>): (r: seq<T>)
    ensures |r| == |s| && forall i :: 0 <= i < |s| ==> r[i] == s[|s| - 1 - i]
  {
    seq(|s|, i requires 0 <= i < |s| => s[|s| - 1 - i])
  }

  lemma ReverseReverse<T>(s: seq<T>)
    ensures Reverse(Reverse(s)) == s
  {
  }

  /**
   * `Slider::process_next_pos` on index `k` of a line. An empty place is queued at the
   * front; a round rock, when a place is queued, moves to the oldest one (the back of the
   * queue) and leaves its own place queued; a square rock clears the queue.
   */
  function SlideStep(line: seq<Position>, queue: seq<nat>, k: nat): (r: (seq<Position>, seq<nat>))
    requires k < |line| && forall i :: 0 <= i < |queue| ==> queue[i] < k
    ensures |r.0| == |line| && forall i :: 0 <= i < |r.1| ==> r.1[i] < k + 1
  {
    match line[k]
    case Empty => (line, [k] + queue)
    case Square => (line, [])
    case Round =>
      if queue == [] then (line, queue)
      else
        var to := queue[|queue| - 1];
        (line[to := Round][k := Empty], [k] + queue[..|queue| - 1])
  }

  /** The line and the queue after the slider has processed the first `k` positions. */
  function SlidePrefix(line: seq<Position>, k: nat): (r: (seq<Position>, seq<nat>))
    requires k <= |line|
    ensures |r.0| == |line| && forall i :: 0 <= i < |r.1| ==> r.1[i] < k
    decreases k
  {
    if k == 0 then (line, [])
    else
      var prev := SlidePrefix(line, k - 1);
      SlideStep(prev.0, prev.1, k - 1)
  }

  /** A line tilted towards its start: every round rock slid as far towards index 0 as it goes. */
  function Slide(line: seq<Position>): (r: seq<Position>)
    ensures |r| == |line|
  {
    SlidePrefix(line, |line|).0
  }

  /** No empty place comes directly before a round rock in the first `k` positions. */
  ghost predicate SettledUpTo(line: seq<Position>, k: nat)
    requires k <= |line|
  {
    forall i :: 0 <= i && i + 1 < k ==> NoGapAt(line, i)
  }

  /** The place at index `i` is not an empty one with a round rock right after it. */
  predicate NoGapAt(line: seq<Position>, i: nat)
    requires i + 1 < |line|
  {
    !(line[i] == Empty && line[i + 1] == Round)
  }

  /** Both lines have their square rocks in the same places among the first `k` positions. */
  predicate SameSquaresUpTo(a: seq<Position>, b: seq<Position>, k: nat)
    requires k <= |a| && k <= |b|
  {
    forall j :: 0 <= j < k ==> (a[j] == Square <==> b[j] == Square)
  }

  /**
   * The slider's invariant after `k` positions: nothing from `k` on has been touched,
   * squares stay where they were, no empty place precedes a rock, and the queue lists,
   * newest first, the run of empty places that ends at `k`, with no empty place just
   * before that run.
   */
  ghost predicate SliderInv(line: seq<Position>, k: nat, out: seq<Position>, queue: seq<nat>)
    requires k <= |line|
  {
    |out| == |line| &&
    (forall j :: k <= j < |line| ==> out[j] == line[j]) &&
    SameSquaresUpTo(out, line, k) &&
    SettledUpTo(out, k) &&
    |queue| <= k && CountsDown(queue, k) &&
    (forall j :: k - |queue| <= j < k ==> out[j] == Empty) &&
    (k - |queue| > 0 ==> out[k - |queue| - 1] != Empty)
  }

  /** The queue holds the places just before `k`, newest first. */
  predicate CountsDown(queue: seq<nat>, k: nat) {
    forall i :: 0 <= i < |queue| ==> queue[i] == k - 1 - i
  }

  /** An empty place joins the front of the queue. */
  lemma EmptyStepKeepsInv(line: seq<Position>, k: nat, out: seq<Position>, queue: seq<nat>)
    requires k < |line| && line[k] == Empty && SliderInv(line, k, out, queue)
    ensures SliderInv(line, k + 1, out, [k] + queue)
  {
    if k > 0 {
      assert NoGapAt(out, k - 1);
    }
  }

  /** A square rock ends the run of empty places: the queue is cleared. */
  lemma SquareStepKeepsInv(line: seq<Position>, k: nat, out: seq<Position>, queue: seq<nat>)
    requires k < |line| && line[k] == Square && SliderInv(line, k, out, queue)
    ensures SliderInv(line, k + 1, out, [])
  {
    if k > 0 {
      assert NoGapAt(out, k - 1);
    }
  }

  /** A round rock with no place queued stays where it is. */
  lemma StuckRoundKeepsInv(line: seq<Position>, k: nat, out: seq<Position>)
    requires k < |line| && line[k] == Round && SliderInv(line, k, out, [])
    ensures SliderInv(line, k + 1, out, [])
  {
    if k > 0 {
      assert NoGapAt(out, k - 1);
    }
  }

  /** A round rock with a place queued moves to the oldest one and queues its own. */
  lemma SlidingRoundKeepsInv(line: seq<Position>, k: nat, out: seq<Position>, queue: seq<nat>)
    requires k < |line| && line[k] == Round && queue != [] && SliderInv(line, k, out, queue)
    ensures SliderInv(line, k + 1, out[queue[|queue| - 1] := Round][k := Empty], [k] + queue[..|queue| - 1])
  {
    var to := k - |queue|;
    assert queue[|queue| - 1] == to;
    assert out[to] == Empty && out[k] == Round;
    MoveRound(line, k, out, to);
    SlidingRoundSettles(k, out, to);
  }

  /** Moving the rock at `k` to the empty place `to` leaves the squares and everything past `k` alone. */
  lemma MoveRound(line: seq<Position>, k: nat, out: seq<Position>, to: nat)
    requires to < k < |line| == |out| && out[to] == Empty && out[k] == Round && line[k] == Round
    requires forall j :: k <= j < |line| ==> out[j] == line[j]
    requires SameSquaresUpTo(out, line, k)
    requires forall j :: to <= j < k ==> out[j] == Empty
    ensures var o := out[to := Round][k := Empty];
      (forall j :: k + 1 <= j < |line| ==> o[j] == line[j]) &&
      (forall j :: to + 1 <= j < k + 1 ==> o[j] == Empty) &&
      SameSquaresUpTo(o, line, k + 1)
  {
  }

  /** After the move the rock at `to` follows a non-empty place, and only empty places follow it up to `k`. */
  lemma SlidingRoundSettles(k: nat, out: seq<Position>, to: nat)
    requires to < k < |out| && SettledUpTo(out, k)
    requires to > 0 ==> out[to - 1] != Empty
    requires forall j :: to <= j < k ==> out[j] == Empty
    ensures SettledUpTo(out[to := Round][k := Empty], k + 1)
  {
    var o := out[to := Round][k := Empty];
    forall i | 0 <= i && i + 1 < k + 1
      ensures NoGapAt(o, i)
    {
      if i + 1 < to {
        assert NoGapAt(out, i);
      }
    }
  }

  /** The slider's step keeps its invariant. */
  lemma SlideStepKeepsInv(line: seq<Position>, k: nat, out: seq<Position>, queue: seq<nat>)
    requires k < |line| && SliderInv(line, k, out, queue)
    ensures forall i :: 0 <= i < |queue| ==> queue[i] < k
    ensures SliderInv(line, k + 1, SlideStep(out, queue, k).0, SlideStep(out, queue, k).1)
  {
    assert out[k] == line[k];
    match line[k]
    case Empty => EmptyStepKeepsInv(line, k, out, queue);
    case Square => SquareStepKeepsInv(line, k, out, queue);
    case Round =>
      if queue == [] {
        StuckRoundKeepsInv(line, k, out);
      } else {
        SlidingRoundKeepsInv(line, k, out, queue);
      }
  }

  /** The invariant holds after every prefix. */
  lemma {:induction false} SlidePrefixInv(line: seq<Position>, k: nat)
    requires k <= |line|
    ensures SliderInv(line, k, SlidePrefix(line, k).0, SlidePrefix(line, k).1)
    decreases k
  {
    if k > 0 {
      var prev := SlidePrefix(line, k - 1);
      assert SlidePrefix(line, k) == SlideStep(prev.0, prev.1, k - 1) by {
        SlidePrefixUnfold(line, k);
      }
      SlidePrefixInv(line, k - 1);
      SlideStepKeepsInv(line, k - 1, prev.0, prev.1);
    }
  }

  /** A step of the slider only ever swaps a round rock with an empty place. */
  lemma SlideStepPermutes(line: seq<Position>, k: nat, out: seq<Position>, queue: seq<nat>)
    requires k < |line| && SliderInv(line, k, out, queue)
    ensures forall i :: 0 <= i < |queue| ==> queue[i] < k
    ensures multiset(SlideStep(out, queue, k).0) == multiset(out)
  {
    if out[k] == Round && queue != [] {
      var to := queue[|queue| - 1];
      assert out[to] == Empty;
      assert SlideStep(out, queue, k).0 == out[to := Round][k := Empty];
    }
  }

  /** The slider rearranges the line: it holds the same positions as before. */
  lemma {:induction false} SlidePrefixPermutes(line: seq<Position>, k: nat)
    requires k <= |line|
    ensures multiset(SlidePrefix(line, k).0) == multiset(line)
    decreases k
  {
    if k > 0 {
      SlidePrefixPermutes(line, k - 1);
      var prev := SlidePrefix(line, k - 1);
      assert SlidePrefix(line, k).0 == SlideStep(prev.0, prev.1, k - 1).0 by {
        SlidePrefixUnfold(line, k);
      }
      assert multiset(SlideStep(prev.0, prev.1, k - 1).0) == multiset(prev.0) by {
        SlidePrefixInv(line, k - 1);
        SlideStepPermutes(line, k - 1, prev.0, prev.1);
      }
    }
  }

  /** The number of round rocks among the first `j` positions. */
  function RoundsBefore(s: seq<Position>, j: nat): nat
    requires j <= |s|
  {
    multiset(s[..j])[Round]
  }

  /** Every square rock of `line` has as many round rocks before it in `out` as in `line`. */
  predicate SquaresCounted(line: seq<Position>, out: seq<Position>)
    requires |out| == |line|
  {
    forall j {:trigger RoundsBefore(out, j)} :: 0 <= j < |line| && line[j] == Square ==> RoundsBefore(out, j) == RoundsBefore(line, j)
  }

  /**
   * A step of the slider moves a round rock only across empty places, never past a square
   * rock, so every square rock keeps its count of round rocks before it.
   */
  lemma SlideStepKeepsCounts(line: seq<Position>, k: nat, out: seq<Position>, queue: seq<nat>)
    requires k < |line| && SliderInv(line, k, out, queue) && SquaresCounted(line, out)
    ensures forall i :: 0 <= i < |queue| ==> queue[i] < k
    ensures SquaresCounted(line, SlideStep(out, queue, k).0)
  {
    if out[k] == Round && queue != [] {
      var to := queue[|queue| - 1];
      assert to == k - |queue|;
      var o := out[to := Round][k := Empty];
      assert SlideStep(out, queue, k).0 == o;
      forall j | 0 <= j < |line| && line[j] == Square
        ensures RoundsBefore(o, j) == RoundsBefore(line, j)
      {
        assert RoundsBefore(out, j) == RoundsBefore(line, j);
        if j < k {
          assert out[j] == Square;
          assert o[..j] == out[..j];
        } else {
          assert j != k;
          assert o[..j] == out[..j][to := Round][k := Empty];
        }
      }
    }
  }

  /** One more place processed keeps every square rock's count of round rocks before it. */
  lemma SlidePrefixStepCounts(line: seq<Position>, k: nat)
    requires 0 < k <= |line| && SquaresCounted(line, SlidePrefix(line, k - 1).0)
    ensures SquaresCounted(line, SlidePrefix(line, k).0)
  {
    var prev := SlidePrefix(line, k - 1);
    assert SlidePrefix(line, k).0 == SlideStep(prev.0, prev.1, k - 1).0 by {
      SlidePrefixUnfold(line, k);
    }
    assert SquaresCounted(line, SlideStep(prev.0, prev.1, k - 1).0) by {
      SlidePrefixInv(line, k - 1);
      SlideStepKeepsCounts(line, k - 1, prev.0, prev.1);
    }
  }

  /** After `k` places the slider has taken one step from where it was after `k - 1`. */
  lemma SlidePrefixUnfold(line: seq<Position>, k: nat)
    requires 0 < k <= |line|
    ensures SlidePrefix(line, k) == SlideStep(SlidePrefix(line, k - 1).0, SlidePrefix(line, k - 1).1, k - 1)
  {
  }

  /** The slider keeps every square rock's count of round rocks before it. */
  lemma {:induction false} SlidePrefixKeepsCounts(line: seq<Position>, k: nat)
    requires k <= |line|
    ensures SquaresCounted(line, SlidePrefix(line, k).0)
    decreases k
  {
    if k > 0 {
      SlidePrefixKeepsCounts(line, k - 1);
      SlidePrefixStepCounts(line, k);
    }
  }

  /**
   * The tilt of a line keeps every square rock in place, keeps the line's positions (so
   * its number of round rocks), keeps the number of round rocks before every square rock
   * (so in every stretch between square rocks), and leaves no empty place directly before
   * a round rock.
   */
  lemma SlideSettles(line: seq<Position>)
    ensures SameSquaresUpTo(Slide(line), line, |line|)
    ensures multiset(Slide(line)) == multiset(line)
    ensures SquaresCounted(line, Slide(line))
    ensures SettledUpTo(Slide(line), |line|)
  {
    SlidePrefixInv(line, |line|);
    SlidePrefixPermutes(line, |line|);
    SlidePrefixKeepsCounts(line, |line|);
  }

  /** A line whose rocks cannot slide any further is left as it is. */
  lemma {:induction false} SlideOfSettled(line: seq<Position>, k: nat)
    requires k <= |line| && SettledUpTo(line, |line|)
    ensures SlidePrefix(line, k).0 == line
    decreases k
  {
    if k > 0 {
      SlideOfSettled(line, k - 1);
      SlidePrefixInv(line, k - 1);
      var prev := SlidePrefix(line, k - 1);
      if prev.1 != [] {
        assert prev.0[k - 2] == Empty;
        assert NoGapAt(line, k - 2);
        assert line[k - 1] != Round;
      }
    }
  }

  /** Tilting twice is tilting once. */
  lemma SlideIdempotent(line: seq<Position>)
    ensures Slide(Slide(line)) == Slide(line)
  {
    SlideSettles(line);
    SlideOfSettled(Slide(line), |line|);
  }

  /** The load of a round rock at index `j` of a line of length `n`, as seen from index 0's edge. */
  function RoundLoad(p: Position, n: nat, j: nat): nat {
    if p == Round && j < n then n - j else 0
  }

  /** The load of the rocks among the first `k` positions of a line, towards its start. */
  function LoadUpTo(line: seq<Position>, k: nat): nat
    requires k <= |line|
    decreases k
  {
    if k == 0 then 0 else LoadUpTo(line, k - 1) + RoundLoad(line[k - 1], |line|, k - 1)
  }

  /** The load of a whole line towards its start. */
  function LineLoad(line: seq<Position>): nat {
    LoadUpTo(line, |line|)
  }

  lemma {:induction false} LoadUpToUpdate(line: seq<Position>, k: nat, i: nat, v: Position)
    requires k <= |line| && i < |line|
    ensures i >= k ==> LoadUpTo(line[i := v], k) == LoadUpTo(line, k)
    ensures i < k ==>
      LoadUpTo(line[i := v], k) + RoundLoad(line[i], |line|, i) == LoadUpTo(line, k) + RoundLoad(v, |line|, i)
    decreases k
  {
    if k > 0 {
      LoadUpToUpdate(line, k - 1, i, v);
    }
  }

  function SeqSum(s: seq<nat>): nat {
    if s == [] then 0 else SeqSum(s[..|s| - 1]) + s[|s| - 1]
  }

  /** The load on the north beams: over the columns, each rock counts the rows from it to the south edge. */
  function Load(p: seq<seq<Position>>): nat
    requires Rectangular(p)
  {
    SeqSum(seq(|p[0]|, x requires 0 <= x < |p[0]| => LineLoad(Column(p, x))))
  }

  /** The panel tilted north: each column slid towards row 0. */
  function TiltNorthSpec(p: seq<seq<Position>>): (r: seq<seq<Position>>)
    requires Rectangular(p)
    ensures Rectangular(r) && |r| == |p| && |r[0]| == |p[0]|
    ensures forall x :: 0 <= x < |p[0]| ==> Column(r, x) == Slide(Column(p, x))
  {
    var r := seq(|p|, y requires 0 <= y < |p| => seq(|p[0]|, x requires 0 <= x < |p[0]| => Slide(Column(p, x))[y]));
    assert forall x :: 0 <= x < |p[0]| ==> Column(r, x) == Slide(Column(p, x));
    r
  }
}
