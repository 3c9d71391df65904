/**
 * Day 14, part two: the four tilts of a panel, each the line tilt applied to every column
 * (north, south) or row (west, east), towards the edge the panel is tilted to.
 */
module Day14Tilt {
  import opened Day14Panel

  /** The panel tilted south: each column slid towards its last row. */
  function TiltSouthSpec(p: seq<seq<Position>>): (r: seq<seq<Position>>)
    requires Rectangular(p)
    ensures Rectangular(r) && |r| == |p| && |r[0]| == |p[0]|
    ensures forall x :: 0 <= x < |p[0]| ==> Reverse(Column(r, x)) == Slide(Reverse(Column(p, x)))
  {
    var h := |p|;
    var r := seq(h, y requires 0 <= y < h =>
      seq(|p[0]|, x requires 0 <= x < |p[0]| => Slide(Reverse(Column(p, x)))[h - 1 - y]));
    assert forall x :: 0 <= x < |p[0]| ==> Reverse(Column(r, x)) == Slide(Reverse(Column(p, x)));
    r
  }

  /** The panel tilted west: each row slid towards its first column. */
  function TiltWestSpec(p: seq<seq<Position>>): (r: seq<seq<Position>>)
    ensures |r| == |p| && forall y :: 0 <= y < |p| ==> r[y] == Slide(p[y])
  {
    seq(|p|, y requires 0 <= y < |p| => Slide(p[y]))
  }

  /** The panel tilted east: each row slid towards its last column. */
  function TiltEastSpec(p: seq<seq<Position>>): (r: seq<seq<Position>>)
    ensures |r| == |p| && forall y :: 0 <= y < |p| ==> r[y] == Reverse(Slide(Reverse(p[y])))
  {
    seq(|p|, y requires 0 <= y < |p| => Reverse(Slide(Reverse(p[y]))))
  }

  /** `spin_once`: north, then west, then south, then east. */
  function SpinOnceSpec(p: seq<seq<Position>>): (r: seq<seq<Position>>)
    requires Rectangular(p)
    ensures Rectangular(r) && |r| == |p| && |r[0]| == |p[0]|
  {
    var n := TiltNorthSpec(p);
    var w := TiltWestSpec(n);
    var s := TiltSouthSpec(w);
    TiltEastSpec(s)
  }

  /** Square rocks are in the same places on both panels. */
  predicate SameSquares(a: seq<seq<Position>>, b: seq<seq<Position>>) {
    |a| == |b| &&
    forall y :: 0 <= y < |a| ==> |a[y]| == |b[y]| && forall x :: 0 <= x < |a[y]| ==> (a[y][x] == Square <==> b[y][x] == Square)
  }

  lemma ReverseSettles(line: seq<Position>)
    ensures SameSquaresUpTo(Reverse(Slide(Reverse(line))), line, |line|)
    ensures multiset(Reverse(Slide(Reverse(line)))) == multiset(line)
  {
    SlideSettles(Reverse(line));
    var t := Slide(Reverse(line));
    assert multiset(Reverse(t)) == multiset(t) by {
      ReversePermutes(t);
    }
    assert multiset(Reverse(line)) == multiset(line) by {
      ReversePermutes(line);
    }
  }

  lemma {:induction false} ReversePermutes<T>(s: seq<T>)
    ensures multiset(Reverse(s)) == multiset(s)
    decreases |s|
  {
    if s != [] {
      ReversePermutes(s[1..]);
      assert Reverse(s) == Reverse(s[1..]) + [s[0]];
      assert s == [s[0]] + s[1..];
    }
  }

  /**
   * Tilting north keeps every square rock in place and rearranges each column; read from
   * the north edge, no column has an empty place before a round rock unless a square rock
   * lies between them.
   */
  lemma TiltNorthSettles(p: seq<seq<Position>>)
    requires Rectangular(p)
    ensures SameSquares(TiltNorthSpec(p), p)
    ensures forall x :: 0 <= x < |p[0]| ==>
      multiset(Column(TiltNorthSpec(p), x)) == multiset(Column(p, x)) &&
      SettledUpTo(Column(TiltNorthSpec(p), x), |p|)
  {
    var r := TiltNorthSpec(p);
    forall x | 0 <= x < |p[0]|
      ensures multiset(Column(r, x)) == multiset(Column(p, x)) && SettledUpTo(Column(r, x), |p|)
      ensures SameSquaresUpTo(Column(r, x), Column(p, x), |p|)
    {
      SlideSettles(Column(p, x));
    }
    forall y, x | 0 <= y < |p| && 0 <= x < |p[y]|
      ensures r[y][x] == Square <==> p[y][x] == Square
    {
      assert Column(r, x)[y] == r[y][x] && Column(p, x)[y] == p[y][x];
    }
  }

  /** Tilting south keeps the squares and each column's positions; read from the south edge, each column is settled. */
  lemma TiltSouthSettles(p: seq<seq<Position>>)
    requires Rectangular(p)
    ensures SameSquares(TiltSouthSpec(p), p)
    ensures forall x :: 0 <= x < |p[0]| ==>
      multiset(Column(TiltSouthSpec(p), x)) == multiset(Column(p, x)) &&
      SettledUpTo(Reverse(Column(TiltSouthSpec(p), x)), |p|)
  {
    var r := TiltSouthSpec(p);
    forall x | 0 <= x < |p[0]|
      ensures multiset(Column(r, x)) == multiset(Column(p, x)) && SettledUpTo(Reverse(Column(r, x)), |p|)
      ensures SameSquaresUpTo(Column(r, x), Column(p, x), |p|)
    {
      ReverseSettles(Column(p, x));
      SlideSettles(Reverse(Column(p, x)));
      ReverseReverse(Column(r, x));
    }
    forall y, x | 0 <= y < |p| && 0 <= x < |p[y]|
      ensures r[y][x] == Square <==> p[y][x] == Square
    {
      assert Column(r, x)[y] == r[y][x] && Column(p, x)[y] == p[y][x];
    }
  }

  /** Tilting west keeps the squares and each row's positions, and settles each row towards the west edge. */
  lemma TiltWestSettles(p: seq<seq<Position>>)
    ensures SameSquares(TiltWestSpec(p), p)
    ensures forall y :: 0 <= y < |p| ==>
      multiset(TiltWestSpec(p)[y]) == multiset(p[y]) && SettledUpTo(TiltWestSpec(p)[y], |p[y]|)
  {
    forall y | 0 <= y < |p|
      ensures multiset(TiltWestSpec(p)[y]) == multiset(p[y]) && SettledUpTo(TiltWestSpec(p)[y], |p[y]|)
      ensures SameSquaresUpTo(TiltWestSpec(p)[y], p[y], |p[y]|)
    {
      SlideSettles(p[y]);
    }
  }

  /** Tilting east keeps the squares and each row's positions, and settles each row towards the east edge. */
  lemma TiltEastSettles(p: seq<seq<Position>>)
    ensures SameSquares(TiltEastSpec(p), p)
    ensures forall y :: 0 <= y < |p| ==>
      multiset(TiltEastSpec(p)[y]) == multiset(p[y]) && SettledUpTo(Reverse(TiltEastSpec(p)[y]), |p[y]|)
  {
    forall y | 0 <= y < |p|
      ensures multiset(TiltEastSpec(p)[y]) == multiset(p[y]) && SettledUpTo(Reverse(TiltEastSpec(p)[y]), |p[y]|)
      ensures SameSquaresUpTo(TiltEastSpec(p)[y], p[y], |p[y]|)
    {
      assert TiltEastSpec(p)[y] == Reverse(Slide(Reverse(p[y])));
      EastLineSettles(p[y]);
    }
  }

  /** A line slid towards its end keeps its squares and positions, and is settled read from its end. */
  lemma EastLineSettles(line: seq<Position>)
    ensures multiset(Reverse(Slide(Reverse(line)))) == multiset(line)
    ensures SettledUpTo(Reverse(Reverse(Slide(Reverse(line)))), |line|)
    ensures SameSquaresUpTo(Reverse(Slide(Reverse(line))), line, |line|)
  {
    ReverseSettles(line);
    SlideSettles(Reverse(line));
    ReverseReverse(Slide(Reverse(line)));
  }

  lemma SameSquaresTransitive(a: seq<seq<Position>>, b: seq<seq<Position>>, c: seq<seq<Position>>)
    requires SameSquares(a, b) && SameSquares(b, c)
    ensures SameSquares(a, c)
  {
  }

  /** A spin cycle leaves every square rock where it was. */
  lemma SpinOnceKeepsSquares(p: seq<seq<Position>>)
    requires Rectangular(p)
    ensures SameSquares(SpinOnceSpec(p), p)
  {
    var n := TiltNorthSpec(p);
    var w := TiltWestSpec(n);
    var s := TiltSouthSpec(w);
    TiltNorthSettles(p);
    TiltWestSettles(n);
    TiltSouthSettles(w);
    TiltEastSettles(s);
  }

  /** Tilting west twice is tilting once. */
  lemma TiltWestIdempotent(p: seq<seq<Position>>)
    ensures TiltWestSpec(TiltWestSpec(p)) == TiltWestSpec(p)
  {
    forall y | 0 <= y < |p|
      ensures Slide(Slide(p[y])) == Slide(p[y])
    {
      SlideIdempotent(p[y]);
    }
  }

  /** Tilting north twice is tilting once. */
  lemma TiltNorthIdempotent(p: seq<seq<Position>>)
    requires Rectangular(p)
    ensures TiltNorthSpec(TiltNorthSpec(p)) == TiltNorthSpec(p)
  {
    var r := TiltNorthSpec(p);
    var rr := TiltNorthSpec(r);
    forall y, x | 0 <= y < |p| && 0 <= x < |p[0]|
      ensures rr[y][x] == r[y][x]
    {
      SlideIdempotent(Column(p, x));
      assert Column(r, x) == Slide(Column(p, x));
      assert Column(rr, x) == Slide(Column(r, x));
      assert Column(rr, x) == Column(r, x);
      assert Column(rr, x)[y] == rr[y][x];
    }
    forall y | 0 <= y < |p|
      ensures rr[y] == r[y]
    {
      assert |rr[y]| == |rr[0]| == |r[0]| == |r[y]|;
    }
  }
}
