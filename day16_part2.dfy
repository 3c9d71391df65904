/**
 * Day 16, part two: fire a beam from every edge tile, heading into the contraption, each on
 * its own copy of the map, and keep the largest count.
 */
module Day16Part2 {
  import opened Wrappers
  import opened Text
  import opened Grid
  import opened GridSum
  import opened Day16Map
  import opened Day16Hamster
  import opened Day16Part1

  /** `Map::width`: the length of the first row. */
  function Width(fields: seq<seq<Field>>): nat
    requires |fields| > 0
  {
    |fields[0]|
  }

  /** `Map::height`: the number of rows. */
  function Height(fields: seq<seq<Field>>): nat {
    |fields|
  }

  /** Every row is as long as the first, which is not empty. */
  predicate Rectangular(fields: seq<seq<Field>>) {
    |fields| > 0 && |fields[0]| > 0 && forall y :: 0 <= y < |fields| ==> |fields[y]| == |fields[0]|
  }

  /** `n` beams facing `d`, the i-th at `at(i)`. */
  function Launchers(n: nat, at: nat -> Coords, d: Direction): (r: seq<QuantumHamster>)
    ensures |r| == n
    ensures forall i :: 0 <= i < n ==> r[i] == New(at(i), d)
  {
    seq(n, i requires 0 <= i < n => New(at(i), d))
  }

  /**
   * The launchers as `hamsters_from_above/below/left/right` write them: `Coords::new(x, y)`
   * takes the column first, but each launcher passes the row where the column belongs.
   * Above: `(0, i)` for i below the width; below: `(height - 1, i)`; left: `(i, 0)` for i
   * below the height; right: `(i, width - 1)`.
   */
  function AsWrittenLaunchers(fields: seq<seq<Field>>): (r: seq<QuantumHamster>)
    requires |fields| > 0 && |fields[0]| > 0
    ensures |r| == 2 * Width(fields) + 2 * Height(fields)
  {
    var w := Width(fields);
    var h := Height(fields);
    Launchers(w, (i: nat) => Coords(0, i), Down) + Launchers(w, (i: nat) => Coords(h - 1, i), Up) +
    Launchers(h, (i: nat) => Coords(i, 0), Right) + Launchers(h, (i: nat) => Coords(i, w - 1), Left)
  }

  /**
   * The launchers as intended: every tile of the top row heading down, of the bottom row
   * heading up, of the left column heading right and of the right column heading left.
   */
  function EdgeLaunchers(fields: seq<seq<Field>>): (r: seq<QuantumHamster>)
    requires |fields| > 0 && |fields[0]| > 0
    ensures |r| == 2 * Width(fields) + 2 * Height(fields)
  {
    var w := Width(fields);
    var h := Height(fields);
    Launchers(w, (i: nat) => Coords(i, 0), Down) + Launchers(w, (i: nat) => Coords(i, h - 1), Up) +
    Launchers(h, (i: nat) => Coords(0, i), Right) + Launchers(h, (i: nat) => Coords(w - 1, i), Left)
  }

  /**
   * Every intended launcher stands on an edge tile of a rectangular map and faces into it,
   * and every edge tile with every inward facing is launched from.
   */
  lemma EdgeLaunchersOnMap(fields: seq<seq<Field>>)
    requires Rectangular(fields)
    ensures AllOnMap(fields, EdgeLaunchers(fields))
    ensures forall x :: 0 <= x < Width(fields) ==>
      New(Coords(x, 0), Down) in EdgeLaunchers(fields) &&
      New(Coords(x, Height(fields) - 1), Up) in EdgeLaunchers(fields)
    ensures forall y :: 0 <= y < Height(fields) ==>
      New(Coords(0, y), Right) in EdgeLaunchers(fields) &&
      New(Coords(Width(fields) - 1, y), Left) in EdgeLaunchers(fields)
  {
    var w := Width(fields);
    var h := Height(fields);
    var r := EdgeLaunchers(fields);
    forall x | 0 <= x < w
      ensures New(Coords(x, 0), Down) in r && New(Coords(x, h - 1), Up) in r
    {
      assert r[x] == New(Coords(x, 0), Down);
      assert r[w + x] == New(Coords(x, h - 1), Up);
    }
    forall y | 0 <= y < h
      ensures New(Coords(0, y), Right) in r && New(Coords(w - 1, y), Left) in r
    {
      assert r[2 * w + y] == New(Coords(0, y), Right);
      assert r[2 * w + h + y] == New(Coords(w - 1, y), Left);
    }
  }

  /** On a square map the written launchers stand on the map too (they are the transposed tiles). */
  lemma AsWrittenOnSquareMap(fields: seq<seq<Field>>)
    requires Rectangular(fields) && Width(fields) == Height(fields)
    ensures AllOnMap(fields, AsWrittenLaunchers(fields))
  {
  }

  /**
   * On the one-row map "...", the first beam from above is written at column 0 of row 1,
   * which does not exist: `reorient` then unwraps a missing tile and the program panics.
   */
  lemma AsWrittenLauncherOffMap()
    ensures IsShapeGrid("...")
    ensures Rectangular(ParseFields("..."))
    ensures AsWrittenLaunchers(ParseFields("..."))[1] == New(Coords(0, 1), Down)
    ensures !InBounds(ParseFields("..."), AsWrittenLaunchers(ParseFields("..."))[1].position)
  {
    assert Lines("...") == ["..."] by {
      LinesOfOneLine("...");
    }
  }

  /** The count of a beam fired into a fresh copy of the map. */
  function FireCount(fields: seq<seq<Field>>, h: QuantumHamster): nat
    requires InBounds(fields, h.position)
  {
    NumVisited(Beam(fields, [h], None))
  }

  /** Fire one beam into a fresh copy of the map: the original is left alone. */
  method FireOnCopy(fields: seq<seq<Field>>, h: QuantumHamster) returns (count: nat)
    requires InBounds(fields, h.position)
    ensures count == FireCount(fields, h)
    ensures 1 <= count <= Cells(fields)
  {
    var city := new Map.Clone(fields);
    ghost var walks;
    count, walks := FireHamster(city, h);
  }

  /** The largest count over the launchers: at least every count, and one of them. */
  method MaxOverLaunchers(fields: seq<seq<Field>>, launchers: seq<QuantumHamster>) returns (best: nat)
    requires AllOnMap(fields, launchers) && launchers != []
    ensures forall i :: 0 <= i < |launchers| ==> FireCount(fields, launchers[i]) <= best
    ensures exists i :: 0 <= i < |launchers| && FireCount(fields, launchers[i]) == best
  {
    best := FireOnCopy(fields, launchers[0]);
    ghost var arg := 0;
    var k := 1;
    while k < |launchers|
      invariant 1 <= k <= |launchers|
      invariant forall i :: 0 <= i < k ==> FireCount(fields, launchers[i]) <= best
      invariant 0 <= arg < k && FireCount(fields, launchers[arg]) == best
    {
      var count := FireOnCopy(fields, launchers[k]);
      if count > best {
        best, arg := count, k;
      }
      k := k + 1;
    }
  }

  /**
   * `run`, with the intended launchers: the largest number of energised tiles over all
   * beams fired in from an edge, each on its own copy of the map.
   */
  method Run(input: string) returns (best: nat)
    requires IsShapeGrid(input) && Rectangular(ParseFields(input))
    ensures forall h :: h in EdgeLaunchers(ParseFields(input)) ==> FireCount(ParseFields(input), h) <= best
    ensures exists h :: h in EdgeLaunchers(ParseFields(input)) && FireCount(ParseFields(input), h) == best
    ensures 1 <= best <= Cells(ParseFields(input))
  {
    var fields := ParseFields(input);
    var launchers := EdgeLaunchers(fields);
    EdgeLaunchersOnMap(fields);
    best := MaxOverLaunchers(fields, launchers);
    var i :| 0 <= i < |launchers| && FireCount(fields, launchers[i]) == best;
    FiredCountBounds(fields, launchers[i]);
  }
}
