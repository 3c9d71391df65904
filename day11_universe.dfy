/**
 * Day 11, part one: the galaxies of an image of the sky. Every row and every column
 * without a galaxy is doubled, and the distances between all pairs of galaxies are added up.
 */
module Day11Universe {
  import opened Text

  /** A galaxy at column `x` and row `y`. */
  datatype Galaxy = Galaxy(x: nat, y: nat)

  function AbsDiff(a: nat, b: nat): nat {
    if a < b then b - a else a - b
  }

  /** `Galaxy::distance`: the Manhattan distance. */
  function Distance(a: Galaxy, b: Galaxy): nat {
    AbsDiff(a.x, b.x) + AbsDiff(a.y, b.y)
  }

  /** The distance is a metric: symmetric, zero exactly between a galaxy and itself, and never shortened by a detour. */
  lemma DistanceIsMetric(a: Galaxy, b: Galaxy, c: Galaxy)
    ensures Distance(a, b) == Distance(b, a)
    ensures Distance(a, b) == 0 <==> a == b
    ensures Distance(a, c) <= Distance(a, b) + Distance(b, c)
  {
  }

  /** `a` comes before `b` when the image is read row by row, each row left to right. */
  predicate Before(a: Galaxy, b: Galaxy) {
    a.y < b.y || (a.y == b.y && a.x < b.x)
  }

  /** The galaxies are in reading order (and so pairwise distinct). */
  predicate RowMajor(gs: seq<Galaxy>) {
    forall i, j :: 0 <= i < j < |gs| ==> Before(gs[i], gs[j])
  }

  /** `parse_line_with_num`: the galaxies of line `y`, one per '#', left to right. */
  function LineGalaxies(line: string, y: nat): seq<Galaxy>
  {
    if line == [] then []
    else if line[|line| - 1] == '#' then LineGalaxies(line[..|line| - 1], y) + [Galaxy(|line| - 1, y)]
    else LineGalaxies(line[..|line| - 1], y)
  }

  /** The galaxies of all lines: line by line, in the order `flat_map` visits them. */
  function ParseGalaxies(lines: seq<string>): seq<Galaxy>
  {
    if lines == [] then []
    else ParseGalaxies(lines[..|lines| - 1]) + LineGalaxies(lines[|lines| - 1], |lines| - 1)
  }

  /** A line's galaxies are exactly its '#' places, left to right. */
  lemma {:induction false} LineGalaxiesMeaning(line: string, y: nat)
    ensures forall g :: g in LineGalaxies(line, y) <==> g.y == y && g.x < |line| && line[g.x] == '#'
    ensures RowMajor(LineGalaxies(line, y))
    decreases |line|
  {
    if line != [] {
      var n := |line| - 1;
      var init := line[..n];
      LineGalaxiesMeaning(init, y);
      var r := LineGalaxies(line, y);
      var rest := LineGalaxies(init, y);
      assert forall x :: 0 <= x < n ==> init[x] == line[x];
      if line[n] == '#' {
        assert r == rest + [Galaxy(n, y)];
        assert forall i :: 0 <= i < |rest| ==> rest[i] in rest;
        forall g
          ensures g in r <==> g.y == y && g.x < |line| && line[g.x] == '#'
        {
          assert g in r <==> g in rest || g == Galaxy(n, y);
        }
      }
    }
  }

  /** The parsed galaxies are exactly the '#' places of the image, in reading order. */
  lemma {:induction false} ParseGalaxiesMeaning(lines: seq<string>)
    ensures forall g :: g in ParseGalaxies(lines) <==>
      g.y < |lines| && g.x < |lines[g.y]| && lines[g.y][g.x] == '#'
    ensures RowMajor(ParseGalaxies(lines))
    decreases |lines|
  {
    if lines != [] {
      var n := |lines| - 1;
      var init := lines[..n];
      ParseGalaxiesMeaning(init);
      LineGalaxiesMeaning(lines[n], n);
      var a := ParseGalaxies(init);
      var b := LineGalaxies(lines[n], n);
      var r := a + b;
      assert forall k :: 0 <= k < n ==> init[k] == lines[k];
      assert forall i :: 0 <= i < |a| ==> a[i] in a;
      assert forall j :: 0 <= j < |b| ==> b[j] in b;
      forall i, j | 0 <= i < j < |r|
        ensures Before(r[i], r[j])
      {
        if j < |a| {
        } else if i < |a| {
          assert r[i] in a && r[j] in b;
        } else {
          assert r[i] == b[i - |a|] && r[j] == b[j - |a|];
        }
      }
      forall g
        ensures g in r <==> g.y < |lines| && g.x < |lines[g.y]| && lines[g.y][g.x] == '#'
      {
        assert g in r <==> g in a || g in b;
      }
    }
  }

  /** The columns of the galaxies, in order. */
  function Xs(gs: seq<Galaxy>): (r: seq<nat>)
    ensures |r| == |gs| && forall i :: 0 <= i < |gs| ==> r[i] == gs[i].x
  {
    seq(|gs|, i requires 0 <= i < |gs| => gs[i].x)
  }

  /** The rows of the galaxies, in order. */
  function Ys(gs: seq<Galaxy>): (r: seq<nat>)
    ensures |r| == |gs| && forall i :: 0 <= i < |gs| ==> r[i] == gs[i].y
  {
    seq(|gs|, i requires 0 <= i < |gs| => gs[i].y)
  }

  /** How many entries of `vs` equal `v`: the `filter(..).count()` of `is_column_empty`/`is_row_empty`. */
  function Occurrences(vs: seq<nat>, v: nat): nat {
    if vs == [] then 0 else Occurrences(vs[..|vs| - 1], v) + (if vs[|vs| - 1] == v then 1 else 0)
  }

  /** No occurrence means not there at all. */
  lemma {:induction false} OccurrencesMeaning(vs: seq<nat>, v: nat)
    ensures Occurrences(vs, v) == 0 <==> v !in vs
    decreases |vs|
  {
    if vs != [] {
      var n := |vs| - 1;
      OccurrencesMeaning(vs[..n], v);
      assert vs == vs[..n] + [vs[n]];
    }
  }

  /** The values below `n` that no entry of `vs` takes, increasing: the lines `expand` doubles. */
  function Unused(vs: seq<nat>, n: nat): seq<nat> {
    if n == 0 then []
    else if Occurrences(vs, n - 1) == 0 then Unused(vs, n - 1) + [n - 1]
    else Unused(vs, n - 1)
  }

  predicate Increasing(s: seq<nat>) {
    forall i, j :: 0 <= i < j < |s| ==> s[i] < s[j]
  }

  /** The unused values are exactly the values below `n` missing from `vs`, in increasing order. */
  lemma {:induction false} UnusedMeaning(vs: seq<nat>, n: nat)
    ensures forall v: nat :: v in Unused(vs, n) <==> v < n && v !in vs
    ensures Increasing(Unused(vs, n))
    ensures |Unused(vs, n)| <= n
    decreases n
  {
    if n > 0 {
      var rest := Unused(vs, n - 1);
      UnusedMeaning(vs, n - 1);
      OccurrencesMeaning(vs, n - 1);
      if Occurrences(vs, n - 1) == 0 {
        var r := rest + [n - 1];
        assert Unused(vs, n) == r && n - 1 !in vs;
        assert forall i :: 0 <= i < |rest| ==> rest[i] in rest;
        forall v: nat
          ensures v in r <==> v < n && v !in vs
        {
          assert v in r <==> v in rest || v == n - 1;
        }
      } else {
        assert Unused(vs, n) == rest && n - 1 in vs;
      }
    }
  }

  /** How many entries of `s` lie below `v`: the doubled lines before a galaxy. */
  function CountBelow(s: seq<nat>, v: nat): (r: nat)
    ensures r <= |s|
  {
    if s == [] then 0 else CountBelow(s[..|s| - 1], v) + (if s[|s| - 1] < v then 1 else 0)
  }

  /** Counting below a larger value counts at least as many entries. */
  lemma {:induction false} CountBelowMonotone(s: seq<nat>, v: nat, w: nat)
    requires v <= w
    ensures CountBelow(s, v) <= CountBelow(s, w)
    decreases |s|
  {
    if s != [] {
      CountBelowMonotone(s[..|s| - 1], v, w);
    }
  }

  /** The unused values below `v` are the unused values of the shorter range: the empty lines strictly before `v`. */
  lemma {:induction false} CountBelowUnused(vs: seq<nat>, n: nat, v: nat)
    ensures CountBelow(Unused(vs, n), v) == |Unused(vs, if v < n then v else n)|
    decreases n
  {
    if n > 0 {
      CountBelowUnused(vs, n - 1, v);
      var rest := Unused(vs, n - 1);
      if Occurrences(vs, n - 1) == 0 {
        var r := rest + [n - 1];
        assert r[..|r| - 1] == rest;
      }
    }
  }

  /** Where `expand` moves a galaxy: right by the doubled columns before it, down by the doubled rows above it. */
  function Shifted(g: Galaxy, columns: seq<nat>, rows: seq<nat>): Galaxy {
    Galaxy(Shift(g.x, columns), Shift(g.y, rows))
  }

  /** A place moved on by the doubled lines before it. */
  function Shift(v: nat, doubled: seq<nat>): nat {
    v + CountBelow(doubled, v)
  }

  /** Every galaxy moved; count and order are kept. */
  function Expanded(gs: seq<Galaxy>, columns: seq<nat>, rows: seq<nat>): (r: seq<Galaxy>)
    ensures |r| == |gs|
  {
    seq(|gs|, i requires 0 <= i < |gs| => Shifted(gs[i], columns, rows))
  }

  /**
   * Expanding adds to the distance of two galaxies exactly the doubled columns and rows
   * between them, and never shortens it.
   */
  lemma ExpandedDistance(a: Galaxy, b: Galaxy, columns: seq<nat>, rows: seq<nat>)
    ensures Distance(Shifted(a, columns, rows), Shifted(b, columns, rows)) ==
      Distance(a, b) + AbsDiff(CountBelow(columns, a.x), CountBelow(columns, b.x)) +
      AbsDiff(CountBelow(rows, a.y), CountBelow(rows, b.y))
    ensures Distance(a, b) <= Distance(Shifted(a, columns, rows), Shifted(b, columns, rows))
  {
    AxisDistance(a.x, b.x, columns);
    AxisDistance(a.y, b.y, rows);
  }

  /** Along one axis, two shifted places lie as far apart as before plus the doubled lines between them. */
  lemma AxisDistance(a: nat, b: nat, doubled: seq<nat>)
    ensures AbsDiff(Shift(a, doubled), Shift(b, doubled)) ==
      AbsDiff(a, b) + AbsDiff(CountBelow(doubled, a), CountBelow(doubled, b))
  {
    if a <= b {
      CountBelowMonotone(doubled, a, b);
    } else {
      CountBelowMonotone(doubled, b, a);
    }
    ShiftApart(a, b, CountBelow(doubled, a), CountBelow(doubled, b));
  }

  /** Two places moved apart (or together) in the same order by their shifts. */
  lemma ShiftApart(a: nat, b: nat, sa: nat, sb: nat)
    requires a <= b ==> sa <= sb
    requires b <= a ==> sb <= sa
    ensures AbsDiff(a + sa, b + sb) == AbsDiff(a, b) + AbsDiff(sa, sb)
  {
  }

  /** Expanding keeps the galaxies in reading order. */
  lemma ExpandedKeepsOrder(gs: seq<Galaxy>, columns: seq<nat>, rows: seq<nat>)
    requires RowMajor(gs)
    ensures RowMajor(Expanded(gs, columns, rows))
  {
    var r := Expanded(gs, columns, rows);
    forall i, j | 0 <= i < j < |r|
      ensures Before(r[i], r[j])
    {
      assert Before(gs[i], gs[j]);
      CountBelowMonotone(rows, gs[i].y, gs[j].y);
      if gs[i].y == gs[j].y {
        CountBelowMonotone(columns, gs[i].x, gs[j].x);
      } else {
        assert gs[i].y < gs[j].y;
      }
    }
  }

  /** The sum of the distances from `g` to each of `others`. */
  function DistancesTo(g: Galaxy, others: seq<Galaxy>): nat {
    if others == [] then 0 else DistancesTo(g, others[..|others| - 1]) + Distance(g, others[|others| - 1])
  }

  /** The pairs whose first galaxy is one of the first `k`: each with every later galaxy. */
  function PairsFrom(gs: seq<Galaxy>, k: nat): nat
    requires k <= |gs|
  {
    if k == 0 then 0 else PairsFrom(gs, k - 1) + DistancesTo(gs[k - 1], gs[k..])
  }

  /**
   * `sum_distances`: for each galaxy but the last, the distances to every later galaxy.
   * `len - 1` underflows without galaxies, so there is at least one.
   */
  function SumDistances(gs: seq<Galaxy>): nat
    requires |gs| >= 1
  {
    PairsFrom(gs, |gs| - 1)
  }

  /** The sum over pairs counted by the later galaxy: each new galaxy adds its distances to all earlier ones. */
  function PairSum(gs: seq<Galaxy>): nat {
    if gs == [] then 0 else PairSum(gs[..|gs| - 1]) + DistancesTo(gs[|gs| - 1], gs[..|gs| - 1])
  }

  /** Distances to the others, one more at the end. */
  lemma DistancesToSnoc(g: Galaxy, others: seq<Galaxy>, h: Galaxy)
    ensures DistancesTo(g, others + [h]) == DistancesTo(g, others) + Distance(g, h)
  {
    assert (others + [h])[..|others|] == others;
  }

  /** The sum of the distances from each of `from` to `h` is that from `h` to each of them. */
  lemma {:induction false} DistancesToSwap(from: seq<Galaxy>, h: Galaxy, k: nat)
    requires k <= |from|
    ensures PairsTo(from, h, k) == DistancesTo(h, from[..k])
    decreases k
  {
    if k > 0 {
      DistancesToSwap(from, h, k - 1);
      assert from[..k][..k - 1] == from[..k - 1];
      DistanceIsMetric(from[k - 1], h, h);
    }
  }

  /** The distances from each of the first `k` of `from` to `h`. */
  function PairsTo(from: seq<Galaxy>, h: Galaxy, k: nat): nat
    requires k <= |from|
  {
    if k == 0 then 0 else PairsTo(from, h, k - 1) + Distance(from[k - 1], h)
  }

  /** One more galaxy at the end adds, to the pairs of the first `k`, their distances to it. */
  lemma {:induction false} PairsFromSnoc(gs: seq<Galaxy>, h: Galaxy, k: nat)
    requires k <= |gs|
    ensures PairsFrom(gs + [h], k) == PairsFrom(gs, k) + PairsTo(gs, h, k)
    decreases k
  {
    if k > 0 {
      PairsFromSnoc(gs, h, k - 1);
      var t := gs + [h];
      assert t[k - 1] == gs[k - 1];
      assert t[k..] == gs[k..] + [h];
      DistancesToSnoc(gs[k - 1], gs[k..], h);
    }
  }

  /** Galaxy by galaxy, the last galaxy's distances complete the sum. */
  lemma {:induction false} SumDistancesSnoc(gs: seq<Galaxy>, h: Galaxy)
    ensures PairsFrom(gs + [h], |gs|) == PairsFrom(gs, |gs|) + DistancesTo(h, gs)
  {
    PairsFromSnoc(gs, h, |gs|);
    DistancesToSwap(gs, h, |gs|);
    assert gs[..|gs|] == gs;
  }

  /** The pairs of the last galaxy with itself and nobody later add nothing. */
  lemma PairsFromAll(gs: seq<Galaxy>)
    requires |gs| >= 1
    ensures PairsFrom(gs, |gs|) == PairsFrom(gs, |gs| - 1)
  {
    assert gs[|gs|..] == [];
  }

  /** `sum_distances` adds every unordered pair of galaxies exactly once. */
  lemma {:induction false} SumDistancesIsPairSum(gs: seq<Galaxy>)
    requires |gs| >= 1
    ensures SumDistances(gs) == PairSum(gs)
    decreases |gs|
  {
    PairsFromAll(gs);
    PairsFromIsPairSum(gs);
  }

  lemma {:induction false} PairsFromIsPairSum(gs: seq<Galaxy>)
    ensures PairsFrom(gs, |gs|) == PairSum(gs)
    decreases |gs|
  {
    if gs != [] {
      var n := |gs| - 1;
      var init := gs[..n];
      PairsFromIsPairSum(init);
      assert init + [gs[n]] == gs;
      SumDistancesSnoc(init, gs[n]);
      PairsFromAll(gs);
      assert PairSum(gs) == PairSum(init) + DistancesTo(gs[n], init);
    }
  }

  /** Galaxies inside the image stay inside the grown image. */
  lemma ExpandedInBounds(gs: seq<Galaxy>, sizeX: nat, sizeY: nat)
    requires forall i :: 0 <= i < |gs| ==> gs[i].x < sizeX && gs[i].y < sizeY
    ensures var columns := Unused(Xs(gs), sizeX);
      var rows := Unused(Ys(gs), sizeY);
      var r := Expanded(gs, columns, rows);
      forall i :: 0 <= i < |r| ==> r[i].x < sizeX + |columns| && r[i].y < sizeY + |rows|
  {
  }

  /** The image of the sky: its galaxies and its size. */
  class Universe {
    var galaxies: seq<Galaxy>
    var sizeX: nat
    var sizeY: nat

    /**
     * `Universe::from_str`: the galaxies in reading order, the first line's length as the
     * width and the number of lines as the height; there must be a first line.
     */
    constructor FromStr(input: string)
      requires Lines(input) != []
      ensures galaxies == ParseGalaxies(Lines(input))
      ensures sizeX == |Lines(input)[0]| && sizeY == |Lines(input)|
    {
      var lines := Lines(input);
      galaxies := ParseGalaxies(lines);
      sizeX := |lines[0]|;
      sizeY := |lines|;
    }

    /** `is_column_empty`: no galaxy stands in the column. */
    predicate IsColumnEmpty(column: nat)
      reads this
    {
      Occurrences(Xs(galaxies), column) == 0
    }

    /** `is_row_empty`: no galaxy stands in the row. */
    predicate IsRowEmpty(row: nat)
      reads this
    {
      Occurrences(Ys(galaxies), row) == 0
    }

    /**
     * `expand`: collect the empty columns and rows inside the image, move every galaxy
     * right and down by the empty lines before it, and grow the image by as many.
     */
    method Expand()
      modifies this
      ensures var columns := Unused(Xs(old(galaxies)), old(sizeX));
        var rows := Unused(Ys(old(galaxies)), old(sizeY));
        galaxies == Expanded(old(galaxies), columns, rows) &&
        sizeX == old(sizeX) + |columns| && sizeY == old(sizeY) + |rows|
    {
      var columns := [];
      for x := 0 to sizeX
        invariant columns == Unused(Xs(galaxies), x)
        invariant unchanged(this)
      {
        if IsColumnEmpty(x) {
          columns := columns + [x];
        }
      }
      var rows := [];
      for y := 0 to sizeY
        invariant rows == Unused(Ys(galaxies), y)
        invariant unchanged(this)
      {
        if IsRowEmpty(y) {
          rows := rows + [y];
        }
      }
      ghost var before := galaxies;
      for i := 0 to |galaxies|
        invariant |galaxies| == |before|
        invariant forall k :: 0 <= k < i ==> galaxies[k] == Shifted(before[k], columns, rows)
        invariant forall k :: i <= k < |galaxies| ==> galaxies[k] == before[k]
        invariant sizeX == old(sizeX) && sizeY == old(sizeY)
      {
        var g := galaxies[i];
        var columnsBefore := CountBelow(columns, g.x);
        var rowsBefore := CountBelow(rows, g.y);
        galaxies := galaxies[i := Galaxy(g.x + columnsBefore, g.y + rowsBefore)];
      }
      assert galaxies == Expanded(before, columns, rows);
      sizeX := sizeX + |columns|;
      sizeY := sizeY + |rows|;
    }
  }

  /** `run`: parse, expand, add up the distances; the image must hold a line and a galaxy. */
  method Run(input: string) returns (total: nat)
    requires Lines(input) != [] && ParseGalaxies(Lines(input)) != []
    ensures var gs := ParseGalaxies(Lines(input));
      total == PairSum(Expanded(gs, Unused(Xs(gs), |Lines(input)[0]|), Unused(Ys(gs), |Lines(input)|)))
  {
    var universe := new Universe.FromStr(input);
    universe.Expand();
    total := SumDistances(universe.galaxies);
    SumDistancesIsPairSum(universe.galaxies);
  }

  /** The lines of the `test_universe_expand` image. */
  lemma ExampleLines()
    ensures Lines(".#.#\n....\n.#..\n....\n#...") == [".#.#", "....", ".#..", "....", "#..."]
  {
    var lines := [".#.#", "....", ".#..", "....", "#..."];
    assert Join(lines, '\n') == ".#.#\n....\n.#..\n....\n#...";
    LinesOfJoin(lines);
  }

  /** Reading one more character: a '#' adds a galaxy at its place, anything else nothing. */
  lemma HashStep(line: string, y: nat)
    ensures LineGalaxies(line + "#", y) == LineGalaxies(line, y) + [Galaxy(|line|, y)]
  {
    assert (line + "#")[..|line|] == line;
  }

  lemma DotStep(line: string, y: nat)
    ensures LineGalaxies(line + ".", y) == LineGalaxies(line, y)
  {
    assert (line + ".")[..|line|] == line;
  }

  /** The four galaxies of that image, in reading order. */
  lemma ExampleGalaxies(lines: seq<string>)
    requires lines == [".#.#", "....", ".#..", "....", "#..."]
    ensures ParseGalaxies(lines) == [Galaxy(1, 0), Galaxy(3, 0), Galaxy(1, 2), Galaxy(0, 4)]
  {
    ExampleRowOne();
    ExampleBlankRow(1);
    ExampleBlankRow(3);
    ExampleRowThree();
    ExampleRowFive();
    assert lines[..1][..0] == [] && lines[..2][..1] == lines[..1] && lines[..3][..2] == lines[..2];
    assert lines[..4][..3] == lines[..3] && lines[..4] == lines[..|lines| - 1];
    assert ParseGalaxies(lines[..1]) == [Galaxy(1, 0), Galaxy(3, 0)];
    assert ParseGalaxies(lines[..2]) == [Galaxy(1, 0), Galaxy(3, 0)];
    assert ParseGalaxies(lines[..3]) == [Galaxy(1, 0), Galaxy(3, 0), Galaxy(1, 2)];
    assert ParseGalaxies(lines[..4]) == [Galaxy(1, 0), Galaxy(3, 0), Galaxy(1, 2)];
    assert lines[..5] == lines;
  }

  lemma ExampleRowOne()
    ensures LineGalaxies(".#.#", 0) == [Galaxy(1, 0), Galaxy(3, 0)]
  {
    assert "" + "." == "." && "." + "#" == ".#" && ".#" + "." == ".#." && ".#." + "#" == ".#.#";
    DotStep("", 0);
    HashStep(".", 0);
    DotStep(".#", 0);
    HashStep(".#.", 0);
  }

  lemma ExampleBlankRow(y: nat)
    ensures LineGalaxies("....", y) == []
  {
    assert "" + "." == "." && "." + "." == ".." && ".." + "." == "..." && "..." + "." == "....";
    DotStep("", y);
    DotStep(".", y);
    DotStep("..", y);
    DotStep("...", y);
  }

  lemma ExampleRowThree()
    ensures LineGalaxies(".#..", 2) == [Galaxy(1, 2)]
  {
    assert "" + "." == "." && "." + "#" == ".#" && ".#" + "." == ".#." && ".#." + "." == ".#..";
    DotStep("", 2);
    HashStep(".", 2);
    DotStep(".#", 2);
    DotStep(".#.", 2);
  }

  lemma ExampleRowFive()
    ensures LineGalaxies("#...", 4) == [Galaxy(0, 4)]
  {
    assert "" + "#" == "#" && "#" + "." == "#." && "#." + "." == "#.." && "#.." + "." == "#...";
    HashStep("", 4);
    DotStep("#", 4);
    DotStep("#.", 4);
    DotStep("#..", 4);
  }

  /** Column 2 is the one empty column of the example, rows 1 and 3 its empty rows. */
  lemma ExampleEmptyLines(gs: seq<Galaxy>)
    requires gs == [Galaxy(1, 0), Galaxy(3, 0), Galaxy(1, 2), Galaxy(0, 4)]
    ensures Unused(Xs(gs), 4) == [2] && Unused(Ys(gs), 5) == [1, 3]
  {
    var xs := Xs(gs);
    var ys := Ys(gs);
    assert xs[3] == 0 && xs[0] == 1 && xs[1] == 3;
    OccurrencesMeaning(xs, 0);
    OccurrencesMeaning(xs, 1);
    OccurrencesMeaning(xs, 2);
    OccurrencesMeaning(xs, 3);
    assert Unused(xs, 1) == [] && Unused(xs, 2) == [] && Unused(xs, 3) == [2];
    assert ys[0] == 0 && ys[2] == 2 && ys[3] == 4;
    OccurrencesMeaning(ys, 0);
    OccurrencesMeaning(ys, 1);
    OccurrencesMeaning(ys, 2);
    OccurrencesMeaning(ys, 3);
    OccurrencesMeaning(ys, 4);
    assert Unused(ys, 1) == [] && Unused(ys, 2) == [1] && Unused(ys, 3) == [1];
    assert Unused(ys, 4) == [1, 3];
  }

  /**
   * `test_universe_expand`: the galaxies move to (1, 0), (4, 0), (1, 3) and (0, 6) and the
   * 4 by 5 image grows to 5 by 7.
   */
  lemma ExampleExpansion(gs: seq<Galaxy>)
    requires gs == [Galaxy(1, 0), Galaxy(3, 0), Galaxy(1, 2), Galaxy(0, 4)]
    ensures var columns := Unused(Xs(gs), 4);
      var rows := Unused(Ys(gs), 5);
      Expanded(gs, columns, rows) == [Galaxy(1, 0), Galaxy(4, 0), Galaxy(1, 3), Galaxy(0, 6)] &&
      4 + |columns| == 5 && 5 + |rows| == 7
  {
    ExampleEmptyLines(gs);
    assert [2][..0] == [] && [1, 3][..1] == [1];
    assert CountBelow([2], 1) == 0 && CountBelow([2], 3) == 1 && CountBelow([2], 0) == 0;
    assert CountBelow([1, 3], 0) == 0 && CountBelow([1, 3], 2) == 1 && CountBelow([1, 3], 4) == 2;
  }

  /** A sum over pairs, one more galaxy at the end. */
  lemma PairSumSnoc(gs: seq<Galaxy>, h: Galaxy)
    ensures PairSum(gs + [h]) == PairSum(gs) + DistancesTo(h, gs)
  {
    assert (gs + [h])[..|gs|] == gs;
  }

  /** The galaxies of the `test_distance_example` image, in reading order. */
  function ExampleSky(): (gs: seq<Galaxy>)
    ensures |gs| == 9
  {
    [Galaxy(4, 0), Galaxy(9, 1), Galaxy(0, 2), Galaxy(8, 5), Galaxy(1, 6), Galaxy(12, 7), Galaxy(9, 10), Galaxy(0, 11), Galaxy(5, 11)]
  }

  lemma ExampleReach1()
    ensures DistancesTo(ExampleSky()[1], ExampleSky()[..1]) == 6
  {
    assert ExampleSky()[..1] == [Galaxy(4, 0)];
    DistancesToSnoc(Galaxy(9, 1), [], Galaxy(4, 0));
    assert [] + [Galaxy(4, 0)] == [Galaxy(4, 0)];
  }

  lemma ExampleReach2()
    ensures DistancesTo(ExampleSky()[2], ExampleSky()[..2]) == 16
  {
    assert ExampleSky()[..2] == [Galaxy(4, 0), Galaxy(9, 1)];
    DistancesToSnoc(Galaxy(0, 2), [], Galaxy(4, 0));
    assert [] + [Galaxy(4, 0)] == [Galaxy(4, 0)];
    DistancesToSnoc(Galaxy(0, 2), [Galaxy(4, 0)], Galaxy(9, 1));
    assert [Galaxy(4, 0)] + [Galaxy(9, 1)] == [Galaxy(4, 0), Galaxy(9, 1)];
  }

  lemma ExampleReach3()
    ensures DistancesTo(ExampleSky()[3], ExampleSky()[..3]) == 25
  {
    assert ExampleSky()[..3] == [Galaxy(4, 0), Galaxy(9, 1), Galaxy(0, 2)];
    DistancesToSnoc(Galaxy(8, 5), [], Galaxy(4, 0));
    assert [] + [Galaxy(4, 0)] == [Galaxy(4, 0)];
    DistancesToSnoc(Galaxy(8, 5), [Galaxy(4, 0)], Galaxy(9, 1));
    assert [Galaxy(4, 0)] + [Galaxy(9, 1)] == [Galaxy(4, 0), Galaxy(9, 1)];
    DistancesToSnoc(Galaxy(8, 5), [Galaxy(4, 0), Galaxy(9, 1)], Galaxy(0, 2));
    assert [Galaxy(4, 0), Galaxy(9, 1)] + [Galaxy(0, 2)] == [Galaxy(4, 0), Galaxy(9, 1), Galaxy(0, 2)];
  }

  lemma ExampleReach4()
    ensures DistancesTo(ExampleSky()[4], ExampleSky()[..4]) == 35
  {
    assert ExampleSky()[..4] == [Galaxy(4, 0), Galaxy(9, 1), Galaxy(0, 2), Galaxy(8, 5)];
    DistancesToSnoc(Galaxy(1, 6), [], Galaxy(4, 0));
    assert [] + [Galaxy(4, 0)] == [Galaxy(4, 0)];
    DistancesToSnoc(Galaxy(1, 6), [Galaxy(4, 0)], Galaxy(9, 1));
    assert [Galaxy(4, 0)] + [Galaxy(9, 1)] == [Galaxy(4, 0), Galaxy(9, 1)];
    DistancesToSnoc(Galaxy(1, 6), [Galaxy(4, 0), Galaxy(9, 1)], Galaxy(0, 2));
    assert [Galaxy(4, 0), Galaxy(9, 1)] + [Galaxy(0, 2)] == [Galaxy(4, 0), Galaxy(9, 1), Galaxy(0, 2)];
    DistancesToSnoc(Galaxy(1, 6), [Galaxy(4, 0), Galaxy(9, 1), Galaxy(0, 2)], Galaxy(8, 5));
    assert [Galaxy(4, 0), Galaxy(9, 1), Galaxy(0, 2)] + [Galaxy(8, 5)] == [Galaxy(4, 0), Galaxy(9, 1), Galaxy(0, 2), Galaxy(8, 5)];
  }

  lemma ExampleReach5()
    ensures DistancesTo(ExampleSky()[5], ExampleSky()[..5]) == 59
  {
    assert ExampleSky()[..5] == [Galaxy(4, 0), Galaxy(9, 1), Galaxy(0, 2), Galaxy(8, 5), Galaxy(1, 6)];
    DistancesToSnoc(Galaxy(12, 7), [], Galaxy(4, 0));
    assert [] + [Galaxy(4, 0)] == [Galaxy(4, 0)];
    DistancesToSnoc(Galaxy(12, 7), [Galaxy(4, 0)], Galaxy(9, 1));
    assert [Galaxy(4, 0)] + [Galaxy(9, 1)] == [Galaxy(4, 0), Galaxy(9, 1)];
    DistancesToSnoc(Galaxy(12, 7), [Galaxy(4, 0), Galaxy(9, 1)], Galaxy(0, 2));
    assert [Galaxy(4, 0), Galaxy(9, 1)] + [Galaxy(0, 2)] == [Galaxy(4, 0), Galaxy(9, 1), Galaxy(0, 2)];
    DistancesToSnoc(Galaxy(12, 7), [Galaxy(4, 0), Galaxy(9, 1), Galaxy(0, 2)], Galaxy(8, 5));
    assert [Galaxy(4, 0), Galaxy(9, 1), Galaxy(0, 2)] + [Galaxy(8, 5)] == [Galaxy(4, 0), Galaxy(9, 1), Galaxy(0, 2), Galaxy(8, 5)];
    DistancesToSnoc(Galaxy(12, 7), [Galaxy(4, 0), Galaxy(9, 1), Galaxy(0, 2), Galaxy(8, 5)], Galaxy(1, 6));
    assert [Galaxy(4, 0), Galaxy(9, 1), Galaxy(0, 2), Galaxy(8, 5)] + [Galaxy(1, 6)] == [Galaxy(4, 0), Galaxy(9, 1), Galaxy(0, 2), Galaxy(8, 5), Galaxy(1, 6)];
  }

  lemma ExampleReach6()
    ensures DistancesTo(ExampleSky()[6], ExampleSky()[..6]) == 65
  {
    assert ExampleSky()[..6] == [Galaxy(4, 0), Galaxy(9, 1), Galaxy(0, 2), Galaxy(8, 5), Galaxy(1, 6), Galaxy(12, 7)];
    DistancesToSnoc(Galaxy(9, 10), [], Galaxy(4, 0));
    assert [] + [Galaxy(4, 0)] == [Galaxy(4, 0)];
    DistancesToSnoc(Galaxy(9, 10), [Galaxy(4, 0)], Galaxy(9, 1));
    assert [Galaxy(4, 0)] + [Galaxy(9, 1)] == [Galaxy(4, 0), Galaxy(9, 1)];
    DistancesToSnoc(Galaxy(9, 10), [Galaxy(4, 0), Galaxy(9, 1)], Galaxy(0, 2));
    assert [Galaxy(4, 0), Galaxy(9, 1)] + [Galaxy(0, 2)] == [Galaxy(4, 0), Galaxy(9, 1), Galaxy(0, 2)];
    DistancesToSnoc(Galaxy(9, 10), [Galaxy(4, 0), Galaxy(9, 1), Galaxy(0, 2)], Galaxy(8, 5));
    assert [Galaxy(4, 0), Galaxy(9, 1), Galaxy(0, 2)] + [Galaxy(8, 5)] == [Galaxy(4, 0), Galaxy(9, 1), Galaxy(0, 2), Galaxy(8, 5)];
    DistancesToSnoc(Galaxy(9, 10), [Galaxy(4, 0), Galaxy(9, 1), Galaxy(0, 2), Galaxy(8, 5)], Galaxy(1, 6));
    assert [Galaxy(4, 0), Galaxy(9, 1), Galaxy(0, 2), Galaxy(8, 5)] + [Galaxy(1, 6)] == [Galaxy(4, 0), Galaxy(9, 1), Galaxy(0, 2), Galaxy(8, 5), Galaxy(1, 6)];
    DistancesToSnoc(Galaxy(9, 10), [Galaxy(4, 0), Galaxy(9, 1), Galaxy(0, 2), Galaxy(8, 5), Galaxy(1, 6)], Galaxy(12, 7));
    assert [Galaxy(4, 0), Galaxy(9, 1), Galaxy(0, 2), Galaxy(8, 5), Galaxy(1, 6)] + [Galaxy(12, 7)] == [Galaxy(4, 0), Galaxy(9, 1), Galaxy(0, 2), Galaxy(8, 5), Galaxy(1, 6), Galaxy(12, 7)];
  }

  lemma ExampleReach7()
    ensures DistancesTo(ExampleSky()[7], ExampleSky()[..7]) == 89
  {
    assert ExampleSky()[..7] == [Galaxy(4, 0), Galaxy(9, 1), Galaxy(0, 2), Galaxy(8, 5), Galaxy(1, 6), Galaxy(12, 7), Galaxy(9, 10)];
    DistancesToSnoc(Galaxy(0, 11), [], Galaxy(4, 0));
    assert [] + [Galaxy(4, 0)] == [Galaxy(4, 0)];
    DistancesToSnoc(Galaxy(0, 11), [Galaxy(4, 0)], Galaxy(9, 1));
    assert [Galaxy(4, 0)] + [Galaxy(9, 1)] == [Galaxy(4, 0), Galaxy(9, 1)];
    DistancesToSnoc(Galaxy(0, 11), [Galaxy(4, 0), Galaxy(9, 1)], Galaxy(0, 2));
    assert [Galaxy(4, 0), Galaxy(9, 1)] + [Galaxy(0, 2)] == [Galaxy(4, 0), Galaxy(9, 1), Galaxy(0, 2)];
    DistancesToSnoc(Galaxy(0, 11), [Galaxy(4, 0), Galaxy(9, 1), Galaxy(0, 2)], Galaxy(8, 5));
    assert [Galaxy(4, 0), Galaxy(9, 1), Galaxy(0, 2)] + [Galaxy(8, 5)] == [Galaxy(4, 0), Galaxy(9, 1), Galaxy(0, 2), Galaxy(8, 5)];
    DistancesToSnoc(Galaxy(0, 11), [Galaxy(4, 0), Galaxy(9, 1), Galaxy(0, 2), Galaxy(8, 5)], Galaxy(1, 6));
    assert [Galaxy(4, 0), Galaxy(9, 1), Galaxy(0, 2), Galaxy(8, 5)] + [Galaxy(1, 6)] == [Galaxy(4, 0), Galaxy(9, 1), Galaxy(0, 2), Galaxy(8, 5), Galaxy(1, 6)];
    DistancesToSnoc(Galaxy(0, 11), [Galaxy(4, 0), Galaxy(9, 1), Galaxy(0, 2), Galaxy(8, 5), Galaxy(1, 6)], Galaxy(12, 7));
    assert [Galaxy(4, 0), Galaxy(9, 1), Galaxy(0, 2), Galaxy(8, 5), Galaxy(1, 6)] + [Galaxy(12, 7)] == [Galaxy(4, 0), Galaxy(9, 1), Galaxy(0, 2), Galaxy(8, 5), Galaxy(1, 6), Galaxy(12, 7)];
    DistancesToSnoc(Galaxy(0, 11), [Galaxy(4, 0), Galaxy(9, 1), Galaxy(0, 2), Galaxy(8, 5), Galaxy(1, 6), Galaxy(12, 7)], Galaxy(9, 10));
    assert [Galaxy(4, 0), Galaxy(9, 1), Galaxy(0, 2), Galaxy(8, 5), Galaxy(1, 6), Galaxy(12, 7)] + [Galaxy(9, 10)] == [Galaxy(4, 0), Galaxy(9, 1), Galaxy(0, 2), Galaxy(8, 5), Galaxy(1, 6), Galaxy(12, 7), Galaxy(9, 10)];
  }

  lemma ExampleReach8()
    ensures DistancesTo(ExampleSky()[8], ExampleSky()[..8]) == 79
  {
    assert ExampleSky()[..8] == [Galaxy(4, 0), Galaxy(9, 1), Galaxy(0, 2), Galaxy(8, 5), Galaxy(1, 6), Galaxy(12, 7), Galaxy(9, 10), Galaxy(0, 11)];
    DistancesToSnoc(Galaxy(5, 11), [], Galaxy(4, 0));
    assert [] + [Galaxy(4, 0)] == [Galaxy(4, 0)];
    DistancesToSnoc(Galaxy(5, 11), [Galaxy(4, 0)], Galaxy(9, 1));
    assert [Galaxy(4, 0)] + [Galaxy(9, 1)] == [Galaxy(4, 0), Galaxy(9, 1)];
    DistancesToSnoc(Galaxy(5, 11), [Galaxy(4, 0), Galaxy(9, 1)], Galaxy(0, 2));
    assert [Galaxy(4, 0), Galaxy(9, 1)] + [Galaxy(0, 2)] == [Galaxy(4, 0), Galaxy(9, 1), Galaxy(0, 2)];
    DistancesToSnoc(Galaxy(5, 11), [Galaxy(4, 0), Galaxy(9, 1), Galaxy(0, 2)], Galaxy(8, 5));
    assert [Galaxy(4, 0), Galaxy(9, 1), Galaxy(0, 2)] + [Galaxy(8, 5)] == [Galaxy(4, 0), Galaxy(9, 1), Galaxy(0, 2), Galaxy(8, 5)];
    DistancesToSnoc(Galaxy(5, 11), [Galaxy(4, 0), Galaxy(9, 1), Galaxy(0, 2), Galaxy(8, 5)], Galaxy(1, 6));
    assert [Galaxy(4, 0), Galaxy(9, 1), Galaxy(0, 2), Galaxy(8, 5)] + [Galaxy(1, 6)] == [Galaxy(4, 0), Galaxy(9, 1), Galaxy(0, 2), Galaxy(8, 5), Galaxy(1, 6)];
    DistancesToSnoc(Galaxy(5, 11), [Galaxy(4, 0), Galaxy(9, 1), Galaxy(0, 2), Galaxy(8, 5), Galaxy(1, 6)], Galaxy(12, 7));
    assert [Galaxy(4, 0), Galaxy(9, 1), Galaxy(0, 2), Galaxy(8, 5), Galaxy(1, 6)] + [Galaxy(12, 7)] == [Galaxy(4, 0), Galaxy(9, 1), Galaxy(0, 2), Galaxy(8, 5), Galaxy(1, 6), Galaxy(12, 7)];
    DistancesToSnoc(Galaxy(5, 11), [Galaxy(4, 0), Galaxy(9, 1), Galaxy(0, 2), Galaxy(8, 5), Galaxy(1, 6), Galaxy(12, 7)], Galaxy(9, 10));
    assert [Galaxy(4, 0), Galaxy(9, 1), Galaxy(0, 2), Galaxy(8, 5), Galaxy(1, 6), Galaxy(12, 7)] + [Galaxy(9, 10)] == [Galaxy(4, 0), Galaxy(9, 1), Galaxy(0, 2), Galaxy(8, 5), Galaxy(1, 6), Galaxy(12, 7), Galaxy(9, 10)];
    DistancesToSnoc(Galaxy(5, 11), [Galaxy(4, 0), Galaxy(9, 1), Galaxy(0, 2), Galaxy(8, 5), Galaxy(1, 6), Galaxy(12, 7), Galaxy(9, 10)], Galaxy(0, 11));
    assert [Galaxy(4, 0), Galaxy(9, 1), Galaxy(0, 2), Galaxy(8, 5), Galaxy(1, 6), Galaxy(12, 7), Galaxy(9, 10)] + [Galaxy(0, 11)] == [Galaxy(4, 0), Galaxy(9, 1), Galaxy(0, 2), Galaxy(8, 5), Galaxy(1, 6), Galaxy(12, 7), Galaxy(9, 10), Galaxy(0, 11)];
  }

  /** The sum over the first `k + 1` galaxies from that over the first `k`. */
  lemma PairSumStep(gs: seq<Galaxy>, k: nat, before: nat, added: nat)
    requires k < |gs| && PairSum(gs[..k]) == before && DistancesTo(gs[k], gs[..k]) == added
    ensures PairSum(gs[..k + 1]) == before + added
  {
    assert gs[..k + 1] == gs[..k] + [gs[k]];
    PairSumSnoc(gs[..k], gs[k]);
  }

  /** The distances among the first five galaxies of the example add up to 82. */
  lemma ExampleFirstFive()
    ensures PairSum(ExampleSky()[..5]) == 82
  {
    var gs := ExampleSky();
    assert gs[..1] == [gs[0]];
    assert PairSum(gs[..1]) == 0;
    ExampleReach1();
    PairSumStep(gs, 1, 0, 6);
    ExampleReach2();
    PairSumStep(gs, 2, 6, 16);
    ExampleReach3();
    PairSumStep(gs, 3, 22, 25);
    ExampleReach4();
    PairSumStep(gs, 4, 47, 35);
  }

  /**
   * `test_distance_example`: the 36 distances between the nine galaxies of the example
   * image add up to 374.
   */
  lemma ExampleDistanceSum()
    ensures SumDistances(ExampleSky()) == 374
  {
    var gs := ExampleSky();
    ExampleFirstFive();
    ExampleReach5();
    PairSumStep(gs, 5, 82, 59);
    ExampleReach6();
    PairSumStep(gs, 6, 141, 65);
    ExampleReach7();
    PairSumStep(gs, 7, 206, 89);
    ExampleReach8();
    PairSumStep(gs, 8, 295, 79);
    assert gs[..9] == gs;
    SumDistancesIsPairSum(gs);
  }
}
