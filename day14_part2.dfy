/**
 * Day 14, part two: the panel is spun a billion times (tilted north, west, south and east
 * in turn) and the load on the north beams is measured. The panel is tilted in place by
 * sliders that walk each column or row; the billion spins are cut short once the hash of a
 * spun panel repeats.
 */
module Day14Part2 {
  import opened Wrappers
  import opened Text
  import opened Day14Panel
  import opened Day14Tilt
  import opened Day14Cycle

  /** A line read forwards, or backwards when the slider walks it from its far end. */
  function Line(s: seq<Position>, backwards: bool): (r: seq<Position>)
    ensures |r| == |s|
  {
    seq(|s|, k requires 0 <= k < |s| => s[Place(|s|, k, backwards)])
  }

  /** Read forwards, a line is itself. */
  lemma LineForwards(s: seq<Position>)
    ensures Line(s, false) == s
  {
  }

  /** Read backwards, a line is its reverse. */
  lemma LineBackwards(s: seq<Position>)
    ensures Line(s, true) == Reverse(s)
  {
  }

  /** The index into `s` of the slider's `k`-th place. */
  function Place(n: nat, k: nat, backwards: bool): (i: nat)
    requires k < n
    ensures i < n
  {
    if backwards then n - 1 - k else k
  }

  lemma LineUpdate(s: seq<Position>, k: nat, v: Position, backwards: bool)
    requires k < |s|
    ensures Line(s[Place(|s|, k, backwards) := v], backwards) == Line(s, backwards)[k := v]
  {
    if backwards {
      var a := Reverse(s[|s| - 1 - k := v]);
      var b := Reverse(s)[k := v];
      forall i | 0 <= i < |a|
        ensures a[i] == b[i]
      {
      }
    }
  }

  lemma LineAt(s: seq<Position>, k: nat, backwards: bool)
    requires k < |s|
    ensures Line(s, backwards)[k] == s[Place(|s|, k, backwards)]
  {
  }

  lemma ReverseInjective(a: seq<Position>, b: seq<Position>)
    requires Reverse(a) == Reverse(b)
    ensures a == b
  {
    ReverseReverse(a);
    ReverseReverse(b);
  }

  /** The panel with one place overwritten. */
  function SetCell(p: seq<seq<Position>>, y: nat, x: nat, v: Position): (r: seq<seq<Position>>)
    requires y < |p| && x < |p[y]|
    ensures |r| == |p| && r[y] == p[y][x := v] && forall j :: 0 <= j < |p| && j != y ==> r[j] == p[j]
  {
    p[y := p[y][x := v]]
  }

  /** Overwriting a place changes its column at that row and no other column. */
  lemma SetCellColumns(p: seq<seq<Position>>, y: nat, x: nat, v: Position)
    requires Rectangular(p) && y < |p| && x < |p[0]|
    ensures Rectangular(SetCell(p, y, x, v)) && |SetCell(p, y, x, v)[0]| == |p[0]|
    ensures Column(SetCell(p, y, x, v), x) == Column(p, x)[y := v]
    ensures forall c :: 0 <= c < |p[0]| && c != x ==> Column(SetCell(p, y, x, v), c) == Column(p, c)
  {
    var r := SetCell(p, y, x, v);
    assert |r[0]| == |p[0]|;
    assert Rectangular(r);
    assert Column(r, x) == Column(p, x)[y := v];
  }

  /** Two panels of one shape are equal when all their columns are. */
  lemma ColumnsDetermine(a: seq<seq<Position>>, b: seq<seq<Position>>)
    requires Rectangular(a) && Rectangular(b) && |a| == |b| && |a[0]| == |b[0]|
    requires forall x :: 0 <= x < |a[0]| ==> Column(a, x) == Column(b, x)
    ensures a == b
  {
    forall y | 0 <= y < |a|
      ensures a[y] == b[y]
    {
      forall x | 0 <= x < |a[y]|
        ensures a[y][x] == b[y][x]
      {
        assert Column(a, x)[y] == a[y][x] && Column(b, x)[y] == b[y][x];
      }
    }
  }

  /** The hash of a row: each round rock at column `x` adds `y * rowLen + x`. */
  function RowHash(row: seq<Position>, y: nat, rowLen: nat): nat {
    if row == [] then 0
    else RowHash(row[..|row| - 1], y, rowLen) + (if row[|row| - 1] == Round then y * rowLen + (|row| - 1) else 0)
  }

  /** The hash of the first `n` rows. */
  function HashRows(p: seq<seq<Position>>, rowLen: nat, n: nat): nat
    requires n <= |p|
  {
    if n == 0 then 0 else HashRows(p, rowLen, n - 1) + RowHash(p[n - 1], n - 1, rowLen)
  }

  /** `Panel::hash`: the sum, over the round rocks, of their index in reading order. */
  function Hash(p: seq<seq<Position>>): nat
    requires |p| > 0
  {
    HashRows(p, |p[0]|, |p|)
  }

  /** Different panels can share a hash: a rock pair at the ends of a row hashes like one in the middle. */
  lemma HashCollides()
    ensures var a := [[Round, Empty, Empty, Round]];
            var b := [[Empty, Round, Round, Empty]];
            a != b && Hash(a) == Hash(b)
  {
    var a := [[Round, Empty, Empty, Round]];
    var b := [[Empty, Round, Round, Empty]];
    assert a[0][0] != b[0][0];
    assert RowHash([], 0, 4) == 0;
    assert RowHash([Round], 0, 4) == 0 by {
      assert [Round][..0] == [];
    }
    assert RowHash([Round, Empty], 0, 4) == 0 by {
      assert [Round, Empty][..1] == [Round];
    }
    assert RowHash([Round, Empty, Empty], 0, 4) == 0 by {
      assert [Round, Empty, Empty][..2] == [Round, Empty];
    }
    assert RowHash(a[0], 0, 4) == 3 by {
      assert a[0][..3] == [Round, Empty, Empty];
    }
    assert RowHash([Empty], 0, 4) == 0 by {
      assert [Empty][..0] == [];
    }
    assert RowHash([Empty, Round], 0, 4) == 1 by {
      assert [Empty, Round][..1] == [Empty];
    }
    assert RowHash([Empty, Round, Round], 0, 4) == 3 by {
      assert [Empty, Round, Round][..2] == [Empty, Round];
    }
    assert RowHash(b[0], 0, 4) == 3 by {
      assert b[0][..3] == [Empty, Round, Round];
    }
  }

  /** One spin cycle, on any grid (panels that are not rectangular are left alone). */
  function Spin1(p: seq<seq<Position>>): (r: seq<seq<Position>>)
    ensures |r| == |p|
    ensures Rectangular(p) ==> Rectangular(r) && |r[0]| == |p[0]|
  {
    if Rectangular(p) then SpinOnceSpec(p) else p
  }

  /** The panel after `n` spin cycles. */
  function SpinN(p: seq<seq<Position>>, n: nat): seq<seq<Position>> {
    Iterate(Spin1, p, n)
  }

  /** Spinning keeps the panel's shape and never moves a square rock. */
  lemma {:induction false} SpinNKeepsSquares(p: seq<seq<Position>>, n: nat)
    ensures Rectangular(p) ==>
      Rectangular(SpinN(p, n)) && |SpinN(p, n)| == |p| && |SpinN(p, n)[0]| == |p[0]| &&
      SameSquares(SpinN(p, n), p)
  {
    if n > 0 && Rectangular(p) {
      SpinNKeepsSquares(p, n - 1);
      var q := SpinN(p, n - 1);
      assert SpinN(p, n) == Spin1(q) == SpinOnceSpec(q);
      SpinOnceKeepsSquares(q);
      SameSquaresTransitive(SpinN(p, n), q, p);
    }
  }

  /** `Panel::hash` on any grid (0 for a grid without rows). */
  function PanelHash(p: seq<seq<Position>>): nat {
    if |p| > 0 then Hash(p) else 0
  }

  /**
   * What `spin(cycles)` leaves: the cycle shortcut taken with spin cycles and the panel
   * hash. Whatever the hashes do, it keeps the panel's shape and every square rock where it was.
   */
  function SpinResult(p: seq<seq<Position>>, cycles: nat): (r: seq<seq<Position>>)
    ensures Rectangular(p) ==> Rectangular(r) && |r| == |p| && |r[0]| == |p[0]| && SameSquares(r, p)
  {
    ShortcutIsIterate(Spin1, PanelHash, p, cycles);
    SpinNKeepsSquares(p, ShortcutSteps(Spin1, PanelHash, p, cycles));
    Shortcut(Spin1, PanelHash, p, cycles)
  }

  /**
   * `spin(cycles)` leaves the panel as `cycles` spin cycles would, provided a repeated hash
   * means a repeated panel (the hash is not injective: see `HashCollides`).
   */
  lemma SpinResultIsSpinN(p: seq<seq<Position>>, cycles: nat)
    requires RepeatIsReal(Spin1, PanelHash, p, cycles)
    ensures SpinResult(p, cycles) == SpinN(p, cycles)
  {
    ShortcutSound(Spin1, PanelHash, p, cycles);
  }

  /** A panel whose every column is the matching column of `p` slid north is `p` tilted north. */
  lemma NorthFromColumns(q: seq<seq<Position>>, p: seq<seq<Position>>)
    requires Rectangular(q) && Rectangular(p) && |q| == |p| && |q[0]| == |p[0]|
    requires forall x :: 0 <= x < |p[0]| ==> Line(Column(q, x), false) == SlidePrefix(Line(Column(p, x), false), |p|).0
    ensures q == TiltNorthSpec(p)
  {
    forall x | 0 <= x < |p[0]|
      ensures Column(q, x) == Column(TiltNorthSpec(p), x)
    {
      LineForwards(Column(q, x));
      LineForwards(Column(p, x));
    }
    ColumnsDetermine(q, TiltNorthSpec(p));
  }

  /** A panel whose every column, read from the south, is the matching column of `p` slid that way is `p` tilted south. */
  lemma SouthFromColumns(q: seq<seq<Position>>, p: seq<seq<Position>>)
    requires Rectangular(q) && Rectangular(p) && |q| == |p| && |q[0]| == |p[0]|
    requires forall x :: 0 <= x < |p[0]| ==> Line(Column(q, x), true) == SlidePrefix(Line(Column(p, x), true), |p|).0
    ensures q == TiltSouthSpec(p)
  {
    forall x | 0 <= x < |p[0]|
      ensures Column(q, x) == Column(TiltSouthSpec(p), x)
    {
      LineBackwards(Column(q, x));
      LineBackwards(Column(p, x));
      ReverseInjective(Column(q, x), Column(TiltSouthSpec(p), x));
    }
    ColumnsDetermine(q, TiltSouthSpec(p));
  }

  /** `SpinResult` by the two outcomes of the cycle search. */
  lemma SpinResultCases(p: seq<seq<Position>>, cycles: nat)
    requires cycles > 0
    ensures var d := Detect(Spin1, PanelHash, p, cycles, 0, []);
      (d.1.None? ==> SpinResult(p, cycles) == d.0) &&
      (d.1.Some? ==> SpinResult(p, cycles) == Iterate(Spin1, d.0, (cycles - d.1.value.0 - 1) % d.1.value.1))
  {
    assert SpinResult(p, cycles) == Shortcut(Spin1, PanelHash, p, cycles);
    ShortcutCases(Spin1, PanelHash, p, cycles);
  }

  /** The weights added up, as the iterator's `sum` does. */
  method Sum(weights: seq<nat>) returns (load: nat)
    ensures load == SeqSum(weights)
  {
    load := 0;
    var i := 0;
    while i < |weights|
      invariant i <= |weights| && load == SeqSum(weights[..i])
    {
      assert weights[..i + 1][..i] == weights[..i];
      load := load + weights[i];
      i := i + 1;
    }
    assert weights[..|weights|] == weights;
  }

  /** `Panel`: the grid of positions, tilted in place. */
  class Panel {
    var positions: seq<seq<Position>>

    /** `Panel::from_str`: one row per line of the input. */
    constructor FromStr(s: string)
      requires IsPanelText(s)
      ensures positions == ParsePanel(s)
    {
      positions := ParsePanel(s);
    }

    /**
     * `Slider::process_next_pos` for the `k`-th place of column `x`, counted from the south
     * edge when `backwards`: the column, read in the slider's order, takes one slider step.
     */
    method ProcessInColumn(x: nat, k: nat, slider: seq<nat>, backwards: bool) returns (slider': seq<nat>)
      requires Rectangular(positions) && k < |positions| && x < |positions[0]|
      requires forall i :: 0 <= i < |slider| ==> slider[i] < k
      modifies this
      ensures Rectangular(positions) && |positions| == |old(positions)| && |positions[0]| == |old(positions)[0]|
      ensures (Line(Column(positions, x), backwards), slider') == SlideStep(Line(Column(old(positions), x), backwards), slider, k)
      ensures forall c :: 0 <= c < |positions[0]| && c != x ==> Column(positions, c) == Column(old(positions), c)
    {
      var h := |positions|;
      var y := Place(h, k, backwards);
      LineAt(Column(positions, x), k, backwards);
      match positions[y][x] {
        case Empty => slider' := [k] + slider;
        case Square => slider' := [];
        case Round =>
          if slider == [] {
            slider' := [];
          } else {
            var to := slider[|slider| - 1];
            ghost var line := Column(positions, x);
            SetCellColumns(positions, Place(h, to, backwards), x, Round);
            LineUpdate(line, to, Round, backwards);
            positions := SetCell(positions, Place(h, to, backwards), x, Round);
            ghost var line' := Column(positions, x);
            SetCellColumns(positions, y, x, Empty);
            LineUpdate(line', k, Empty, backwards);
            positions := SetCell(positions, y, x, Empty);
            slider' := [k] + slider[..|slider| - 1];
          }
      }
    }

    /**
     * `Slider::process_next_pos` for the `k`-th place of row `y`, counted from the east
     * edge when `backwards`: the row, read in the slider's order, takes one slider step.
     */
    method ProcessInRow(y: nat, k: nat, slider: seq<nat>, backwards: bool) returns (slider': seq<nat>)
      requires y < |positions| && k < |positions[y]|
      requires forall i :: 0 <= i < |slider| ==> slider[i] < k
      modifies this
      ensures |positions| == |old(positions)|
      ensures (Line(positions[y], backwards), slider') == SlideStep(Line(old(positions)[y], backwards), slider, k)
      ensures forall j :: 0 <= j < |positions| && j != y ==> positions[j] == old(positions)[j]
    {
      var w := |positions[y]|;
      var x := Place(w, k, backwards);
      LineAt(positions[y], k, backwards);
      match positions[y][x] {
        case Empty => slider' := [k] + slider;
        case Square => slider' := [];
        case Round =>
          if slider == [] {
            slider' := [];
          } else {
            var to := slider[|slider| - 1];
            LineUpdate(positions[y], to, Round, backwards);
            positions := SetCell(positions, y, Place(w, to, backwards), Round);
            LineUpdate(positions[y], k, Empty, backwards);
            positions := SetCell(positions, y, x, Empty);
            slider' := [k] + slider[..|slider| - 1];
          }
      }
    }

    /**
     * One row of `tilt_north` (or, `backwards`, of `tilt_south`): each column's slider takes
     * the column's `k`-th place, counted from the edge the panel is tilted to.
     */
    method FeedColumns(k: nat, sliders: seq<seq<nat>>, backwards: bool, ghost p0: seq<seq<Position>>) returns (sliders': seq<seq<nat>>)
      requires Rectangular(positions) && Rectangular(p0) && |positions| == |p0| && |positions[0]| == |p0[0]| == |sliders|
      requires k < |p0|
      requires forall x :: 0 <= x < |sliders| ==>
        (Line(Column(positions, x), backwards), sliders[x]) == SlidePrefix(Line(Column(p0, x), backwards), k)
      modifies this
      ensures Rectangular(positions) && |positions| == |p0| && |positions[0]| == |p0[0]| == |sliders'|
      ensures forall x :: 0 <= x < |sliders'| ==>
        (Line(Column(positions, x), backwards), sliders'[x]) == SlidePrefix(Line(Column(p0, x), backwards), k + 1)
    {
      var rowLen := |sliders|;
      sliders' := sliders;
      var col := 0;
      while col < rowLen
        invariant Rectangular(positions) && |positions| == |p0| && |positions[0]| == rowLen && |sliders'| == rowLen
        invariant col <= rowLen
        invariant forall x :: 0 <= x < col ==> (Line(Column(positions, x), backwards), sliders'[x]) == SlidePrefix(Line(Column(p0, x), backwards), k + 1)
        invariant forall x :: col <= x < rowLen ==> (Line(Column(positions, x), backwards), sliders'[x]) == SlidePrefix(Line(Column(p0, x), backwards), k)
      {
        var s := ProcessInColumn(col, k, sliders'[col], backwards);
        sliders' := sliders'[col := s];
        col := col + 1;
      }
    }

    /** `tilt_north`: one slider per column, fed the rows from north to south. */
    method TiltNorth()
      requires Rectangular(positions)
      modifies this
      ensures positions == TiltNorthSpec(old(positions))
    {
      ghost var p0 := positions;
      var rowLen := |positions[0]|;
      var sliders: seq<seq<nat>> := seq(rowLen, _ => []);
      var row := 0;
      while row < |positions|
        invariant Rectangular(positions) && |positions| == |p0| && |positions[0]| == rowLen && |sliders| == rowLen
        invariant row <= |p0|
        invariant forall x :: 0 <= x < rowLen ==> (Line(Column(positions, x), false), sliders[x]) == SlidePrefix(Line(Column(p0, x), false), row)
      {
        sliders := FeedColumns(row, sliders, false, p0);
        row := row + 1;
      }
      NorthFromColumns(positions, p0);
    }

    /** `tilt_south`: one slider per column, fed the rows from south to north. */
    method TiltSouth()
      requires Rectangular(positions)
      modifies this
      ensures positions == TiltSouthSpec(old(positions))
    {
      ghost var p0 := positions;
      var rowLen := |positions[0]|;
      var sliders: seq<seq<nat>> := seq(rowLen, _ => []);
      var i := 0;
      while i < |positions|
        invariant Rectangular(positions) && |positions| == |p0| && |positions[0]| == rowLen && |sliders| == rowLen
        invariant i <= |p0|
        invariant forall x :: 0 <= x < rowLen ==> (Line(Column(positions, x), true), sliders[x]) == SlidePrefix(Line(Column(p0, x), true), i)
      {
        sliders := FeedColumns(i, sliders, true, p0);
        i := i + 1;
      }
      SouthFromColumns(positions, p0);
    }

    /**
     * One row of `tilt_west` (or, `backwards`, of `tilt_east`): a fresh slider fed the row's
     * places from the edge the panel is tilted to.
     */
    method SlideRow(row: nat, backwards: bool)
      requires row < |positions|
      modifies this
      ensures |positions| == |old(positions)|
      ensures Line(positions[row], backwards) == Slide(Line(old(positions)[row], backwards))
      ensures forall j :: 0 <= j < |positions| && j != row ==> positions[j] == old(positions)[j]
    {
      ghost var p0 := positions;
      var slider: seq<nat> := [];
      var k := 0;
      while k < |positions[row]|
        invariant |positions| == |p0| && |positions[row]| == |p0[row]| && k <= |p0[row]|
        invariant (Line(positions[row], backwards), slider) == SlidePrefix(Line(p0[row], backwards), k)
        invariant forall j :: 0 <= j < |p0| && j != row ==> positions[j] == p0[j]
      {
        slider := ProcessInRow(row, k, slider, backwards);
        k := k + 1;
      }
    }

    /** `tilt_west`: one slider, fed each row from west to east and reset after it. */
    method TiltWest()
      modifies this
      ensures positions == TiltWestSpec(old(positions))
    {
      ghost var p0 := positions;
      var row := 0;
      while row < |positions|
        invariant |positions| == |p0| && row <= |p0|
        invariant forall j :: 0 <= j < row ==> positions[j] == Slide(p0[j])
        invariant forall j :: row <= j < |p0| ==> positions[j] == p0[j]
      {
        SlideRow(row, false);
        LineForwards(positions[row]);
        LineForwards(p0[row]);
        row := row + 1;
      }
    }

    /** `tilt_east`: one slider, fed each row from east to west and reset after it. */
    method TiltEast()
      modifies this
      ensures positions == TiltEastSpec(old(positions))
    {
      ghost var p0 := positions;
      var row := 0;
      while row < |positions|
        invariant |positions| == |p0| && row <= |p0|
        invariant forall j :: 0 <= j < row ==> positions[j] == TiltEastSpec(p0)[j]
        invariant forall j :: row <= j < |p0| ==> positions[j] == p0[j]
      {
        SlideRow(row, true);
        LineBackwards(positions[row]);
        LineBackwards(p0[row]);
        ReverseReverse(positions[row]);
        assert positions[row] == TiltEastSpec(p0)[row];
        row := row + 1;
      }
    }

    /** `spin_once`: tilt north, west, south and east. */
    method SpinOnce()
      requires Rectangular(positions)
      modifies this
      ensures positions == SpinOnceSpec(old(positions))
    {
      TiltNorth();
      TiltWest();
      TiltSouth();
      TiltEast();
    }

    /** `Panel::hash`. */
    method HashOf() returns (hash: nat)
      requires |positions| > 0
      ensures hash == Hash(positions)
    {
      var rowLen := |positions[0]|;
      hash := 0;
      var row := 0;
      while row < |positions|
        invariant row <= |positions| && hash == HashRows(positions, rowLen, row)
      {
        var col := 0;
        ghost var before := hash;
        while col < |positions[row]|
          invariant col <= |positions[row]|
          invariant hash == before + RowHash(positions[row][..col], row, rowLen)
        {
          assert positions[row][..col + 1][..col] == positions[row][..col];
          match positions[row][col] {
            case Empty =>
            case Round => hash := hash + row * rowLen + col;
            case Square =>
          }
          col := col + 1;
        }
        assert positions[row][..col] == positions[row];
        row := row + 1;
      }
    }

    /** `calc_load`: each round rock adds the rows from it to the south edge to its column's weight. */
    method CalcLoad() returns (load: nat)
      requires Rectangular(positions)
      ensures load == Load(positions)
    {
      var rowLen := |positions[0]|;
      var weights: seq<nat> := seq(rowLen, _ => 0);
      var row := 0;
      while row < |positions|
        invariant row <= |positions| && |weights| == rowLen
        invariant forall x :: 0 <= x < rowLen ==> weights[x] == LoadUpTo(Column(positions, x), row)
      {
        weights := AddRowLoads(row, weights);
        row := row + 1;
      }
      var ps := positions;
      assert weights == seq(rowLen, x requires 0 <= x < rowLen => LineLoad(Column(ps, x)));
      load := Sum(weights);
    }

    /** The inner loop of `calc_load`: every round rock on row `row` adds its load to its column's weight. */
    method AddRowLoads(row: nat, weights0: seq<nat>) returns (weights: seq<nat>)
      requires Rectangular(positions) && row < |positions| && |weights0| == |positions[0]|
      requires forall x :: 0 <= x < |weights0| ==> weights0[x] == LoadUpTo(Column(positions, x), row)
      ensures |weights| == |weights0|
      ensures forall x :: 0 <= x < |weights| ==> weights[x] == LoadUpTo(Column(positions, x), row + 1)
    {
      var rowLen := |weights0|;
      weights := weights0;
      var col := 0;
      while col < rowLen
        invariant col <= rowLen && |weights| == rowLen
        invariant forall x :: 0 <= x < col ==> weights[x] == LoadUpTo(Column(positions, x), row + 1)
        invariant forall x :: col <= x < rowLen ==> weights[x] == LoadUpTo(Column(positions, x), row)
      {
        assert Column(positions, col)[row] == positions[row][col];
        if positions[row][col] == Round {
          weights := weights[col := weights[col] + (|positions| - row)];
        }
        col := col + 1;
      }
    }

    /**
     * The search block of `spin`: spin, hash, and stop at the first hash seen before,
     * reporting where it was recorded and how many spins lie between.
     */
    method FindCycle(cycles: nat) returns (cycle: Option<(nat, nat)>)
      requires Rectangular(positions)
      modifies this
      ensures Rectangular(positions) && |positions| == |old(positions)| && |positions[0]| == |old(positions)[0]|
      ensures (positions, cycle) == Detect(Spin1, PanelHash, old(positions), cycles, 0, [])
    {
      ghost var p0 := positions;
      var oldHashes: seq<nat> := [];
      cycle := None;
      var i := 0;
      while i < cycles
        invariant i <= cycles && |oldHashes| == i && Rectangular(positions)
        invariant |positions| == |p0| && |positions[0]| == |p0[0]|
        invariant Detect(Spin1, PanelHash, positions, cycles, i, oldHashes) == Detect(Spin1, PanelHash, p0, cycles, 0, [])
      {
        SpinOnce();
        var newHash := HashOf();
        assert newHash == PanelHash(positions);
        var found := FirstIndex(oldHashes, newHash);
        if found.Some? {
          cycle := Some((found.value, |oldHashes| - found.value));
          return;
        }
        oldHashes := oldHashes + [newHash];
        i := i + 1;
      }
    }

    /**
     * `spin`: spin until the new panel's hash equals an earlier one (or `cycles` spins are
     * done), then spin on by the cycles that the repeat leaves over.
     */
    method Spin(cycles: nat)
      requires Rectangular(positions)
      modifies this
      ensures positions == SpinResult(old(positions), cycles)
    {
      if cycles == 0 {
        return;
      }
      ghost var p0 := positions;
      var cycle := FindCycle(cycles);
      SpinResultCases(p0, cycles);
      match cycle {
        case None =>
        case Some(c) =>
          var missing := (cycles - c.0 - 1) % c.1;
          SpinTimes(missing);
      }
    }

    /** The closing loop of `spin`: `n` more spin cycles. */
    method SpinTimes(n: nat)
      requires Rectangular(positions)
      modifies this
      ensures positions == Iterate(Spin1, old(positions), n)
    {
      ghost var q := positions;
      var j := 0;
      while j < n
        invariant j <= n && Rectangular(positions) && positions == Iterate(Spin1, q, j)
      {
        SpinOnce();
        j := j + 1;
      }
    }
  }

  /** `run`: the load on the north beams after a billion spin cycles, as `spin` computes them. */
  method Run(input: string) returns (load: nat)
    requires IsPanelText(input) && Rectangular(ParsePanel(input))
    ensures load == Load(SpinResult(ParsePanel(input), 1000000000))
  {
    var panel := new Panel.FromStr(input);
    panel.Spin(1000000000);
    load := panel.CalcLoad();
  }
}
