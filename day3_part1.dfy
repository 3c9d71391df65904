/**
 * Day 3, part 1: the sum of all part numbers, the numbers with a symbol next to one of their
 * digits. The schematic is read row by row; a `NumCollector` gathers the digits of the
 * current number and adds it to the sum when the number ends.
 */
module Day3Part1 {
  import opened Wrappers
  import opened Text
  import opened Day3Schematic

  /** The number written by the decimal digits `ds`, most significant first. */
  function Decimal(ds: seq<nat>): nat {
    if ds == [] then 0 else Decimal(ds[..|ds| - 1]) * 10 + ds[|ds| - 1]
  }

  /** The digits of a run of number entries. */
  function DigitsOf(cells: seq<Entry>): seq<nat> {
    seq(|cells|, i requires 0 <= i < |cells| => match cells[i] case Number(n) => n case _ => 0)
  }

  function Sum(xs: seq<nat>): nat {
    if xs == [] then 0 else Sum(xs[..|xs| - 1]) + xs[|xs| - 1]
  }

  /** How many entries at the front of `cells` are numbers. */
  function RunLength(cells: seq<Entry>): (n: nat)
    ensures n <= |cells| && (n < |cells| ==> !cells[n].Number?)
    ensures forall k :: 0 <= k < n ==> cells[k].Number?
  {
    if cells == [] || !cells[0].Number? then 0 else 1 + RunLength(cells[1..])
  }

  /**
   * The part numbers of a row, left to right: each maximal run of digits is a number, and it
   * is a part number when one of its digits is marked as touching a symbol.
   */
  function PartNumbers(cells: seq<Entry>, marks: seq<bool>): seq<nat>
    requires |marks| == |cells|
    decreases |cells|
  {
    if cells == [] then []
    else if !cells[0].Number? then PartNumbers(cells[1..], marks[1..])
    else
      var j := RunLength(cells);
      (if true in marks[..j] then [Decimal(DigitsOf(cells[..j]))] else [])
      + PartNumbers(cells[j..], marks[j..])
  }

  /** The row ends between two runs: it is empty or its last entry is not a number. */
  predicate Closed(cells: seq<Entry>) {
    cells == [] || !cells[|cells| - 1].Number?
  }

  /** A row cut after a non-number splits into the part numbers of both sides. */
  lemma {:induction false} PartNumbersAppend(a: seq<Entry>, am: seq<bool>, b: seq<Entry>, bm: seq<bool>)
    requires |am| == |a| && |bm| == |b| && Closed(a)
    ensures PartNumbers(a + b, am + bm) == PartNumbers(a, am) + PartNumbers(b, bm)
    decreases |a|
  {
    if a == [] {
      assert a + b == b && am + bm == bm;
    } else if !a[0].Number? {
      assert (a + b)[1..] == a[1..] + b && (am + bm)[1..] == am[1..] + bm;
      PartNumbersAppend(a[1..], am[1..], b, bm);
    } else {
      var j := RunLength(a);
      RunSplit(a, am, b, bm);
      PartNumbersAppend(a[j..], am[j..], b, bm);
    }
  }

  /** The run at the front of `a` is read the same way with `b` behind it. */
  lemma RunSplit(a: seq<Entry>, am: seq<bool>, b: seq<Entry>, bm: seq<bool>)
    requires |am| == |a| && |bm| == |b| && Closed(a) && a != [] && a[0].Number?
    ensures RunLength(a) < |a|
    ensures PartNumbers(a + b, am + bm)
      == (if true in am[..RunLength(a)] then [Decimal(DigitsOf(a[..RunLength(a)]))] else [])
         + PartNumbers(a[RunLength(a)..] + b, am[RunLength(a)..] + bm)
  {
    var j := RunLength(a);
    var ab := a + b;
    assert ab[..j] == a[..j] && (am + bm)[..j] == am[..j];
    RunPrefix(a, b, j);
    assert ab[j..] == a[j..] + b && (am + bm)[j..] == am[j..] + bm;
  }

  /** A run that ends inside `a` ends at the same place in `a + b`. */
  lemma RunPrefix(a: seq<Entry>, b: seq<Entry>, j: nat)
    requires j < |a| && j == RunLength(a)
    ensures RunLength(a + b) == j
    decreases j
  {
    if j > 0 {
      assert (a + b)[1..] == a[1..] + b;
      RunPrefix(a[1..], b, j - 1);
    }
  }

  /** The number a flush adds: the run's value when one of its digits is marked. */
  function RunValue(run: seq<Entry>, rm: seq<bool>): nat {
    if run != [] && true in rm then Decimal(DigitsOf(run)) else 0
  }

  /** A run of numbers followed by a non-number: its part number, if marked, and nothing else. */
  lemma {:induction false} PartNumbersRun(run: seq<Entry>, rm: seq<bool>, c: Entry, m: bool)
    requires |rm| == |run| && !c.Number?
    requires forall k :: 0 <= k < |run| ==> run[k].Number?
    ensures Sum(PartNumbers(run + [c], rm + [m])) == RunValue(run, rm)
  {
    var cells, marks := run + [c], rm + [m];
    assert [c][1..] == [] && [m][1..] == [];
    assert PartNumbers([c], [m]) == [];
    if run == [] {
      assert cells == [c] && marks == [m];
    } else {
      RunAll(run, c);
      assert cells[..|run|] == run && marks[..|run|] == rm;
      assert cells[|run|..] == [c] && marks[|run|..] == [m];
      assert cells[0].Number?;
      assert PartNumbers(cells, marks) == if true in rm then [Decimal(DigitsOf(run))] else [];
      assert Sum([Decimal(DigitsOf(run))]) == Decimal(DigitsOf(run)) by {
        assert [Decimal(DigitsOf(run))][..0] == [];
      }
    }
  }

  /** The run at the front of `run + [c]` is all of `run`. */
  lemma {:induction false} RunAll(run: seq<Entry>, c: Entry)
    requires !c.Number? && forall k :: 0 <= k < |run| ==> run[k].Number?
    ensures RunLength(run + [c]) == |run|
    decreases |run|
  {
    if run != [] {
      assert (run + [c])[1..] == run[1..] + [c];
      RunAll(run[1..], c);
    }
  }

  /**
   * `NumCollector`: the sum of the part numbers so far, the number being read (`None` before
   * its first digit) and whether it touches a symbol.
   */
  class NumCollector {
    var sum: nat
    var buffer: Option<nat>
    var bufferValid: bool
    /** The digits shifted into the buffer since the last flush. */
    ghost var digits: seq<nat>

    ghost predicate Valid()
      reads this
    {
      buffer == (if digits == [] then None else Some(Decimal(digits)))
    }

    /** `NumCollector::default`. */
    constructor ()
      ensures Valid() && sum == 0 && digits == [] && !bufferValid
    {
      sum, buffer, bufferValid := 0, None, false;
      digits := [];
    }

    /** `shift_into_buffer`: the buffer holds one more digit, in the least significant place. */
    method ShiftIntoBuffer(num: nat)
      requires Valid()
      modifies this
      ensures Valid() && digits == old(digits) + [num]
      ensures sum == old(sum) && bufferValid == old(bufferValid)
    {
      buffer := match buffer
        case None => Some(num)
        case Some(b) => Some(b * 10 + num);
      digits := digits + [num];
      assert digits[..|digits| - 1] == old(digits);
    }

    /** `flush_buffer`: a number that touches a symbol is added; the buffer is emptied. */
    method FlushBuffer()
      requires Valid()
      modifies this
      ensures Valid() && digits == [] && !bufferValid
      ensures sum == old(sum) + (if old(bufferValid) && old(digits) != [] then Decimal(old(digits)) else 0)
    {
      if buffer.Some? {
        if bufferValid {
          sum := sum + buffer.value;
        }
      }
      buffer := None;
      bufferValid := false;
      digits := [];
    }

    /** `set_buffer_valid`. */
    method SetBufferValid()
      modifies this
      ensures bufferValid && sum == old(sum) && buffer == old(buffer) && digits == old(digits)
    {
      bufferValid := true;
    }
  }

  /** Every row is at least as wide as the top border, so every cell has its eight neighbours. */
  predicate Rectangular(s: Schematic) {
    |s.entries| >= 2 && |s.entries[0]| >= 2
    && forall r :: 0 <= r < |s.entries| ==> |s.entries[r]| >= |s.entries[0]|
  }

  /** The entries of row `y`, border left out. */
  function Row(s: Schematic, y: nat): (row: seq<Entry>)
    requires Rectangular(s) && y < Dimensions(s).1
    ensures |row| == Dimensions(s).0
  {
    s.entries[y + 1][1..Dimensions(s).0 + 1]
  }

  /** For each cell of row `y`, whether a symbol is among its neighbours. */
  function Marks(s: Schematic, y: nat): (marks: seq<bool>)
    requires Rectangular(s) && y < Dimensions(s).1
    ensures |marks| == Dimensions(s).0
  {
    seq(Dimensions(s).0, x requires 0 <= x < Dimensions(s).0 => ContainsSymbols(Neighbors(s, x, y)))
  }

  /** The part numbers of row `y`. */
  function RowPartNumbers(s: Schematic, y: nat): seq<nat>
    requires Rectangular(s) && y < Dimensions(s).1
  {
    PartNumbers(Row(s, y), Marks(s, y))
  }

  /** The sum of the part numbers of each row, top to bottom. */
  function RowTotals(s: Schematic): (totals: seq<nat>)
    requires Rectangular(s)
    ensures |totals| == Dimensions(s).1
  {
    seq(Dimensions(s).1, y requires 0 <= y < Dimensions(s).1 => Sum(RowPartNumbers(s, y)))
  }

  lemma {:induction false} SumAppend(a: seq<nat>, b: seq<nat>)
    ensures Sum(a + b) == Sum(a) + Sum(b)
    decreases |b|
  {
    if b == [] {
      assert a + b == a;
    } else {
      assert (a + b)[..|a + b| - 1] == a + b[..|b| - 1];
      assert (a + b)[|a + b| - 1] == b[|b| - 1];
      SumAppend(a, b[..|b| - 1]);
    }
  }

  /** A run of numbers is one number: a part number when one of its digits is marked. */
  lemma {:induction false} PartNumbersWhole(run: seq<Entry>, rm: seq<bool>)
    requires |rm| == |run| && run != [] && forall k :: 0 <= k < |run| ==> run[k].Number?
    ensures PartNumbers(run, rm) == (if true in rm then [Decimal(DigitsOf(run))] else [])
  {
    assert run[..|run|] == run && rm[..|rm|] == rm;
    assert run[|run|..] == [] && rm[|rm|..] == [];
  }

  /** Cut after a non-number, the row's part numbers add up as those of both pieces. */
  lemma SumSplit(row: seq<Entry>, marks: seq<bool>, st: nat, e: nat)
    requires |marks| == |row| && st <= e <= |row| && Closed(row[..st])
    ensures Sum(PartNumbers(row[..e], marks[..e]))
      == Sum(PartNumbers(row[..st], marks[..st])) + Sum(PartNumbers(row[st..e], marks[st..e]))
  {
    assert row[..e] == row[..st] + row[st..e] && marks[..e] == marks[..st] + marks[st..e];
    PartNumbersAppend(row[..st], marks[..st], row[st..e], marks[st..e]);
    SumAppend(PartNumbers(row[..st], marks[..st]), PartNumbers(row[st..e], marks[st..e]));
  }

  /** Flushing at the non-number `row[x]` closes the run `row[st..x]`. */
  lemma CloseRunAt(row: seq<Entry>, marks: seq<bool>, st: nat, x: nat)
    requires |marks| == |row| && st <= x < |row| && Closed(row[..st])
    requires forall k :: st <= k < x ==> row[k].Number?
    requires !row[x].Number?
    ensures Sum(PartNumbers(row[..x + 1], marks[..x + 1]))
      == Sum(PartNumbers(row[..st], marks[..st])) + RunValue(row[st..x], marks[st..x])
  {
    var pre, pm := row[..st], marks[..st];
    var run, rm := row[st..x], marks[st..x];
    assert row[..x + 1] == pre + (run + [row[x]]) && marks[..x + 1] == pm + (rm + [marks[x]]);
    CloseRun(pre, pm, run, rm, row[x], marks[x]);
  }

  /** The part numbers of `pre`, then a run, then a non-number `c`. */
  lemma CloseRun(pre: seq<Entry>, pm: seq<bool>, run: seq<Entry>, rm: seq<bool>, c: Entry, m: bool)
    requires |pm| == |pre| && |rm| == |run| && Closed(pre) && !c.Number?
    requires forall k :: 0 <= k < |run| ==> run[k].Number?
    ensures Sum(PartNumbers(pre + (run + [c]), pm + (rm + [m]))) == Sum(PartNumbers(pre, pm)) + RunValue(run, rm)
  {
    PartNumbersRun(run, rm, c, m);
    PartNumbersAppend(pre, pm, run + [c], rm + [m]);
    SumAppend(PartNumbers(pre, pm), PartNumbers(run + [c], rm + [m]));
  }

  /** Flushing at the end of the row closes the run `row[st..]`. */
  lemma CloseRunEnd(row: seq<Entry>, marks: seq<bool>, st: nat)
    requires |marks| == |row| && st <= |row| && Closed(row[..st])
    requires forall k :: st <= k < |row| ==> row[k].Number?
    ensures Sum(PartNumbers(row, marks))
      == Sum(PartNumbers(row[..st], marks[..st])) + RunValue(row[st..], marks[st..])
  {
    SumSplit(row, marks, st, |row|);
    assert row[..|row|] == row && marks[..|row|] == marks;
    if st < |row| {
      PartNumbersWhole(row[st..], marks[st..]);
    }
  }

  /**
   * The collector after the first `x` entries of a row: the runs before `st` are summed on top
   * of `before`, and the digits of the open run `row[st..x]` are in the buffer.
   */
  ghost predicate Scanned(sum: nat, digits: seq<nat>, valid: bool,
                          row: seq<Entry>, marks: seq<bool>, before: nat, st: nat, x: nat)
  {
    |marks| == |row| && st <= x <= |row| && Closed(row[..st])
    && (forall k :: st <= k < x ==> row[k].Number?)
    && digits == DigitsOf(row[st..x]) && valid == (true in marks[st..x])
    && sum == before + Sum(PartNumbers(row[..st], marks[..st]))
  }

  /** Reading a digit extends the open run. */
  lemma ScanDigit(sum: nat, digits: seq<nat>, valid: bool, row: seq<Entry>, marks: seq<bool>,
                  before: nat, st: nat, x: nat)
    requires Scanned(sum, digits, valid, row, marks, before, st, x) && x < |row| && row[x].Number?
    ensures Scanned(sum, digits + [row[x].n], valid || marks[x], row, marks, before, st, x + 1)
  {
    var run := row[st..x];
    assert row[st..x + 1] == run + [row[x]];
    assert marks[st..x + 1] == marks[st..x] + [marks[x]];
    assert DigitsOf(run + [row[x]]) == DigitsOf(run) + [row[x].n];
  }

  /** Reading a non-number closes the open run and adds its value if it is a part number. */
  lemma ScanOther(sum: nat, digits: seq<nat>, valid: bool, row: seq<Entry>, marks: seq<bool>,
                  before: nat, st: nat, x: nat)
    requires Scanned(sum, digits, valid, row, marks, before, st, x) && x < |row| && !row[x].Number?
    ensures Scanned(sum + (if valid && digits != [] then Decimal(digits) else 0), [], false,
                    row, marks, before, x + 1, x + 1)
  {
    CloseRunAt(row, marks, st, x);
    assert row[x + 1..x + 1] == [] && marks[x + 1..x + 1] == [];
  }

  /** One step of the inner loop of `part1`: the entry at (x, y) is read into the collector. */
  method ScanEntry(collector: NumCollector, s: Schematic, x: nat, y: nat,
                   ghost row: seq<Entry>, ghost marks: seq<bool>, ghost before: nat, ghost st: nat)
    returns (ghost next: nat)
    requires Rectangular(s) && y < Dimensions(s).1 && x < Dimensions(s).0 && collector.Valid()
    requires row == Row(s, y) && marks == Marks(s, y)
    requires Scanned(collector.sum, collector.digits, collector.bufferValid, row, marks, before, st, x)
    modifies collector
    ensures collector.Valid()
    ensures Scanned(collector.sum, collector.digits, collector.bufferValid, row, marks, before, next, x + 1)
  {
    ghost var sum, digits, valid := collector.sum, collector.digits, collector.bufferValid;
    assert row[x] == EntryAt(s, x, y);
    next := st;
    match EntryAt(s, x, y) {
      case Number(num) =>
        ScanDigit(sum, digits, valid, row, marks, before, st, x);
        collector.ShiftIntoBuffer(num);
        if ContainsSymbols(Neighbors(s, x, y)) {
          collector.SetBufferValid();
        }
        assert marks[x] == ContainsSymbols(Neighbors(s, x, y));
      case _ =>
        ScanOther(sum, digits, valid, row, marks, before, st, x);
        collector.FlushBuffer();
        next := x + 1;
    }
  }

  /** At the end of the row, flushing the open run completes the row's part numbers. */
  lemma ScanEnd(sum: nat, digits: seq<nat>, valid: bool, row: seq<Entry>, marks: seq<bool>,
                before: nat, st: nat)
    requires Scanned(sum, digits, valid, row, marks, before, st, |row|)
    ensures sum + (if valid && digits != [] then Decimal(digits) else 0)
      == before + Sum(PartNumbers(row, marks))
  {
    CloseRunEnd(row, marks, st);
    assert row[st..|row|] == row[st..] && marks[st..|row|] == marks[st..];
  }

  /** The inner loop of `part1` and the flush after it: row `y`'s part numbers are added. */
  method ScanRow(collector: NumCollector, s: Schematic, y: nat)
    requires Rectangular(s) && y < Dimensions(s).1
    requires collector.Valid() && collector.digits == [] && !collector.bufferValid
    modifies collector
    ensures collector.Valid() && collector.digits == [] && !collector.bufferValid
    ensures collector.sum == old(collector.sum) + Sum(RowPartNumbers(s, y))
  {
    var lenX := Dimensions(s).0;
    ghost var row, marks := Row(s, y), Marks(s, y);
    ghost var before := collector.sum;
    ghost var st: nat := 0;
    for x := 0 to lenX
      invariant collector.Valid()
      invariant Scanned(collector.sum, collector.digits, collector.bufferValid, row, marks, before, st, x)
    {
      st := ScanEntry(collector, s, x, y, row, marks, before, st);
    }
    ScanEnd(collector.sum, collector.digits, collector.bufferValid, row, marks, before, st);
    collector.FlushBuffer();
  }

  /** The two loops of `part1` over a parsed schematic: every row's part numbers are added. */
  method SumPartNumbers(s: Schematic) returns (total: nat)
    requires Rectangular(s)
    ensures total == Sum(RowTotals(s))
  {
    var collector := new NumCollector();
    var lenY := Dimensions(s).1;
    ghost var totals := RowTotals(s);
    for y := 0 to lenY
      invariant collector.Valid() && collector.digits == [] && !collector.bufferValid
      invariant collector.sum == Sum(totals[..y])
    {
      ScanRow(collector, s, y);
      assert totals[..y + 1][..y] == totals[..y];
    }
    assert totals[..lenY] == totals;
    total := collector.sum;
  }

  /**
   * `part1`: the sum of all part numbers, row by row. Every line of the input must be at least
   * as wide as the first, as `entry_neighbors` indexes the rows below by the first one's width.
   */
  method Part1(input: string) returns (total: nat)
    requires forall l :: l in GridLines(input) ==> |l| >= FirstWidth(input)
    ensures Rectangular(Parse(input)) && total == Sum(RowTotals(Parse(input)))
  {
    var s := Parse(input);
    ParseRectangular(input, s);
    total := SumPartNumbers(s);
  }

  /** An input whose lines are all as wide as the first parses to a rectangular schematic. */
  lemma ParseRectangular(input: string, s: Schematic)
    requires s == Parse(input)
    requires forall l :: l in GridLines(input) ==> |l| >= FirstWidth(input)
    ensures Rectangular(s)
  {
    var lines := GridLines(input);
    ParseShape(input, s, lines);
    forall r | 0 <= r < |s.entries|
      ensures |s.entries[r]| >= |s.entries[0]|
    {
      if 0 < r <= |lines| {
        assert lines[r - 1] in lines;
      }
    }
  }
}
