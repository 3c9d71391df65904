/**
 * Day 9: extrapolating a history of readings. The source rewrites a buffer in place
 * into successive difference rows and adds up the first entry of each row. For the
 * next value the buffer is reversed first, so the rows' first entries are the
 * difference table's last entries; for the previous value it is not, and the rows hold
 * the differences with alternating sign.
 */
module Day9Part1 {
  import opened Wrappers
  import opened Text

  datatype CalcWhat = Next | Prev

  // ---------------------------------------------------------------------------
  // The puzzle's difference table.

  /** The steps between neighbouring readings; an empty history has no steps. */
  function Steps(a: seq<int>): (r: seq<int>)
    ensures |r| == if a == [] then 0 else |a| - 1
  {
    seq(if a == [] then 0 else |a| - 1, i requires 0 <= i < |a| - 1 => a[i + 1] - a[i])
  }


  /** Row `k` of the difference table: the steps taken `k` times. */
  function StepsN(a: seq<int>, k: nat): (r: seq<int>)
    requires k <= |a|
    ensures |r| == |a| - k
    decreases k
  {
    if k == 0 then a else StepsN(Steps(a), k - 1)
  }

  /** The next value as the puzzle defines it: the last reading plus the next step; nothing extrapolates to 0. */
  function NextValue(a: seq<int>): int
    decreases |a|
  {
    if a == [] then 0 else a[|a| - 1] + NextValue(Steps(a))
  }

  /** The previous value as the puzzle defines it: the first reading minus the previous step. */
  function PrevValue(a: seq<int>): int
    decreases |a|
  {
    if a == [] then 0 else a[0] - PrevValue(Steps(a))
  }

  predicate AllZero(a: seq<int>) {
    forall i :: 0 <= i < |a| ==> a[i] == 0
  }

  // ---------------------------------------------------------------------------
  // What the source's buffer holds.

  /** One pass of the inner loop: every entry minus its right neighbour. */
  function Differences(s: seq<int>): (r: seq<int>)
    ensures |r| == if s == [] then 0 else |s| - 1
  {
    seq(if s == [] then 0 else |s| - 1, i requires 0 <= i < |s| - 1 => s[i] - s[i + 1])
  }


  /** The first entries of `m` successive rows, starting from row `s`, added up. */
  function FirstsSum(s: seq<int>, m: nat): int
    requires m <= |s|
    decreases m
  {
    if m == 0 then 0 else s[0] + FirstsSum(Differences(s), m - 1)
  }

  /** The first `m` rows' first entries only depend on the first `m` entries of the row. */
  lemma {:induction false} FirstsSumPrefix(s: seq<int>, t: seq<int>, m: nat)
    requires m <= |s| && m <= |t| && s[..m] == t[..m]
    ensures FirstsSum(s, m) == FirstsSum(t, m)
    decreases m
  {
    if m > 0 {
      assert s[0] == s[..m][0] == t[..m][0] == t[0];
      var ds, dt := Differences(s), Differences(t);
      forall i | 0 <= i < m - 1
        ensures ds[i] == dt[i]
      {
        assert s[i] == s[..m][i] == t[..m][i] == t[i];
        assert s[i + 1] == s[..m][i + 1] == t[..m][i + 1] == t[i + 1];
      }
      assert ds[..m - 1] == dt[..m - 1];
      FirstsSumPrefix(ds, dt, m - 1);
    }
  }

  function Reverse(a: seq<int>): (r: seq<int>)
    ensures |r| == |a|
  {
    seq(|a|, i requires 0 <= i < |a| => a[|a| - 1 - i])
  }

  /**
   * What `calc` returns: the first entry of every row but the last, added up, where the
   * buffer starts as the history, reversed for the next value.
   */
  function CalcValue(history: seq<int>, what: CalcWhat): int
    requires |history| > 1
  {
    if what == Next then FirstsSum(Reverse(history), |history| - 1) else FirstsSum(history, |history| - 1)
  }

  /**
   * `calc`: the buffer is rewritten in place. Each round adds the first entry, narrows
   * the range by one and turns the entries in range into the next row; the entries past
   * the range are never needed again.
   */
  method Calc(history: seq<int>, what: CalcWhat) returns (accu: int)
    requires |history| > 1
    ensures accu == CalcValue(history, what)
  {
    var n := |history|;
    ghost var s := history;
    if what == Next {
      s := Reverse(history);
    }
    var list := new int[n](i requires 0 <= i < n => if what == Next then history[n - 1 - i] else history[i]);
    accu := 0;
    var end := n - 1;
    ghost var row := list[..end];
    assert row == s[..end];
    FirstsSumPrefix(s, row, end);
    while end > 0
      invariant 0 <= end <= n - 1
      invariant |row| == end && list[..end] == row
      invariant accu + FirstsSum(row, end) == CalcValue(history, what)
    {
      assert list[0] == row[0];
      accu := accu + list[0];
      end := end - 1;
      assert list[..end + 1] == row;
      DifferencePass(list, end, row);
      row := Differences(row);
    }
  }

  /** The inner loop of `calc`: entries 0 to `end` - 1 become differences of neighbours, in place. */
  method DifferencePass(list: array<int>, end: nat, ghost row: seq<int>)
    requires end < list.Length && |row| == end + 1
    requires list[..end + 1] == row
    modifies list
    ensures list[..end] == Differences(row)
    ensures list[end..] == old(list[end..])
  {
    for i := 0 to end
      invariant forall j :: 0 <= j < i ==> list[j] == row[j] - row[j + 1]
      invariant forall j :: i <= j <= end ==> list[j] == row[j]
      invariant list[end..] == old(list[end..])
    {
      assert list[i + 1] == list[..end + 1][i + 1];
      list[i] := list[i] - list[i + 1];
    }
    forall j | 0 <= j < end
      ensures list[..end][j] == Differences(row)[j]
    {
      assert list[j] == row[j] - row[j + 1];
    }
  }

  /** `calc_next`. */
  method CalcNext(history: seq<int>) returns (next: int)
    requires |history| > 1
    ensures next == CalcValue(history, Next)
  {
    next := Calc(history, Next);
  }

  // ---------------------------------------------------------------------------
  // The buffer's rows against the difference table.

  /** Entry `i` of a pass over the reversed row is entry `i` of its reversed steps. */
  lemma DifferenceOfReverseAt(a: seq<int>, i: nat)
    requires i + 1 < |a|
    ensures Differences(Reverse(a))[i] == Reverse(Steps(a))[i]
  {
    var n := |a|;
    var r := Reverse(a);
    assert Differences(r)[i] == r[i] - r[i + 1];
    assert r[i] == a[n - 1 - i] && r[i + 1] == a[n - 2 - i];
    assert Reverse(Steps(a))[i] == Steps(a)[n - 2 - i];
  }

  /** Reversing turns the steps into the buffer's differences. */
  lemma DifferencesOfReverse(a: seq<int>)
    requires |a| >= 1
    ensures Differences(Reverse(a)) == Reverse(Steps(a))
  {
    var d := Differences(Reverse(a));
    var rs := Reverse(Steps(a));
    forall i | 0 <= i < |a| - 1
      ensures d[i] == rs[i]
    {
      DifferenceOfReverseAt(a, i);
    }
    assert |d| == |rs|;
  }

  /** The last entries of `m` successive rows of the difference table, starting from row `a`, added up. */
  function LastsSum(a: seq<int>, m: nat): int
    requires m <= |a|
    decreases m
  {
    if m == 0 then 0 else a[|a| - 1] + LastsSum(Steps(a), m - 1)
  }

  /** On the reversed buffer the rows' first entries are the table's last entries. */
  lemma {:induction false} FirstsSumOfReverse(a: seq<int>, m: nat)
    requires m <= |a|
    ensures FirstsSum(Reverse(a), m) == LastsSum(a, m)
    decreases m
  {
    if m > 0 {
      DifferencesOfReverse(a);
      FirstsSumOfReverse(Steps(a), m - 1);
    }
  }

  /** The next value is the last entries of the first m rows plus the next value of row m. */
  lemma {:induction false} NextValueSplit(a: seq<int>, m: nat)
    requires m <= |a|
    ensures NextValue(a) == LastsSum(a, m) + NextValue(StepsN(a, m))
    decreases m
  {
    if m > 0 {
      NextValueSplit(Steps(a), m - 1);
    }
  }

  /** `x`, or `-x` on a negated row. */
  function Signed(neg: bool, x: int): int {
    if neg then -x else x
  }

  function Odd(k: nat): bool {
    k % 2 == 1
  }

  /** A row of the difference table as the unreversed buffer holds it: negated on odd rows. */
  function SignedRow(neg: bool, a: seq<int>): (r: seq<int>)
    ensures |r| == |a|
  {
    seq(|a|, i requires 0 <= i < |a| => Signed(neg, a[i]))
  }

  /** Entry `i` of a pass over a row as the buffer holds it is entry `i` of the next row, sign flipped. */
  lemma DifferenceOfSignedRowAt(neg: bool, a: seq<int>, i: nat)
    requires i + 1 < |a|
    ensures Differences(SignedRow(neg, a))[i] == SignedRow(!neg, Steps(a))[i]
  {
    var r := SignedRow(neg, a);
    assert Differences(r)[i] == r[i] - r[i + 1];
    assert r[i] == Signed(neg, a[i]) && r[i + 1] == Signed(neg, a[i + 1]);
    assert SignedRow(!neg, Steps(a))[i] == Signed(!neg, a[i + 1] - a[i]);
  }

  /** One pass over a row as the buffer holds it gives the next row with the other sign. */
  lemma DifferencesOfSignedRow(neg: bool, a: seq<int>)
    requires |a| >= 1
    ensures Differences(SignedRow(neg, a)) == SignedRow(!neg, Steps(a))
  {
    var d := Differences(SignedRow(neg, a));
    var sr := SignedRow(!neg, Steps(a));
    forall i | 0 <= i < |a| - 1
      ensures d[i] == sr[i]
    {
      DifferenceOfSignedRowAt(neg, a, i);
    }
    assert |d| == |sr|;
  }

  /** The first entries of `m` successive rows, starting from row `a`, with alternating sign. */
  function SignedFirstsSum(a: seq<int>, neg: bool, m: nat): int
    requires m <= |a|
    decreases m
  {
    if m == 0 then 0 else Signed(neg, a[0]) + SignedFirstsSum(Steps(a), !neg, m - 1)
  }

  /** On the unreversed buffer the rows' first entries are the table's first entries, signed. */
  lemma {:induction false} FirstsSumOfSignedRow(a: seq<int>, neg: bool, m: nat)
    requires m <= |a|
    ensures FirstsSum(SignedRow(neg, a), m) == SignedFirstsSum(a, neg, m)
    decreases m
  {
    if m > 0 {
      DifferencesOfSignedRow(neg, a);
      FirstsSumOfSignedRow(Steps(a), !neg, m - 1);
    }
  }

  /** The previous value, signed, is the signed first entries of m rows plus row m's previous value, signed. */
  lemma {:induction false} PrevValueSplit(a: seq<int>, neg: bool, m: nat)
    requires m <= |a|
    ensures Signed(neg, PrevValue(a)) == SignedFirstsSum(a, neg, m) + Signed(neg != Odd(m), PrevValue(StepsN(a, m)))
    decreases m
  {
    if m > 0 {
      PrevValueSplit(Steps(a), !neg, m - 1);
      assert PrevValue(a) == a[0] - PrevValue(Steps(a));
      assert Odd(m - 1) == !Odd(m);
    }
  }

  /**
   * `calc` for the next value is the puzzle's extrapolation minus the one entry of the
   * table's last row, which the rewrite never reaches.
   */
  lemma CalcNextMeaning(a: seq<int>)
    requires |a| > 1
    ensures CalcValue(a, Next) + StepsN(a, |a| - 1)[0] == NextValue(a)
  {
    var n := |a|;
    FirstsSumOfReverse(a, n - 1);
    NextValueSplit(a, n - 1);
    var last := StepsN(a, n - 1);
    assert Steps(last) == [];
  }

  /** Likewise for the previous value, with the last row's entry negated when that row is odd. */
  lemma CalcPrevMeaning(a: seq<int>)
    requires |a| > 1
    ensures CalcValue(a, Prev) + Signed(Odd(|a| - 1), StepsN(a, |a| - 1)[0]) == PrevValue(a)
  {
    var n := |a|;
    assert SignedRow(false, a) == a;
    FirstsSumOfSignedRow(a, false, n - 1);
    PrevValueSplit(a, false, n - 1);
    var last := StepsN(a, n - 1);
    assert Steps(last) == [];
  }

  /** The steps of a row of zeros are zeros. */
  lemma StepsOfZeros(x: seq<int>)
    requires AllZero(x)
    ensures AllZero(Steps(x))
  {
    forall i | 0 <= i < |Steps(x)|
      ensures Steps(x)[i] == 0
    {
      assert x[i] == 0 && x[i + 1] == 0;
    }
  }

  /** Once a row is all zeros, every later row is too. */
  lemma {:induction false} ZeroRowsStayZero(a: seq<int>, m: nat, k: nat)
    requires m <= k <= |a| && AllZero(StepsN(a, m))
    ensures AllZero(StepsN(a, k))
    decreases k
  {
    if m > 0 {
      ZeroRowsStayZero(Steps(a), m - 1, k - 1);
    } else if k > 0 {
      StepsOfZeros(a);
      ZeroRowsStayZero(Steps(a), 0, k - 1);
    }
  }

  /**
   * When the difference table reaches a row of zeros, as the puzzle promises, `calc`
   * gives exactly the puzzle's next and previous values.
   */
  lemma CalcExact(a: seq<int>, m: nat)
    requires 1 < |a| && m < |a| && AllZero(StepsN(a, m))
    ensures CalcValue(a, Next) == NextValue(a)
    ensures CalcValue(a, Prev) == PrevValue(a)
  {
    ZeroRowsStayZero(a, m, |a| - 1);
    CalcNextMeaning(a);
    CalcPrevMeaning(a);
  }

  lemma {:induction false} ExtrapolateZeros(a: seq<int>)
    requires AllZero(a)
    ensures NextValue(a) == 0 && PrevValue(a) == 0
    decreases |a|
  {
    if a != [] {
      StepsOfZeros(a);
      ExtrapolateZeros(Steps(a));
    }
  }

  /** A constant row has zero steps and extrapolates to its constant, both ways. */
  lemma ConstantRow(x: seq<int>, c: int)
    requires |x| > 0 && forall i :: 0 <= i < |x| ==> x[i] == c
    ensures AllZero(Steps(x))
    ensures NextValue(x) == c && PrevValue(x) == c
  {
    forall i | 0 <= i < |Steps(x)|
      ensures Steps(x)[i] == 0
    {
      assert x[i] == c && x[i + 1] == c;
    }
    ExtrapolateZeros(Steps(x));
  }

  /** A constant history continues with its constant, both ways. */
  lemma ConstantHistory(a: seq<int>, c: int)
    requires |a| > 1 && forall i :: 0 <= i < |a| ==> a[i] == c
    ensures CalcValue(a, Next) == c && CalcValue(a, Prev) == c
  {
    assert StepsN(a, 1) == Steps(a);
    ConstantRow(a, c);
    CalcExact(a, 1);
  }

  /** The steps of an arithmetic sequence are all its difference. */
  lemma ArithmeticSteps(a: seq<int>, c: int, d: int)
    requires forall i :: 0 <= i < |a| ==> a[i] == c + d * i
    ensures forall i :: 0 <= i < |Steps(a)| ==> Steps(a)[i] == d
  {
    forall i | 0 <= i < |Steps(a)|
      ensures Steps(a)[i] == d
    {
      assert a[i + 1] == c + d * (i + 1) && a[i] == c + d * i;
      assert d * (i + 1) == d * i + d;
    }
  }

  /** A history whose steps are all `d` continues by `d` both ways, and its second steps are zeros. */
  lemma ConstantSteps(a: seq<int>, d: int)
    requires |a| > 1 && forall i :: 0 <= i < |Steps(a)| ==> Steps(a)[i] == d
    ensures NextValue(a) == a[|a| - 1] + d
    ensures PrevValue(a) == a[0] - d
    ensures AllZero(StepsN(a, 2))
  {
    ConstantRow(Steps(a), d);
    assert StepsN(a, 2) == Steps(Steps(a));
  }

  /** An arithmetic history of at least three readings continues with its next and previous terms. */
  lemma ArithmeticHistory(a: seq<int>, c: int, d: int)
    requires |a| > 2 && forall i :: 0 <= i < |a| ==> a[i] == c + d * i
    ensures CalcValue(a, Next) == c + d * |a|
    ensures CalcValue(a, Prev) == c - d
  {
    var n := |a|;
    ArithmeticSteps(a, c, d);
    ConstantSteps(a, d);
    CalcExact(a, 2);
    assert a[n - 1] == c + d * (n - 1) && a[0] == c;
    assert d * (n - 1) + d == d * n;
  }

  /** With two readings there is no row of zeros to reach: `calc` returns the last reading, not the next. */
  lemma TwoReadings(x: int, y: int)
    ensures CalcValue([x, y], Next) == y
    ensures NextValue([x, y]) == y + (y - x)
  {
    assert Reverse([x, y]) == [y, x];
    assert FirstsSum([y, x], 1) == y;
    assert Steps([x, y]) == [y - x];
    assert Steps([y - x]) == [];
    assert NextValue([y - x]) == y - x;
  }

  // ---------------------------------------------------------------------------
  // Reading the input.

  /** The numbers of one line, split at single spaces; None where `parse().unwrap()` panics. */
  function ParseHistory(line: string): (r: Option<seq<int>>)
    ensures r.Some? ==> |r.value| == |Split(line, ' ')|
  {
    ParseAll(Split(line, ' '))
  }

  function ParseAll(words: seq<string>): (r: Option<seq<int>>)
    ensures r.Some? ==> |r.value| == |words|
  {
    if words == [] then Some([])
    else
      var n := |words| - 1;
      match ParseAll(words[..n])
      case None => None
      case Some(values) =>
        match ParseInt(words[n])
        case None => None
        case Some(v) => Some(values + [v])
  }

  /** The sum of `calc` over the first `n` histories, or None where `calc` would panic on a history of one reading. */
  function Total(histories: seq<seq<int>>, what: CalcWhat, n: nat): Option<int>
    requires n <= |histories|
  {
    if n == 0 then Some(0)
    else
      match Total(histories, what, n - 1)
      case None => None
      case Some(t) =>
        if |histories[n - 1]| > 1 then Some(t + CalcValue(histories[n - 1], what)) else None
  }

  /** Every line parsed, or None at the first line that does not parse. */
  function ParseLines(lines: seq<string>): (r: Option<seq<seq<int>>>)
    ensures r.Some? ==> |r.value| == |lines|
  {
    if lines == [] then Some([])
    else
      var n := |lines| - 1;
      match ParseLines(lines[..n])
      case None => None
      case Some(hs) =>
        match ParseHistory(lines[n])
        case None => None
        case Some(h) => Some(hs + [h])
  }

  /** The answer: part 1 with `Next`, part 2 with `Prev`. */
  function Answer(input: string, what: CalcWhat): Option<int> {
    match ParseLines(Lines(input))
    case None => None
    case Some(histories) => Total(histories, what, |histories|)
  }

  /** The `calc` values of the histories added up, as the iterator's `sum` does. */
  method SumCalc(histories: seq<seq<int>>, what: CalcWhat) returns (r: Option<int>)
    ensures r == Total(histories, what, |histories|)
  {
    var total := 0;
    for i := 0 to |histories|
      invariant Total(histories, what, i) == Some(total)
    {
      var next := AddCalc(histories, what, i, total);
      if next.None? {
        TotalPrefixNone(histories, what, i + 1, |histories|);
        return None;
      }
      total := next.value;
    }
    r := Some(total);
  }

  /** One step of the sum: `calc` on history `i` added to the running total, or None where it panics. */
  method AddCalc(histories: seq<seq<int>>, what: CalcWhat, i: nat, total: int) returns (r: Option<int>)
    requires i < |histories| && Total(histories, what, i) == Some(total)
    ensures r == Total(histories, what, i + 1)
  {
    TotalNext(histories, what, i, total);
    if |histories[i]| <= 1 {
      return None;
    }
    var v := Calc(histories[i], what);
    r := Some(total + v);
  }

  /** One more history: its `calc` value is added, or the sum panics if it has only one reading. */
  lemma TotalNext(histories: seq<seq<int>>, what: CalcWhat, i: nat, t: int)
    requires i < |histories| && Total(histories, what, i) == Some(t)
    ensures |histories[i]| > 1 ==> Total(histories, what, i + 1) == Some(t + CalcValue(histories[i], what))
    ensures |histories[i]| <= 1 ==> Total(histories, what, i + 1) == None
  {
  }

  /** `run` of part 1 (`Next`) and of part 2 (`Prev`): `calc` on every line, added up. */
  method Run(input: string, what: CalcWhat) returns (r: Option<int>)
    ensures r == Answer(input, what)
  {
    var parsed := ParseLines(Lines(input));
    if parsed.None? {
      return None;
    }
    r := SumCalc(parsed.value, what);
  }

  /** Once one history panics, so does the whole sum. */
  lemma {:induction false} TotalPrefixNone(histories: seq<seq<int>>, what: CalcWhat, i: nat, n: nat)
    requires i <= n <= |histories| && Total(histories, what, i).None?
    ensures Total(histories, what, n).None?
    decreases n - i
  {
    if i < n {
      TotalPrefixNone(histories, what, i + 1, n);
    }
  }
}
