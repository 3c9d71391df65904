/** Day 9's tests: the `calc_next` examples and the totals of both parts' example histories. */
module Day9Tests {
  import opened Wrappers
  import opened Day9Part1

  /** The first entries of the rows below a row, stepped one row at a time. */
  lemma FirstsSumStep(s: seq<int>, m: nat, d: seq<int>)
    requires 0 < m <= |s| && d == Differences(s)
    ensures FirstsSum(s, m) == s[0] + FirstsSum(d, m - 1)
  {
  }

  /** `test_calc_diff_over_0`: 4 2 1 1 continues with 2. */
  lemma DiffOverZero(h: seq<int>)
    requires h == [4, 2, 1, 1]
    ensures CalcValue(h, Next) == 2
  {
    var r0 := Reverse(h);
    assert r0 == [1, 1, 2, 4];
    var r1 := Differences(r0);
    assert r1 == [0, -1, -2];
    var r2 := Differences(r1);
    assert r2 == [1, 1];
    FirstsSumStep(r0, 3, r1);
    FirstsSumStep(r1, 2, r2);
    FirstsSumStep(r2, 1, Differences(r2));
  }

  /** `test_calc_negative_1`: 0 -1 -3 -6 continues with -10. */
  lemma NegativeOne(h: seq<int>)
    requires h == [0, -1, -3, -6]
    ensures CalcValue(h, Next) == -10
  {
    var r0 := Reverse(h);
    assert r0 == [-6, -3, -1, 0];
    var r1 := Differences(r0);
    assert r1 == [-3, -2, -1];
    var r2 := Differences(r1);
    assert r2 == [-1, -1];
    FirstsSumStep(r0, 3, r1);
    FirstsSumStep(r1, 2, r2);
    FirstsSumStep(r2, 1, Differences(r2));
  }

  /** The first entries of the five rows of a six-reading buffer, added up. */
  lemma FiveRows(r0: seq<int>, r1: seq<int>, r2: seq<int>, r3: seq<int>, r4: seq<int>)
    requires |r0| == 6 && r1 == Differences(r0) && r2 == Differences(r1)
    requires r3 == Differences(r2) && r4 == Differences(r3)
    ensures FirstsSum(r0, 5) == r0[0] + r1[0] + r2[0] + r3[0] + r4[0]
  {
    FirstsSumStep(r0, 5, r1);
    FirstsSumStep(r1, 4, r2);
    FirstsSumStep(r2, 3, r3);
    FirstsSumStep(r3, 2, r4);
    FirstsSumStep(r4, 1, Differences(r4));
  }

  /** `test_calc_next_2`, and part 2's value of the same history: 1 3 6 10 15 21 continues with 28 and starts with 0. */
  lemma NextTwo(h: seq<int>)
    requires h == [1, 3, 6, 10, 15, 21]
    ensures CalcValue(h, Next) == 28 && CalcValue(h, Prev) == 0
  {
    var r0 := Reverse(h);
    assert r0 == [21, 15, 10, 6, 3, 1];
    assert Differences(r0) == [6, 5, 4, 3, 2];
    assert Differences([6, 5, 4, 3, 2]) == [1, 1, 1, 1];
    assert Differences([1, 1, 1, 1]) == [0, 0, 0];
    assert Differences([0, 0, 0]) == [0, 0];
    FiveRows(r0, [6, 5, 4, 3, 2], [1, 1, 1, 1], [0, 0, 0], [0, 0]);
    assert Differences(h) == [-2, -3, -4, -5, -6];
    assert Differences([-2, -3, -4, -5, -6]) == [1, 1, 1, 1];
    FiveRows(h, [-2, -3, -4, -5, -6], [1, 1, 1, 1], [0, 0, 0], [0, 0]);
  }

  /** `test_calc_next_3`, and part 2's value of the same history: 10 13 16 21 30 45 continues with 68 and starts with 5. */
  lemma NextThree(h: seq<int>)
    requires h == [10, 13, 16, 21, 30, 45]
    ensures CalcValue(h, Next) == 68 && CalcValue(h, Prev) == 5
  {
    var r0 := Reverse(h);
    assert r0 == [45, 30, 21, 16, 13, 10];
    assert Differences(r0) == [15, 9, 5, 3, 3];
    assert Differences([15, 9, 5, 3, 3]) == [6, 4, 2, 0];
    assert Differences([6, 4, 2, 0]) == [2, 2, 2];
    assert Differences([2, 2, 2]) == [0, 0];
    FiveRows(r0, [15, 9, 5, 3, 3], [6, 4, 2, 0], [2, 2, 2], [0, 0]);
    assert Differences(h) == [-3, -3, -5, -9, -15];
    assert Differences([-3, -3, -5, -9, -15]) == [0, 2, 4, 6];
    assert Differences([0, 2, 4, 6]) == [-2, -2, -2];
    FiveRows(h, [-3, -3, -5, -9, -15], [0, 2, 4, 6], [-2, -2, -2], [0, 0]);
  }

  /** `test_calc_next_1`, and part 2's value of the same history: 0 3 6 9 12 15 continues with 18 and starts with -3. */
  lemma NextOne(h: seq<int>)
    requires h == [0, 3, 6, 9, 12, 15]
    ensures CalcValue(h, Next) == 18 && CalcValue(h, Prev) == -3
  {
    forall i | 0 <= i < |h|
      ensures h[i] == 0 + 3 * i
    {
    }
    ArithmeticHistory(h, 0, 3);
  }

  /** Part 1's `test_example`: the next values of the example's three histories add up to 114. */
  lemma ExampleTotalNext(hs: seq<seq<int>>)
    requires hs == [[0, 3, 6, 9, 12, 15], [1, 3, 6, 10, 15, 21], [10, 13, 16, 21, 30, 45]]
    ensures Total(hs, Next, 3) == Some(114)
  {
    NextOne(hs[0]);
    NextTwo(hs[1]);
    NextThree(hs[2]);
    TotalNext(hs, Next, 0, 0);
    TotalNext(hs, Next, 1, 18);
    TotalNext(hs, Next, 2, 46);
  }

  /** Part 2's `test_example`: the previous values of the same histories add up to 2. */
  lemma ExampleTotalPrev(hs: seq<seq<int>>)
    requires hs == [[0, 3, 6, 9, 12, 15], [1, 3, 6, 10, 15, 21], [10, 13, 16, 21, 30, 45]]
    ensures Total(hs, Prev, 3) == Some(2)
  {
    NextOne(hs[0]);
    NextTwo(hs[1]);
    NextThree(hs[2]);
    TotalNext(hs, Prev, 0, 0);
    TotalNext(hs, Prev, 1, -3);
    TotalNext(hs, Prev, 2, -3);
  }
}
