/** Day 3's `test_collector`, replayed on the collector class. */
module Day3Tests {
  import opened Day3Schematic
  import opened Day3Part1

  /** The two numbers the collector test assembles digit by digit. */
  lemma CollectedNumbers()
    ensures Decimal([1, 3, 3, 7]) == 1337 && Decimal([4, 2]) == 42
  {
    assert [1, 3, 3, 7][..3] == [1, 3, 3] && [1, 3, 3][..2] == [1, 3] && [1, 3][..1] == [1] && [1][..0] == [];
    assert Decimal([1, 3]) == 13;
    assert [4, 2][..1] == [4] && [4][..0] == [];
  }

  /** An empty collector: no digits buffered and the buffer not valid. */
  ghost predicate Idle(c: NumCollector)
    reads c
  {
    c.Valid() && c.digits == [] && !c.bufferValid
  }

  /** The first part of the test: an empty flush, then 4 and 2 flushed without being marked valid; the sum stays. */
  method UnmarkedNumber(c: NumCollector) returns (first: nat, second: nat)
    requires Idle(c)
    modifies c
    ensures Idle(c) && first == second == c.sum == old(c.sum)
  {
    c.FlushBuffer();
    first := c.sum;
    c.ShiftIntoBuffer(4);
    c.ShiftIntoBuffer(2);
    c.FlushBuffer();
    second := c.sum;
  }

  /** The middle of the test: 1, 3, 3, 7 marked valid after the 3, then 4, 2 marked valid after the 4. */
  method MarkedNumbers(c: NumCollector) returns (first: nat, second: nat)
    requires Idle(c)
    modifies c
    ensures Idle(c) && first == old(c.sum) + 1337 && second == c.sum == first + 42
  {
    CollectedNumbers();
    c.ShiftIntoBuffer(1);
    c.ShiftIntoBuffer(3);
    c.SetBufferValid();
    c.ShiftIntoBuffer(3);
    c.ShiftIntoBuffer(7);
    c.FlushBuffer();
    first := c.sum;
    c.ShiftIntoBuffer(4);
    c.SetBufferValid();
    c.ShiftIntoBuffer(2);
    c.FlushBuffer();
    second := c.sum;
  }

  /** The end of the test: a valid flag with no digits, then an unmarked 1; the sum stays. */
  method Leftovers(c: NumCollector) returns (last: nat)
    requires Idle(c)
    modifies c
    ensures Idle(c) && last == c.sum == old(c.sum)
  {
    c.SetBufferValid();
    c.FlushBuffer();
    c.ShiftIntoBuffer(1);
    c.FlushBuffer();
    last := c.sum;
  }

  /**
   * `test_collector`: the sums after each flush. A flush without a valid buffer adds
   * nothing; 1, 3, 3, 7 marked valid midway add 1337; 4, 2 add 42; a lone valid flag with
   * no digits and an unmarked 1 add nothing.
   */
  method CollectorTest() returns (sums: seq<nat>)
    ensures sums == [0, 0, 0, 1337, 1337 + 42, 1337 + 42]
  {
    var collector := new NumCollector();
    var s0 := collector.sum;
    var s1, s2 := UnmarkedNumber(collector);
    var s3, s4 := MarkedNumbers(collector);
    var s5 := Leftovers(collector);
    sums := [s0, s1, s2, s3, s4, s5];
  }
}
