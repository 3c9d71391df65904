/**
 * Day 15, part 1: the HASH algorithm. A `Hasher` folds the characters of a step into a
 * value below 256; a newline is skipped. The answer is the sum of the hashes of the
 * comma-separated steps.
 */
module Day15Part1 {
  import opened Text

  /** One character of the rolling hash: add the code, times 17, modulo 256; '\n' is skipped. */
  function Step(v: nat, c: char): nat {
    if c == '\n' then v else ((v + c as int) * 17) % 256
  }

  /** The value a fresh hasher holds after advancing over every char of `s` in order. */
  function HashOf(s: string): nat {
    if s == [] then 0 else Step(HashOf(s[..|s| - 1]), s[|s| - 1])
  }

  /** `s` with every newline removed. */
  function WithoutNewlines(s: string): (r: string)
    ensures '\n' !in r
    ensures |r| <= |s|
  {
    if s == [] then []
    else if s[|s| - 1] == '\n' then WithoutNewlines(s[..|s| - 1])
    else WithoutNewlines(s[..|s| - 1]) + [s[|s| - 1]]
  }

  /** Every hash fits in a byte. */
  lemma {:induction false} HashBelow256(s: string)
    ensures HashOf(s) < 256
    decreases |s|
  {
    if s != [] {
      HashBelow256(s[..|s| - 1]);
    }
  }

  /** Newlines anywhere in the step do not change its hash. */
  lemma {:induction false} HashIgnoresNewlines(s: string)
    ensures HashOf(WithoutNewlines(s)) == HashOf(s)
    decreases |s|
  {
    if s != [] {
      var init := s[..|s| - 1];
      HashIgnoresNewlines(init);
      if s[|s| - 1] != '\n' {
        var r := WithoutNewlines(init) + [s[|s| - 1]];
        assert r[..|r| - 1] == WithoutNewlines(init);
      }
    }
  }

  /** Hashing `s + t` continues from the hash of `s`: the hasher keeps no other state. */
  lemma {:induction false} HashAppend(s: string, t: string, u: string)
    requires HashOf(s) == HashOf(t)
    ensures HashOf(s + u) == HashOf(t + u)
    decreases |u|
  {
    if u != [] {
      var init := u[..|u| - 1];
      HashAppend(s, t, init);
      assert (s + u)[..|s + u| - 1] == s + init;
      assert (t + u)[..|t + u| - 1] == t + init;
    } else {
      assert s + u == s && t + u == t;
    }
  }

  /** The hasher: one `u32` that starts at 0. */
  class Hasher {
    var currentValue: nat

    ghost predicate Valid()
      reads this
    {
      currentValue < 256
    }

    constructor ()
      ensures currentValue == 0 && Valid()
    {
      currentValue := 0;
    }

    /**
     * Feeds one char. The sum `currentValue + code` stays below 256 + 0x110000 and the
     * product by 17 below 2^32, so the `u32` arithmetic never overflows.
     */
    method Advance(c: char)
      requires Valid()
      modifies this
      ensures Valid()
      ensures currentValue == Step(old(currentValue), c)
      ensures c == '\n' ==> currentValue == old(currentValue)
    {
      if c == '\n' {
        return;
      }
      var code := c as int;
      assert currentValue + code < 0x1_0000_0000 / 17;
      currentValue := currentValue + code;
      currentValue := currentValue * 17;
      currentValue := currentValue % 256;
    }
  }

  /** `hash`: a fresh hasher advanced over every char of `s`. */
  method Hash(s: string) returns (h: nat)
    ensures h == HashOf(s)
    ensures h < 256
  {
    var hasher := new Hasher();
    for i := 0 to |s|
      invariant hasher.Valid()
      invariant hasher.currentValue == HashOf(s[..i])
    {
      assert s[..i + 1][..i] == s[..i];
      hasher.Advance(s[i]);
    }
    assert s[..|s|] == s;
    h := hasher.currentValue;
  }

  /** The sum of the hashes of the steps. */
  function HashSum(steps: seq<string>): nat {
    if steps == [] then 0 else HashSum(steps[..|steps| - 1]) + HashOf(steps[|steps| - 1])
  }

  lemma {:induction false} HashSumBounded(steps: seq<string>)
    ensures HashSum(steps) <= 255 * |steps|
    decreases |steps|
  {
    if steps != [] {
      HashSumBounded(steps[..|steps| - 1]);
      HashBelow256(steps[|steps| - 1]);
    }
  }

  /** `run`: split the input at commas and add up the hashes. */
  method Run(input: string) returns (total: nat)
    ensures total == HashSum(Split(input, ','))
    ensures total <= 255 * |Split(input, ',')|
  {
    var steps := Split(input, ',');
    total := 0;
    for i := 0 to |steps|
      invariant total == HashSum(steps[..i])
    {
      assert steps[..i + 1][..i] == steps[..i];
      var h := Hash(steps[i]);
      total := total + h;
    }
    assert steps[..|steps|] == steps;
    HashSumBounded(steps);
  }

  /** The hash is the last of the running values a hasher goes through, one `Step` per char. */
  lemma {:induction false} HashOfChars(w: string, values: seq<nat>)
    requires |values| == |w| + 1 && values[0] == 0
    requires forall k :: 0 <= k < |w| ==> Step(values[k], w[k]) == values[k + 1]
    ensures HashOf(w) == values[|w|]
    decreases |w|
  {
    if w != [] {
      var n := |w| - 1;
      HashOfChars(w[..n], values[..n + 1]);
    }
  }

  /** hash("HASH") = 52. */
  lemma HashExample(s: string)
    requires s == "HASH"
    ensures HashOf(s) == 52
  {
    HashOfChars(s, [0, 200, 153, 172, 52]);
  }

  /** hash("cm=2") = 47. */
  lemma AddStepHash(add: string)
    requires add == "cm=2"
    ensures HashOf(add) == 47
  {
    HashOfChars(add, [0, 147, 0, 13, 47]);
  }

  /** hash("cm-") = 253. */
  lemma RemoveStepHash(remove: string)
    requires remove == "cm-"
    ensures HashOf(remove) == 253
  {
    HashOfChars(remove, [0, 147, 0, 253]);
  }

  /** The hashes of steps 0 to 2 of the example sequence. */
  lemma ExampleHashes0To2(steps: seq<string>)
    requires |steps| == 11
    requires steps[0] == "rn=1"
    requires steps[1] == "cm-"
    requires steps[2] == "qp=3"
    ensures HashOf(steps[0]) == 30
    ensures HashOf(steps[1]) == 253
    ensures HashOf(steps[2]) == 97
  {
    HashOfChars(steps[0], [0, 146, 0, 13, 30]);
    HashOfChars(steps[1], [0, 147, 0, 253]);
    HashOfChars(steps[2], [0, 129, 1, 30, 97]);
  }

  /** The hashes of steps 3 to 5 of the example sequence. */
  lemma ExampleHashes3To5(steps: seq<string>)
    requires |steps| == 11
    requires steps[3] == "cm=2"
    requires steps[4] == "qp-"
    requires steps[5] == "pc=4"
    ensures HashOf(steps[3]) == 47
    ensures HashOf(steps[4]) == 14
    ensures HashOf(steps[5]) == 180
  {
    HashOfChars(steps[3], [0, 147, 0, 13, 47]);
    HashOfChars(steps[4], [0, 129, 1, 14]);
    HashOfChars(steps[5], [0, 112, 3, 64, 180]);
  }

  /** The hashes of steps 6 to 8 of the example sequence. */
  lemma ExampleHashes6To8(steps: seq<string>)
    requires |steps| == 11
    requires steps[6] == "ot=9"
    requires steps[7] == "ab=5"
    requires steps[8] == "pc-"
    ensures HashOf(steps[6]) == 9
    ensures HashOf(steps[7]) == 197
    ensures HashOf(steps[8]) == 48
  {
    HashOfChars(steps[6], [0, 95, 3, 64, 9]);
    HashOfChars(steps[7], [0, 113, 3, 64, 197]);
    HashOfChars(steps[8], [0, 112, 3, 48]);
  }

  /** The hashes of steps 9 to 10 of the example sequence. */
  lemma ExampleHashes9To10(steps: seq<string>)
    requires |steps| == 11
    requires steps[9] == "pc=6"
    requires steps[10] == "ot=7"
    ensures HashOf(steps[9]) == 214
    ensures HashOf(steps[10]) == 231
  {
    HashOfChars(steps[9], [0, 112, 3, 64, 214]);
    HashOfChars(steps[10], [0, 95, 3, 64, 231]);
  }

  /** The sum over one more step. */
  lemma HashSumNext(steps: seq<string>, k: nat)
    requires k < |steps|
    ensures HashSum(steps[..k + 1]) == HashSum(steps[..k]) + HashOf(steps[k])
  {
    assert steps[..k + 1][..k] == steps[..k];
  }

  /** Eleven steps with the example hashes add up to 1320. */
  lemma ExampleSum(steps: seq<string>)
    requires |steps| == 11
    requires HashOf(steps[0]) == 30
    requires HashOf(steps[1]) == 253
    requires HashOf(steps[2]) == 97
    requires HashOf(steps[3]) == 47
    requires HashOf(steps[4]) == 14
    requires HashOf(steps[5]) == 180
    requires HashOf(steps[6]) == 9
    requires HashOf(steps[7]) == 197
    requires HashOf(steps[8]) == 48
    requires HashOf(steps[9]) == 214
    requires HashOf(steps[10]) == 231
    ensures HashSum(steps) == 1320
  {
    assert steps[..0] == [];
    HashSumNext(steps, 0);
    HashSumNext(steps, 1);
    HashSumNext(steps, 2);
    HashSumNext(steps, 3);
    HashSumNext(steps, 4);
    HashSumNext(steps, 5);
    HashSumNext(steps, 6);
    HashSumNext(steps, 7);
    HashSumNext(steps, 8);
    HashSumNext(steps, 9);
    HashSumNext(steps, 10);
    assert steps[..11] == steps;
  }

  /** The example sequence of the puzzle: its steps hash to 30, 253, 97, 47, 14, 180, 9, 197, 48, 214 and 231, 1320 in all. */
  lemma RunExample(steps: seq<string>)
    requires |steps| == 11
    requires steps[0] == "rn=1"
    requires steps[1] == "cm-"
    requires steps[2] == "qp=3"
    requires steps[3] == "cm=2"
    requires steps[4] == "qp-"
    requires steps[5] == "pc=4"
    requires steps[6] == "ot=9"
    requires steps[7] == "ab=5"
    requires steps[8] == "pc-"
    requires steps[9] == "pc=6"
    requires steps[10] == "ot=7"
    ensures Split(Join(steps, ','), ',') == steps
    ensures HashSum(steps) == 1320
  {
    ExampleHashes0To2(steps);
    ExampleHashes3To5(steps);
    ExampleHashes6To8(steps);
    ExampleHashes9To10(steps);
    ExampleSum(steps);
    ExampleHasNoComma(steps);
    SplitJoin(steps, ',');
  }

  /** No step of the example holds a comma. */
  lemma ExampleHasNoComma(steps: seq<string>)
    requires |steps| == 11
    requires steps[0] == "rn=1"
    requires steps[1] == "cm-"
    requires steps[2] == "qp=3"
    requires steps[3] == "cm=2"
    requires steps[4] == "qp-"
    requires steps[5] == "pc=4"
    requires steps[6] == "ot=9"
    requires steps[7] == "ab=5"
    requires steps[8] == "pc-"
    requires steps[9] == "pc=6"
    requires steps[10] == "ot=7"
    ensures forall i :: 0 <= i < |steps| ==> ',' !in steps[i]
  {
    forall i | 0 <= i < |steps|
      ensures ',' !in steps[i]
    {
      assert |steps[i]| <= 4;
      assert forall k :: 0 <= k < |steps[i]| ==> steps[i][k] != ',';
    }
  }
}
