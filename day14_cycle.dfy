/**
 * Day 14, part two: the shortcut `spin` takes through a long run of spin cycles, stated for
 * any step function `f` and any hash. The step is applied and the new state's hash looked up
 * among the earlier ones; at the first repeat the remaining steps are reduced modulo the
 * length of the repeat.
 */
module Day14Cycle {
  import opened Wrappers

  /** `f` applied `n` times. */
  function Iterate<T>(f: T -> T, x: T, n: nat): T {
    if n == 0 then x else f(Iterate(f, x, n - 1))
  }

  /** Applying `f` `a` times and then `b` times is applying it `a + b` times. */
  lemma {:induction false} IterateAdd<T>(f: T -> T, x: T, a: nat, b: nat)
    ensures Iterate(f, Iterate(f, x, a), b) == Iterate(f, x, a + b)
  {
    if b > 0 {
      IterateAdd(f, x, a, b - 1);
    }
  }

  /** Once the value after `a` steps comes back after `a + len`, every further `len` steps change nothing. */
  lemma {:induction false} IteratePeriodic<T>(f: T -> T, x: T, a: nat, len: nat, m: nat, rest: nat)
    requires Iterate(f, x, a) == Iterate(f, x, a + len)
    ensures Iterate(f, x, a + m * len + rest) == Iterate(f, x, a + rest)
  {
    if m > 0 {
      calc {
        Iterate(f, x, a + m * len + rest);
        { IterateAdd(f, x, a + len, (m - 1) * len + rest); }
        Iterate(f, Iterate(f, x, a + len), (m - 1) * len + rest);
        Iterate(f, Iterate(f, x, a), (m - 1) * len + rest);
        { IterateAdd(f, x, a, (m - 1) * len + rest); }
        Iterate(f, x, a + (m - 1) * len + rest);
        { IteratePeriodic(f, x, a, len, m - 1, rest); }
        Iterate(f, x, a + rest);
      }
    }
  }

  /** The first index at which `x` occurs in `s`: `position` on an iterator. */
  function FirstIndex(s: seq<nat>, x: nat): (r: Option<nat>)
    ensures r.Some? ==> r.value < |s| && s[r.value] == x && forall j :: 0 <= j < r.value ==> s[j] != x
    ensures r.None? ==> x !in s
  {
    if s == [] then None
    else if s[0] == x then Some(0)
    else match FirstIndex(s[1..], x)
      case None => None
      case Some(i) => Some(i + 1)
  }

  /**
   * The cycle search from its `i`-th round on: step once, and stop at the first earlier
   * hash equal to the new one, reporting where that hash was recorded and how many rounds
   * lie between; without such a repeat, go on until `cycles` rounds are done.
   */
  function Detect<T>(f: T -> T, hash: T -> nat, x: T, cycles: nat, i: nat, hashes: seq<nat>): (r: (T, Option<(nat, nat)>))
    requires i <= cycles && |hashes| == i
    ensures r.1.Some? ==> r.1.value.1 >= 1 && r.1.value.0 + r.1.value.1 < cycles
    decreases cycles - i
  {
    if i == cycles then (x, None)
    else
      var q := f(x);
      var h := hash(q);
      match FirstIndex(hashes, h)
      case Some(idx) => (q, Some((idx, |hashes| - idx)))
      case None => Detect(f, hash, q, cycles, i + 1, hashes + [h])
  }

  /** What the shortcut leaves: the searched state, stepped on by the rounds the repeat still owes. */
  function Shortcut<T>(f: T -> T, hash: T -> nat, x: T, cycles: nat): T {
    if cycles == 0 then x
    else
      var d := Detect(f, hash, x, cycles, 0, []);
      match d.1
      case None => d.0
      case Some(c) => Iterate(f, d.0, (cycles - c.0 - 1) % c.1)
  }

  /** The shortcut after at least one round, by the search's two outcomes. */
  lemma ShortcutCases<T>(f: T -> T, hash: T -> nat, x: T, cycles: nat)
    requires cycles > 0
    ensures var d := Detect(f, hash, x, cycles, 0, []);
      (d.1.None? ==> Shortcut(f, hash, x, cycles) == d.0) &&
      (d.1.Some? ==> Shortcut(f, hash, x, cycles) == Iterate(f, d.0, (cycles - d.1.value.0 - 1) % d.1.value.1))
  {
  }

  /** How many steps the shortcut actually takes. */
  function ShortcutSteps<T>(f: T -> T, hash: T -> nat, x: T, cycles: nat): nat {
    if cycles == 0 then 0
    else
      var d := Detect(f, hash, x, cycles, 0, []);
      match d.1
      case None => cycles
      case Some(c) => c.0 + c.1 + 1 + (cycles - c.0 - 1) % c.1
  }

  /** The hashes recorded so far are those of the states after 1, 2, ... steps. */
  ghost predicate HashesOf<T>(f: T -> T, hash: T -> nat, x: T, hashes: seq<nat>) {
    forall j :: 0 <= j < |hashes| ==> hashes[j] == hash(Iterate(f, x, j + 1))
  }

  /**
   * The search ends on the state after all `cycles` steps when no hash repeats; when one
   * does, it ends on the state after `start + len + 1` steps, whose hash equals that of the
   * state after `start + 1` steps.
   */
  lemma {:induction false} DetectMeaning<T>(f: T -> T, hash: T -> nat, x: T, cycles: nat, i: nat, hashes: seq<nat>)
    requires i <= cycles && |hashes| == i && HashesOf(f, hash, x, hashes)
    ensures var r := Detect(f, hash, Iterate(f, x, i), cycles, i, hashes);
      (r.1.None? ==> r.0 == Iterate(f, x, cycles)) &&
      (r.1.Some? ==> r.0 == Iterate(f, x, r.1.value.0 + r.1.value.1 + 1) &&
                     hash(Iterate(f, x, r.1.value.0 + 1)) == hash(r.0))
    decreases cycles - i
  {
    if i < cycles {
      var q := f(Iterate(f, x, i));
      assert q == Iterate(f, x, i + 1);
      var h := hash(q);
      match FirstIndex(hashes, h)
      case Some(idx) =>
      case None =>
        assert HashesOf(f, hash, x, hashes + [h]);
        DetectMeaning(f, hash, x, cycles, i + 1, hashes + [h]);
    }
  }

  /** The search from the first round on, as `DetectMeaning` states it. */
  lemma DetectFromStart<T>(f: T -> T, hash: T -> nat, x: T, cycles: nat)
    ensures var r := Detect(f, hash, x, cycles, 0, []);
      (r.1.None? ==> r.0 == Iterate(f, x, cycles)) &&
      (r.1.Some? ==> r.0 == Iterate(f, x, r.1.value.0 + r.1.value.1 + 1) &&
                     hash(Iterate(f, x, r.1.value.0 + 1)) == hash(r.0))
  {
    DetectMeaning(f, hash, x, cycles, 0, []);
    assert Iterate(f, x, 0) == x;
  }

  /** Whatever the hashes do, the shortcut's result is the state after some number of steps. */
  lemma ShortcutIsIterate<T>(f: T -> T, hash: T -> nat, x: T, cycles: nat)
    ensures Shortcut(f, hash, x, cycles) == Iterate(f, x, ShortcutSteps(f, hash, x, cycles))
  {
    if cycles > 0 {
      DetectFromStart(f, hash, x, cycles);
      var d := Detect(f, hash, x, cycles, 0, []);
      if d.1.Some? {
        IterateAdd(f, x, d.1.value.0 + d.1.value.1 + 1, (cycles - d.1.value.0 - 1) % d.1.value.1);
      }
    }
  }

  /** The repeat the hashes report, if any, is a repeat of the state itself. */
  ghost predicate RepeatIsReal<T>(f: T -> T, hash: T -> nat, x: T, cycles: nat) {
    var d := Detect(f, hash, x, cycles, 0, []);
    cycles > 0 && d.1.Some? ==> Iterate(f, x, d.1.value.0 + 1) == Iterate(f, x, d.1.value.0 + d.1.value.1 + 1)
  }

  /** With a true repeat of length `len` after `start + 1` steps, the steps the shortcut takes land where `cycles` steps do. */
  lemma RepeatSteps<T>(f: T -> T, x: T, start: nat, len: nat, cycles: nat)
    requires len >= 1 && start + len < cycles
    requires Iterate(f, x, start + 1) == Iterate(f, x, start + len + 1)
    ensures Iterate(f, x, start + len + 1 + (cycles - start - 1) % len) == Iterate(f, x, cycles)
  {
    var n := cycles - start - 1;
    var missing := n % len;
    var m := n / len;
    assert n == m * len + missing;
    IteratePeriodic(f, x, start + 1, len, 1, missing);
    IteratePeriodic(f, x, start + 1, len, m, missing);
  }

  /** Provided a repeated hash means a repeated state, the shortcut's steps land where `cycles` steps do. */
  lemma StepsSound<T>(f: T -> T, hash: T -> nat, x: T, cycles: nat)
    requires RepeatIsReal(f, hash, x, cycles)
    ensures Iterate(f, x, ShortcutSteps(f, hash, x, cycles)) == Iterate(f, x, cycles)
  {
    var d := Detect(f, hash, x, cycles, 0, []);
    if cycles > 0 && d.1.Some? {
      RepeatSteps(f, x, d.1.value.0, d.1.value.1, cycles);
    }
  }

  /** The shortcut lands where `cycles` steps would, provided a repeated hash means a repeated state. */
  lemma ShortcutSound<T>(f: T -> T, hash: T -> nat, x: T, cycles: nat)
    requires RepeatIsReal(f, hash, x, cycles)
    ensures Shortcut(f, hash, x, cycles) == Iterate(f, x, cycles)
  {
    ShortcutIsIterate(f, hash, x, cycles);
    StepsSound(f, hash, x, cycles);
  }
}
