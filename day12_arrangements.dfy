/**
 * Day 12: what the puzzle counts. A row of springs is read as text ('.' working, '#'
 * broken, '?' unknown); an arrangement replaces every '?' by '.' or '#', and it is valid
 * when the runs of '#' have exactly the listed sizes, in order.
 */
module Day12Arrangements {
  import opened Wrappers
  import opened Text

  /** How many elements at the front of `s` equal `v`. */
  function RunOf(s: seq<bool>, v: bool): (n: nat)
    ensures n <= |s|
    ensures forall i :: 0 <= i < n ==> s[i] == v
    ensures n < |s| ==> s[n] != v
  {
    if s == [] || s[0] != v then 0 else 1 + RunOf(s[1..], v)
  }

  /** The sizes of the runs of broken springs (true) in a row, in order. */
  function Groups(c: seq<bool>): (g: seq<nat>)
    ensures forall i :: 0 <= i < |g| ==> g[i] >= 1
    decreases |c|
  {
    var z := RunOf(c, false);
    if z == |c| then []
    else
      var rest := c[z..];
      var o := RunOf(rest, true);
      [o] + Groups(rest[o..])
  }

  /** A row has no groups exactly when no spring in it is broken. */
  lemma GroupsEmpty(c: seq<bool>)
    ensures Groups(c) == [] <==> true !in c
  {
    var z := RunOf(c, false);
    if z < |c| {
      assert c[z];
    }
  }

  /** Working springs in front of a row do not change its groups. */
  lemma {:induction false} GroupsAfterWorking(c: seq<bool>)
    ensures Groups([false] + c) == Groups(c)
  {
    var d := [false] + c;
    var z := RunOf(c, false);
    assert RunOf(d, false) == z + 1 by {
      assert d[1..] == c;
    }
    assert d[z + 1..] == c[z..];
  }

  /** Which springs of a fully known row are broken. */
  function BrokenOf(s: string): (c: seq<bool>)
    ensures |c| == |s| && forall i :: 0 <= i < |s| ==> c[i] == (s[i] == '#')
  {
    seq(|s|, i requires 0 <= i < |s| => s[i] == '#')
  }

  /** The group sizes of a row written as text. */
  function GroupsOf(s: string): seq<nat> {
    Groups(BrokenOf(s))
  }

  /** `f` is an arrangement of `s`: '.' or '#' wherever `s` has '?', and the same symbol everywhere else. */
  predicate Completes(f: string, s: string) {
    |f| == |s| &&
    forall i :: 0 <= i < |s| ==> if s[i] == '?' then f[i] == '.' || f[i] == '#' else f[i] == s[i]
  }

  /**
   * The number of valid arrangements: decide the first '?' as '.' and as '#', and count
   * each fully decided row whose groups are `groups` once.
   */
  function Arrangements(s: string, groups: seq<nat>): nat
    decreases multiset(s)['?']
  {
    match IndexOf(s, '?')
    case None => if GroupsOf(s) == groups then 1 else 0
    case Some(i) =>
      assert multiset(s[i := '.'])['?'] < multiset(s)['?'];
      assert multiset(s[i := '#'])['?'] < multiset(s)['?'];
      Arrangements(s[i := '.'], groups) + Arrangements(s[i := '#'], groups)
  }

  /** A row with a positive count has a valid arrangement. */
  lemma {:induction false} ArrangementWitness(s: string, groups: seq<nat>) returns (f: string)
    requires Arrangements(s, groups) > 0
    ensures Completes(f, s) && GroupsOf(f) == groups
    decreases multiset(s)['?']
  {
    match IndexOf(s, '?')
    case None =>
      f := s;
    case Some(i) =>
      assert multiset(s[i := '.'])['?'] < multiset(s)['?'];
      assert multiset(s[i := '#'])['?'] < multiset(s)['?'];
      if Arrangements(s[i := '.'], groups) > 0 {
        f := ArrangementWitness(s[i := '.'], groups);
      } else {
        f := ArrangementWitness(s[i := '#'], groups);
      }
  }

  /** Every valid arrangement of a row is counted: the count is positive. */
  lemma {:induction false} ArrangementCounted(s: string, groups: seq<nat>, f: string)
    requires Completes(f, s) && GroupsOf(f) == groups
    ensures Arrangements(s, groups) > 0
    decreases multiset(s)['?']
  {
    match IndexOf(s, '?')
    case None =>
      assert f == s;
    case Some(i) =>
      var t := s[i := f[i]];
      assert multiset(t)['?'] < multiset(s)['?'];
      assert Completes(f, t);
      ArrangementCounted(t, groups, f);
  }

  /** A row without '?' has one arrangement, itself, which counts when its groups match. */
  lemma ArrangementsDecided(s: string, groups: seq<nat>)
    requires '?' !in s
    ensures Arrangements(s, groups) == if GroupsOf(s) == groups then 1 else 0
  {
  }
}
