/**
 * Day 12: `GroupSprings::validate`, which prunes the search. It checks the springs known
 * so far (those before the first unknown one) against the group sizes, run by run.
 */
module Day12Validate {
  import opened Text
  import opened Day12Springs
  import opened Day12Arrangements

  /** After the check loop has run out of springs: wrong only when nothing is left to decide but groups remain. */
  predicate AfterBreak(rest: seq<nat>, ignored: nat) {
    !(ignored == 0 && rest != [])
  }

  /**
   * The checker's loop, on the window of springs it still has to check and the groups it
   * still has to place; `ignored` springs follow the window undecided. For each group:
   * at least one working spring, then a run of broken springs of the group's size. A run
   * that disagrees is wrong unless it reaches the end of the window and the group could
   * still be completed among the ignored springs. Without groups, no broken spring may remain.
   */
  function CheckLoop(window: seq<bool>, groups: seq<nat>, ignored: nat): bool
    decreases |window|
  {
    if groups == [] then true !in window
    else
      var good := RunOf(window, false);
      if good == 0 then false
      else
        var rest := window[good..];
        var group := groups[0];
        var bad := RunOf(rest, true);
        if bad == group then
          if bad == |rest| then AfterBreak(groups[1..], ignored)
          else CheckLoop(rest[bad..], groups[1..], ignored)
        else if |rest| >= group then false
        else if group > |rest| + ignored then false
        else AfterBreak(groups[1..], ignored)
  }

  /**
   * On a fully decided row, preceded by a working spring, the loop accepts exactly the rows
   * whose groups are the given ones (group sizes of at least 1).
   */
  lemma {:induction false} CheckLoopExact(window: seq<bool>, groups: seq<nat>)
    requires |window| >= 1 && !window[0]
    requires forall i :: 0 <= i < |groups| ==> groups[i] >= 1
    ensures CheckLoop(window, groups, 0) <==> Groups(window) == groups
    decreases |window|
  {
    if groups == [] {
      GroupsEmpty(window);
    } else {
      var good := RunOf(window, false);
      var rest := window[good..];
      var bad := RunOf(rest, true);
      if good < |window| {
        assert Groups(window) == [bad] + Groups(rest[bad..]);
        if bad == groups[0] && bad < |rest| {
          CheckLoopExact(rest[bad..], groups[1..]);
          assert groups == [groups[0]] + groups[1..];
        } else if bad == groups[0] {
          assert rest[bad..] == [];
          assert Groups(rest[bad..]) == [];
          assert groups == [groups[0]] + groups[1..];
        }
      }
    }
  }

  /** A run at the front of a prefix is no longer than in the whole, and the same unless it reaches the prefix's end. */
  lemma PrefixRun(part: seq<bool>, whole: seq<bool>, v: bool)
    requires |part| <= |whole| && whole[..|part|] == part
    ensures RunOf(part, v) <= RunOf(whole, v)
    ensures RunOf(part, v) < |part| ==> RunOf(part, v) == RunOf(whole, v)
  {
    assert forall i :: 0 <= i < |part| ==> part[i] == whole[i];
  }

  /**
   * The loop never rejects the known part of a row that can still be completed to one with
   * the given groups: `window` is the start of `full`, followed by `ignored >= 1` springs.
   */
  lemma {:induction false} CheckLoopComplete(window: seq<bool>, full: seq<bool>, groups: seq<nat>, ignored: nat)
    requires |window| >= 1 && !window[0]
    requires ignored >= 1 && |full| == |window| + ignored && full[..|window|] == window
    requires Groups(full) == groups
    ensures CheckLoop(window, groups, ignored)
    decreases |window|
  {
    if groups == [] {
      GroupsEmpty(full);
      assert forall i :: 0 <= i < |window| ==> window[i] == full[i];
    } else {
      var good := RunOf(window, false);
      PrefixRun(window, full, false);
      var zf := RunOf(full, false);
      var o := RunOf(full[zf..], true);
      assert groups[0] == o && groups[1..] == Groups(full[zf..][o..]);
      if good < |window| {
        var rest := window[good..];
        var frest := full[good..];
        assert rest == frest[..|rest|];
        PrefixRun(rest, frest, true);
        var bad := RunOf(rest, true);
        if bad < |rest| {
          assert frest[bad..][..|rest[bad..]|] == rest[bad..];
          assert full[zf..][o..] == frest[bad..];
          CheckLoopComplete(rest[bad..], frest[bad..], groups[1..], ignored);
        }
      }
    }
  }

  /** How many springs are known before the first unknown one. */
  function KnownCount(bs: BitSprings): nat {
    Min(bs.numSprings, TrailingZeros(bs.unknownMask))
  }

  /** The window the checker starts from: a working spring, then the known springs. */
  function Known(bs: BitSprings): (w: seq<bool>)
    ensures |w| == KnownCount(bs) + 1 && !w[0]
  {
    var p := KnownCount(bs);
    [false] + seq(p, i requires 0 <= i < p => bs.brokenMask[i])
  }

  /** What `validate` answers, `Ok(())` as true. */
  function ValidateSpec(bs: BitSprings, groups: seq<nat>): bool {
    CheckLoop(Known(bs), groups, bs.numSprings - KnownCount(bs))
  }

  /** On a row without unknown springs, `validate` accepts exactly the rows whose groups are the listed ones. */
  lemma ValidateDecided(bs: BitSprings, groups: seq<nat>)
    requires WellFormed(bs) && IsZero(bs.unknownMask)
    requires forall i :: 0 <= i < |groups| ==> groups[i] >= 1
    ensures ValidateSpec(bs, groups) <==> GroupsOf(Show(bs)) == groups
  {
    var n := bs.numSprings;
    assert TrailingZeros(bs.unknownMask) == Width;
    assert KnownCount(bs) == n;
    var c := seq(n, i requires 0 <= i < n => bs.brokenMask[i]);
    assert BrokenOf(Show(bs)) == c;
    CheckLoopExact(Known(bs), groups);
    GroupsAfterWorking(c);
  }

  /** `validate` never rejects a row that still has a valid arrangement. */
  lemma ValidateKeeps(bs: BitSprings, groups: seq<nat>)
    requires WellFormed(bs) && Arrangements(Show(bs), groups) > 0
    requires forall i :: 0 <= i < |groups| ==> groups[i] >= 1
    ensures ValidateSpec(bs, groups)
  {
    var s := Show(bs);
    var f := ArrangementWitness(s, groups);
    if IsZero(bs.unknownMask) {
      assert f == s by {
        assert forall i :: 0 <= i < |s| ==> s[i] != '?';
      }
      ValidateDecided(bs, groups);
    } else {
      KnownPartAgrees(bs, f);
      GroupsAfterWorking(BrokenOf(f));
      CheckLoopComplete(Known(bs), [false] + BrokenOf(f), groups, bs.numSprings - KnownCount(bs));
    }
  }

  /** The known part of a row with unknown springs is the start of any of its arrangements. */
  lemma KnownPartAgrees(bs: BitSprings, f: string)
    requires WellFormed(bs) && !IsZero(bs.unknownMask) && Completes(f, Show(bs))
    ensures KnownCount(bs) < bs.numSprings
    ensures ([false] + BrokenOf(f))[..|Known(bs)|] == Known(bs)
  {
    var s := Show(bs);
    var p := KnownCount(bs);
    var tz := TrailingZeros(bs.unknownMask);
    assert tz < bs.numSprings;
    forall i | 0 <= i < p
      ensures bs.brokenMask[i] == BrokenOf(f)[i]
    {
      assert s[i] != '?';
    }
  }

  /** `validate`'s checker. */
  class Checker {
    var buf: Mask
    var numRemaining: nat
    var numIgnored: nat

    /** The buffer holds `window`: its springs in the low bits, broken as set bits, and clear bits above. */
    predicate Holds(window: seq<bool>)
      reads this
    {
      numRemaining == |window| && numRemaining < Width &&
      forall j :: 0 <= j < Width ==> buf[j] == (j < |window| && window[j])
    }

    /**
     * `Checker::new`: keep the known springs, add one working spring in front. A row of 127
     * or more springs can make later shifts reach the full width, which panics.
     */
    constructor (springs: BitSprings)
      requires WellFormed(springs) && springs.numSprings <= Width - 2
      ensures Holds(Known(springs))
      ensures numIgnored == springs.numSprings - KnownCount(springs)
    {
      var remaining := Min(springs.numSprings, TrailingZeros(springs.unknownMask));
      var numMissing := springs.numSprings - remaining;
      var knownMask := LowMask(remaining);
      var b := And(springs.brokenMask, knownMask);
      b := Shl(b, 1);
      remaining := remaining + 1;
      buf := b;
      numRemaining := remaining;
      numIgnored := numMissing;
    }

    /** `shift_out`: drop `num` springs from the front of the window. */
    method ShiftOut(num: nat, ghost window: seq<bool>)
      requires Holds(window) && num <= numRemaining
      modifies this
      ensures Holds(window[num..]) && numIgnored == old(numIgnored)
    {
      numRemaining := numRemaining - num;
      buf := Shr(buf, num);
    }

    /** `check_good_before_group`: at least one working spring, all of them shifted out. */
    method CheckGoodBeforeGroup(ghost window: seq<bool>) returns (ok: bool)
      requires Holds(window)
      modifies this
      ensures numIgnored == old(numIgnored)
      ensures ok == (RunOf(window, false) != 0)
      ensures ok ==> Holds(window[RunOf(window, false)..])
    {
      var numGoodSprings := Min(numRemaining, TrailingZeros(buf));
      assert numGoodSprings == RunOf(window, false) by {
        var r := RunOf(window, false);
        if r < |window| {
          assert buf[r];
        }
      }
      if numGoodSprings == 0 {
        return false;
      }
      ShiftOut(numGoodSprings, window);
      return true;
    }

    /** `check_only_good_remaining`: the buffer is zero. */
    predicate CheckOnlyGoodRemaining()
      reads this
    {
      IsZero(buf)
    }

    /**
     * `check_group`: a run of exactly `group` broken springs is shifted out; any other run
     * is wrong, unless the group does not fit the window but could still end among the
     * ignored springs, in which case nothing remains to check.
     */
    method CheckGroup(group: nat, ghost window: seq<bool>) returns (ok: bool)
      requires Holds(window)
      modifies this
      ensures numIgnored == old(numIgnored)
      ensures var bad := RunOf(window, true);
        ok == (bad == group || (|window| < group && group <= |window| + numIgnored))
      ensures RunOf(window, true) == group ==> Holds(window[group..])
      ensures ok && RunOf(window, true) != group ==> numRemaining == 0
    {
      var numBadSprings := TrailingOnes(buf);
      assert numBadSprings == RunOf(window, true) by {
        assert !buf[|window|];
      }
      if numBadSprings == group {
        ShiftOut(numBadSprings, window);
        return true;
      }
      if numRemaining >= group {
        return false;
      }
      if group > numRemaining + numIgnored {
        return false;
      }
      numRemaining := 0;
      return true;
    }

    predicate NoneRemaining()
      reads this
    {
      numRemaining == 0
    }

    predicate NoneIgnored()
      reads this
    {
      numIgnored == 0
    }
  }

  /**
   * `GroupSprings::validate`. The check for an empty starting window is left out: the
   * checker always starts with one working spring in front.
   */
  method Validate(g: GroupSprings, springs: BitSprings) returns (ok: bool)
    requires WellFormed(springs) && springs.numSprings <= Width - 2
    ensures ok == ValidateSpec(springs, g.groups)
  {
    var groups := g.groups;
    var checker := new Checker(springs);
    ghost var window := Known(springs);
    ghost var ignored := checker.numIgnored;
    var i := 0;
    while true
      invariant 0 <= i <= |groups|
      invariant checker.Holds(window) && |window| >= 1
      invariant checker.numIgnored == ignored
      invariant CheckLoop(window, groups[i..], ignored) == ValidateSpec(springs, groups)
      decreases |groups| - i
    {
      if i == |groups| {
        ok := checker.CheckOnlyGoodRemaining();
        assert ok <==> true !in window by {
          assert forall j :: 0 <= j < |window| ==> checker.buf[j] == window[j];
        }
        return;
      }
      var group := groups[i];
      assert groups[i..][1..] == groups[i + 1..];
      i := i + 1;
      ok := checker.CheckGoodBeforeGroup(window);
      if !ok {
        return;
      }
      window := window[RunOf(window, false)..];
      ghost var bad := RunOf(window, true);
      ok := checker.CheckGroup(group, window);
      if !ok {
        return;
      }
      if checker.NoneRemaining() {
        break;
      }
      window := window[bad..];
    }
    if checker.NoneIgnored() {
      if i < |groups| {
        return false;
      }
    }
    return true;
  }
}
