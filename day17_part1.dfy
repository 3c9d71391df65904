/**
 * Day 17, part 1: the search loop. A priority queue of hamsters, least heat first, is
 * popped until it is empty; each popped hamster reorients and its (up to three) copies
 * walk one block, and every copy that survives is pushed back. The answer is the trace
 * left on the bottom-right block.
 *
 * The queue is a sequence with extract-min; the loop carries a fuel bound, and the
 * termination theorem below says how much fuel suffices when no block has heat loss 0.
 */
module Day17Part1 {
  import opened Wrappers
  import opened Text
  import opened Grid
  import opened Day17Map
  import opened Day17Hamster
  import opened Day17Walks

  datatype Outcome = OutOfFuel | Finished(answer: Option<nat>)

  function Pow4(n: nat): (p: nat)
    ensures p >= 1
  {
    if n == 0 then 1 else 4 * Pow4(n - 1)
  }

  lemma {:induction false} Pow4Monotone(m: nat, n: nat)
    requires m <= n
    ensures Pow4(m) <= Pow4(n)
    decreases n
  {
    if m < n {
      Pow4Monotone(m, n - 1);
    }
  }

  /** A hamster's share of the termination measure: the less heat, the larger. */
  function Weight(h: QuantumHamster, bound: nat): nat {
    if h.heatTrace <= bound then Pow4(bound - h.heatTrace) else 0
  }

  /** The termination measure of the queue: the sum of its hamsters' weights. */
  function Potential(heap: seq<QuantumHamster>, bound: nat): nat {
    if heap == [] then 0 else Weight(heap[0], bound) + Potential(heap[1..], bound)
  }

  lemma {:induction false} PotentialConcat(a: seq<QuantumHamster>, b: seq<QuantumHamster>, bound: nat)
    ensures Potential(a + b, bound) == Potential(a, bound) + Potential(b, bound)
    decreases |a|
  {
    if a == [] {
      assert a + b == b;
    } else {
      assert (a + b)[1..] == a[1..] + b;
      PotentialConcat(a[1..], b, bound);
    }
  }

  /** Removing the hamster at `i` takes exactly its weight off the measure. */
  lemma PotentialRemove(heap: seq<QuantumHamster>, i: nat, bound: nat)
    requires i < |heap|
    ensures Potential(heap, bound) == Potential(heap[..i] + heap[i + 1..], bound) + Weight(heap[i], bound)
  {
    assert heap == heap[..i] + ([heap[i]] + heap[i + 1..]);
    PotentialConcat(heap[..i], [heap[i]] + heap[i + 1..], bound);
    PotentialConcat([heap[i]], heap[i + 1..], bound);
    PotentialConcat(heap[..i], heap[i + 1..], bound);
  }

  /** A non-empty queue of hamsters within the bound has a positive measure. */
  lemma PotentialOfNonEmpty(heap: seq<QuantumHamster>, bound: nat)
    requires heap != [] && heap[0].heatTrace <= bound
    ensures Potential(heap, bound) >= 1
  {
  }

  lemma {:induction false} PotentialAtMost(hs: seq<QuantumHamster>, bound: nat, w: nat)
    requires forall i :: 0 <= i < |hs| ==> Weight(hs[i], bound) <= w
    ensures Potential(hs, bound) <= |hs| * w
    decreases |hs|
  {
    if hs != [] {
      var rest := hs[1..];
      assert forall i :: 0 <= i < |rest| ==> rest[i] == hs[i + 1];
      PotentialAtMost(rest, bound, w);
      assert Weight(hs[0], bound) <= w;
      assert |hs| * w == w + |rest| * w;
    }
  }

  /**
   * At most three hamsters, each hotter than `popped` and within the bound, weigh less
   * together than `popped` alone.
   */
  lemma PushedWeighLess(pushed: seq<QuantumHamster>, popped: QuantumHamster, bound: nat)
    requires |pushed| <= 3 && popped.heatTrace <= bound
    requires forall i :: 0 <= i < |pushed| ==> popped.heatTrace < pushed[i].heatTrace <= bound
    ensures Potential(pushed, bound) < Weight(popped, bound)
  {
    if pushed != [] {
      assert popped.heatTrace < pushed[0].heatTrace <= bound;
      var k: nat := bound - popped.heatTrace - 1;
      assert Pow4(k + 1) == 4 * Pow4(k);
      forall i | 0 <= i < |pushed|
        ensures Weight(pushed[i], bound) <= Pow4(k)
      {
        Pow4Monotone(bound - pushed[i].heatTrace, k);
      }
      PotentialAtMost(pushed, bound, Pow4(k));
      var n := |pushed|;
      var p := Pow4(k);
      assert n * p <= 3 * p by {
        if n == 1 {
        } else if n == 2 {
          assert n * p == p + p;
        } else {
          assert n * p == p + p + p;
        }
      }
      assert Weight(popped, bound) == Pow4(k + 1);
    }
  }

  /** The surviving walker, if any, as a queue to push. */
  function Survivor(r: Option<QuantumHamster>): seq<QuantumHamster> {
    if r.Some? then [r.value] else []
  }

  /** The copies a popped hamster turns into, in the order the source walks them. */
  function Copies(h: QuantumHamster): (cs: seq<QuantumHamster>)
    ensures 2 <= |cs| <= 3
    ensures forall i :: 0 <= i < |cs| ==> cs[i].heatTrace == h.heatTrace && cs[i].numStraightWalks <= h.numStraightWalks
    ensures forall i :: 0 <= i < |cs| ==> cs[i].numStraightWalks < MaxStraightWalks
  {
    var r := Reorient(h);
    [r.0, r.1] + (if r.2.Some? then [r.2.value] else [])
  }

  /** Walks `walkers` one after the other on the evolving map; the survivors in order, and the final map. */
  function WalkAll(fields: seq<seq<Field>>, walkers: seq<QuantumHamster>): (r: (seq<QuantumHamster>, seq<seq<Field>>))
    ensures |r.0| <= |walkers|
    decreases |walkers|
  {
    if walkers == [] then ([], fields)
    else
      var w := WalkSpec(fields, walkers[0]);
      var rest := WalkAll(w.1, walkers[1..]);
      (Survivor(w.0) + rest.0, rest.1)
  }

  /**
   * One iteration of the loop body of `run` for the popped hamster `h`: the hamsters
   * pushed and the map after the walks, in the source's order (turned left, turned right,
   * straight on).
   */
  function Successors(fields: seq<seq<Field>>, h: QuantumHamster): (r: (seq<QuantumHamster>, seq<seq<Field>>))
    ensures |r.0| <= 3
  {
    WalkAll(fields, Copies(h))
  }

  /** The state the search keeps healthy: digit heat losses and traces bounded by the traced blocks. */
  predicate Healthy(fields: seq<seq<Field>>) {
    HeatsAtMostNine(fields) && TracesCoverOwnHeat(fields) && TracesAtMost(fields, 9 * TraceCount(fields))
  }

  /** A queued hamster: within the heat bound of the map and with at most three straight steps. */
  predicate Queued(s: QuantumHamster, fields: seq<seq<Field>>) {
    s.heatTrace <= 9 * TraceCount(fields) && s.numStraightWalks <= MaxStraightWalks
  }

  /** What a hamster pushed for the popped `h` satisfies. */
  predicate Pushed(s: QuantumHamster, h: QuantumHamster, fields: seq<seq<Field>>, positive: bool) {
    Queued(s, fields) && (positive ==> s.heatTrace > h.heatTrace)
  }

  /** What a single walk of a hamster within the bound preserves. */
  lemma WalkStep(fields: seq<seq<Field>>, h: QuantumHamster, popped: QuantumHamster, positive: bool)
    requires Healthy(fields)
    requires h.heatTrace <= 9 * TraceCount(fields) && h.numStraightWalks < MaxStraightWalks
    requires h.heatTrace == popped.heatTrace
    requires positive ==> AllPositive(fields)
    ensures SameTerrain(WalkSpec(fields, h).1, fields)
    ensures NoLargerTraces(WalkSpec(fields, h).1, fields)
    ensures Healthy(WalkSpec(fields, h).1)
    ensures TraceCount(fields) <= TraceCount(WalkSpec(fields, h).1)
    ensures positive ==> AllPositive(WalkSpec(fields, h).1)
    ensures WalkSpec(fields, h).0.Some? ==> Pushed(WalkSpec(fields, h).0.value, popped, WalkSpec(fields, h).1, positive)
  {
    WalkNeverRaisesTraces(fields, h);
    WalkKeepsHeatBound(fields, h);
  }

  /**
   * Walking a list of copies of the popped hamster keeps the map healthy, never raises a
   * trace, and yields only hamsters within the bound, with at most three straight steps
   * and, when no block has heat loss 0, strictly hotter than the popped one.
   */
  lemma {:induction false} WalkAllKeepsInvariants(fields: seq<seq<Field>>, walkers: seq<QuantumHamster>, popped: QuantumHamster, positive: bool)
    requires Healthy(fields)
    requires popped.heatTrace <= 9 * TraceCount(fields)
    requires forall i :: 0 <= i < |walkers| ==> walkers[i].heatTrace == popped.heatTrace && walkers[i].numStraightWalks < MaxStraightWalks
    requires positive ==> AllPositive(fields)
    ensures SameTerrain(WalkAll(fields, walkers).1, fields)
    ensures NoLargerTraces(WalkAll(fields, walkers).1, fields)
    ensures Healthy(WalkAll(fields, walkers).1)
    ensures TraceCount(fields) <= TraceCount(WalkAll(fields, walkers).1)
    ensures forall i :: 0 <= i < |WalkAll(fields, walkers).0| ==>
      Pushed(WalkAll(fields, walkers).0[i], popped, WalkAll(fields, walkers).1, positive)
    decreases |walkers|
  {
    if walkers != [] {
      var w := WalkSpec(fields, walkers[0]);
      WalkStep(fields, walkers[0], popped, positive);
      WalkAllKeepsInvariants(w.1, walkers[1..], popped, positive);
      var rest := WalkAll(w.1, walkers[1..]);
      SameTerrainTransitive(rest.1, w.1, fields);
      assert WalkAll(fields, walkers) == (Survivor(w.0) + rest.0, rest.1);
      var all := Survivor(w.0) + rest.0;
      forall i | 0 <= i < |all|
        ensures Pushed(all[i], popped, rest.1, positive)
      {
        if i < |Survivor(w.0)| {
          assert all[i] == w.0.value;
        } else {
          assert all[i] == rest.0[i - |Survivor(w.0)|];
        }
      }
    }
  }

  /** The loop body of `run` keeps the invariants of `WalkAllKeepsInvariants`. */
  lemma SuccessorsKeepInvariants(fields: seq<seq<Field>>, h: QuantumHamster, positive: bool)
    requires Healthy(fields)
    requires Queued(h, fields)
    requires positive ==> AllPositive(fields)
    ensures SameTerrain(Successors(fields, h).1, fields)
    ensures NoLargerTraces(Successors(fields, h).1, fields)
    ensures Healthy(Successors(fields, h).1)
    ensures TraceCount(fields) <= TraceCount(Successors(fields, h).1)
    ensures forall i :: 0 <= i < |Successors(fields, h).0| ==>
      Pushed(Successors(fields, h).0[i], h, Successors(fields, h).1, positive)
  {
    WalkAllKeepsInvariants(fields, Copies(h), h, positive);
  }

  /**
   * One iteration of the search loop, popping the hamster at `i`, keeps the loop
   * invariants; with no heat loss 0 it strictly lowers the termination measure.
   */
  lemma SearchStepKeepsInvariants(parsed: seq<seq<Field>>, before: seq<seq<Field>>, heap: seq<QuantumHamster>, i: nat)
    requires SameTerrain(before, parsed) && Healthy(before)
    requires i < |heap|
    requires forall j :: 0 <= j < |heap| ==> Queued(heap[j], before)
    ensures var (pushed, after) := Successors(before, heap[i]);
      var next := heap[..i] + heap[i + 1..] + pushed;
      SameTerrain(after, parsed) && Healthy(after) &&
      (forall j :: 0 <= j < |next| ==> Queued(next[j], after)) &&
      (AllPositive(parsed) ==> Potential(next, 9 * Size(parsed)) < Potential(heap, 9 * Size(parsed)))
  {
    var h := heap[i];
    var positive := AllPositive(parsed);
    if positive {
      forall y, x | 0 <= y < |before| && 0 <= x < |before[y]|
        ensures before[y][x].heatLoss >= 1
      {
        assert before[y][x].heatLoss == parsed[y][x].heatLoss;
      }
    }
    SuccessorsKeepInvariants(before, h, positive);
    var (pushed, after) := Successors(before, h);
    SameTerrainTransitive(after, before, parsed);
    var rest := heap[..i] + heap[i + 1..];
    var next := rest + pushed;
    forall j | 0 <= j < |next|
      ensures Queued(next[j], after)
    {
      if j < |rest| {
        if j < i {
          assert next[j] == heap[j];
        } else {
          assert next[j] == heap[j + 1];
        }
      } else {
        assert next[j] == pushed[j - |rest|];
      }
    }
    if positive {
      var bound := 9 * Size(parsed);
      SameTerrainSize(after, parsed);
      assert TraceCount(after) <= Size(after);
      PotentialRemove(heap, i, bound);
      PushedWeighLess(pushed, h, bound);
      PotentialConcat(rest, pushed, bound);
    }
  }

  /** Every hamster of `hs` stands at the end of a walk with its heat. */
  ghost predicate AllArrived(terrain: seq<seq<Field>>, hs: seq<QuantumHamster>) {
    forall i :: 0 <= i < |hs| ==> Arrived(terrain, hs[i])
  }

  /** Walking arrived hamsters one after the other keeps every trace the heat of a walk. */
  lemma {:induction false} WalkAllKeepsWitnesses(fields: seq<seq<Field>>, terrain: seq<seq<Field>>, walkers: seq<QuantumHamster>)
    requires SameTerrain(fields, terrain) && TracesWitnessed(fields, terrain) && AllArrived(terrain, walkers)
    ensures SameTerrain(WalkAll(fields, walkers).1, terrain)
    ensures TracesWitnessed(WalkAll(fields, walkers).1, terrain)
    ensures AllArrived(terrain, WalkAll(fields, walkers).0)
    decreases |walkers|
  {
    if walkers != [] {
      var h := walkers[0];
      assert Arrived(terrain, h);
      var w := WalkSpec(fields, h);
      WalkKeepsWitnesses(fields, terrain, h);
      assert AllArrived(terrain, walkers[1..]) by {
        assert forall i :: 0 <= i < |walkers| - 1 ==> walkers[1..][i] == walkers[i + 1];
      }
      WalkAllKeepsWitnesses(w.1, terrain, walkers[1..]);
      var rest := WalkAll(w.1, walkers[1..]);
      assert WalkAll(fields, walkers) == (Survivor(w.0) + rest.0, rest.1);
      SurvivorArrived(fields, terrain, h, rest.0);
    }
  }

  /** The survivor of an arrived hamster's walk, queued before arrived hamsters. */
  lemma SurvivorArrived(fields: seq<seq<Field>>, terrain: seq<seq<Field>>, h: QuantumHamster, rest: seq<QuantumHamster>)
    requires SameTerrain(fields, terrain) && Arrived(terrain, h) && AllArrived(terrain, rest)
    ensures AllArrived(terrain, Survivor(WalkSpec(fields, h).0) + rest)
  {
    var w := WalkSpec(fields, h).0;
    if w.Some? {
      WalkSurvivorArrived(fields, terrain, h, w.value);
      var all := [w.value] + rest;
      assert Survivor(w) + rest == all;
      forall i | 0 <= i < |all|
        ensures Arrived(terrain, all[i])
      {
        if i > 0 {
          assert all[i] == rest[i - 1];
        }
      }
    } else {
      assert Survivor(w) + rest == rest;
    }
  }

  /**
   * One iteration of the search loop keeps every trace the heat of a walk to its block and
   * every queued hamster at the end of a walk.
   */
  lemma SearchStepKeepsWitnesses(parsed: seq<seq<Field>>, before: seq<seq<Field>>, heap: seq<QuantumHamster>, i: nat)
    requires SameTerrain(before, parsed) && TracesWitnessed(before, parsed)
    requires i < |heap|
    requires AllArrived(parsed, heap)
    ensures var (pushed, after) := Successors(before, heap[i]);
      TracesWitnessed(after, parsed) && AllArrived(parsed, heap[..i] + heap[i + 1..] + pushed)
  {
    var h := heap[i];
    var cs := Copies(h);
    var r := Reorient(h);
    assert forall k :: 0 <= k < |cs| ==> cs[k].position == h.position && cs[k].heatTrace == h.heatTrace;
    assert AllArrived(parsed, cs) by {
      forall k | 0 <= k < |cs|
        ensures Arrived(parsed, cs[k])
      {
        assert Arrived(parsed, h);
      }
    }
    WalkAllKeepsWitnesses(before, parsed, cs);
    var (pushed, after) := Successors(before, h);
    var rest := heap[..i] + heap[i + 1..];
    var next := rest + pushed;
    forall j | 0 <= j < |next|
      ensures Arrived(parsed, next[j])
    {
      if j < |rest| {
        if j < i {
          assert next[j] == heap[j];
        } else {
          assert next[j] == heap[j + 1];
        }
      } else {
        assert next[j] == pushed[j - |rest|];
      }
    }
  }

  /** The loop body of `run` for the popped hamster `h`: walk its copies and collect the survivors. */
  method Expand(h: QuantumHamster, city: Map) returns (pushed: seq<QuantumHamster>)
    modifies city
    ensures (pushed, city.fields) == Successors(old(city.fields), h)
  {
    var (alive, dead, zombie) := Reorient(h);
    ghost var cs := Copies(h);
    ghost var f0 := city.fields;
    var walked := Walk(alive, city);
    var p0 := Survivor(walked);
    ghost var f1 := city.fields;
    walked := Walk(dead, city);
    var p1 := Survivor(walked);
    ghost var f2 := city.fields;
    pushed := p0 + p1;
    if zombie.Some? {
      walked := Walk(zombie.value, city);
      assert cs[2..] == [zombie.value];
      assert WalkAll(f2, cs[2..]) == (Survivor(walked) + [], city.fields);
      pushed := pushed + Survivor(walked);
    } else {
      assert cs[2..] == [];
      assert WalkAll(f2, cs[2..]) == ([], city.fields);
      assert pushed == pushed + [];
    }
    assert cs[1..][1..] == cs[2..];
    assert WalkAll(f1, cs[1..]) == (p1 + WalkAll(f2, cs[2..]).0, city.fields);
    assert WalkAll(f0, cs) == (p0 + WalkAll(f1, cs[1..]).0, city.fields);
    assert pushed == p0 + (p1 + WalkAll(f2, cs[2..]).0);
  }

  /** The position of the first hamster with the least heat: what `BinaryHeap::pop` yields. */
  function LeastIndex(heap: seq<QuantumHamster>): (i: nat)
    requires heap != []
    ensures i < |heap|
    decreases |heap|
  {
    if |heap| == 1 then 0
    else
      var k := LeastIndex(heap[..|heap| - 1]);
      if heap[|heap| - 1].heatTrace < heap[k].heatTrace then |heap| - 1 else k
  }

  /** `LeastIndex` is the first position of the least heat in the queue. */
  lemma {:induction false} LeastIndexIsLeast(heap: seq<QuantumHamster>)
    requires heap != []
    ensures var i := LeastIndex(heap);
      (forall j :: 0 <= j < |heap| ==> heap[i].heatTrace <= heap[j].heatTrace) &&
      (forall j :: 0 <= j < i ==> heap[i].heatTrace < heap[j].heatTrace)
    decreases |heap|
  {
    if |heap| > 1 {
      var init := heap[..|heap| - 1];
      LeastIndexIsLeast(init);
      assert forall j :: 0 <= j < |init| ==> init[j] == heap[j];
    }
  }

  /** The scan for the hamster to pop, proved to find `LeastIndex`. */
  method PeekLeastHeat(heap: seq<QuantumHamster>) returns (i: nat)
    requires heap != []
    ensures i == LeastIndex(heap)
  {
    i := 0;
    var k := 1;
    while k < |heap|
      invariant 0 < k <= |heap|
      invariant i == LeastIndex(heap[..k])
    {
      assert heap[..k + 1][..k] == heap[..k];
      if heap[k].heatTrace < heap[i].heatTrace {
        i := k;
      }
      k := k + 1;
    }
    assert heap[..k] == heap;
  }

  /** The block whose trace is the answer: `(width - 1, height - 1)`. */
  function Target(fields: seq<seq<Field>>): Option<Coords> {
    if |fields| == 0 || |fields[0]| == 0 then None
    else Some(Coords(|fields[0]| - 1, |fields| - 1))
  }

  /** The fuel that suffices for the search on `s` when no heat loss is 0. */
  function EnoughFuel(s: string): nat
    requires IsDigitGrid(s)
  {
    Pow4(9 * Size(ParseFields(s)))
  }

  /** The trace on block `(width - 1, height - 1)`, or None where the source panics. */
  function TargetTraceOf(fields: seq<seq<Field>>): Option<nat> {
    match Target(fields)
    case None => None
    case Some(t) => if InBounds(fields, t) then fields[t.y][t.x].smallestTrace else None
  }

  /**
   * The loop of `run` as a value, with at most `fuel` rounds: whether the queue ran empty,
   * and the map at the end. Each round pops the first hamster with the least heat and
   * queues its successors after the others.
   */
  function Search(fields: seq<seq<Field>>, heap: seq<QuantumHamster>, fuel: nat): (bool, seq<seq<Field>>)
    decreases fuel
  {
    if heap == [] then (true, fields)
    else if fuel == 0 then (false, fields)
    else
      var (next, after) := Round(fields, heap);
      Search(after, next, fuel - 1)
  }

  /** One round of the loop: pop the first hamster with the least heat and queue its successors after the others. */
  function Round(fields: seq<seq<Field>>, heap: seq<QuantumHamster>): (seq<QuantumHamster>, seq<seq<Field>>)
    requires heap != []
  {
    var i := LeastIndex(heap);
    var (pushed, after) := Successors(fields, heap[i]);
    (heap[..i] + heap[i + 1..] + pushed, after)
  }

  /** One round of `Search`: pop the first hamster with the least heat and queue its successors. */
  lemma SearchUnfold(fields: seq<seq<Field>>, heap: seq<QuantumHamster>, fuel: nat,
                     after: seq<seq<Field>>, next: seq<QuantumHamster>, fuelNext: nat)
    requires heap != [] && fuel > 0 && (next, after) == Round(fields, heap) && fuelNext == fuel - 1
    ensures Search(after, next, fuelNext) == Search(fields, heap, fuel)
  {
  }

  /** The block a walk of `h` enters and the heat it brings there (nothing off the map). */
  function Entry(fields: seq<seq<Field>>, h: QuantumHamster): seq<(Coords, nat)> {
    if InBounds(fields, h.position) then [(h.position, h.heatTrace + fields[h.position.y][h.position.x].heatLoss)]
    else []
  }

  /** The entries of walking `walkers` one after the other. */
  function Entries(fields: seq<seq<Field>>, walkers: seq<QuantumHamster>): seq<(Coords, nat)>
    decreases |walkers|
  {
    if walkers == [] then [] else Entry(fields, walkers[0]) + Entries(fields, walkers[1..])
  }

  /** Every block entry the search of `Search` makes, in order. */
  function SearchEntries(fields: seq<seq<Field>>, heap: seq<QuantumHamster>, fuel: nat): seq<(Coords, nat)>
    decreases fuel
  {
    if heap == [] || fuel == 0 then []
    else
      var i := LeastIndex(heap);
      var (pushed, after) := Successors(fields, heap[i]);
      Entries(fields, Copies(heap[i])) + SearchEntries(after, heap[..i] + heap[i + 1..] + pushed, fuel - 1)
  }

  /** Block `c` holds a trace of at most `heat`. */
  predicate Recorded(fields: seq<seq<Field>>, c: Coords, heat: nat) {
    InBounds(fields, c) && fields[c.y][c.x].smallestTrace.Some? && fields[c.y][c.x].smallestTrace.value <= heat
  }

  predicate AllRecorded(fields: seq<seq<Field>>, entries: seq<(Coords, nat)>) {
    forall k :: 0 <= k < |entries| ==> Recorded(fields, entries[k].0, entries[k].1)
  }

  /** Traces that never rise keep every entry recorded. */
  lemma RecordedStays(before: seq<seq<Field>>, after: seq<seq<Field>>, entries: seq<(Coords, nat)>)
    requires SameTerrain(after, before) && NoLargerTraces(after, before) && AllRecorded(before, entries)
    ensures AllRecorded(after, entries)
  {
    forall k | 0 <= k < |entries|
      ensures Recorded(after, entries[k].0, entries[k].1)
    {
      var c := entries[k].0;
      assert Recorded(before, c, entries[k].1);
    }
  }

  /**
   * After a walk the block it entered holds a trace of at most the heat brought there:
   * the hamster's own heat if the block took it, a smaller one if the block refused it.
   */
  lemma WalkRecords(fields: seq<seq<Field>>, h: QuantumHamster)
    ensures AllRecorded(WalkSpec(fields, h).1, Entry(fields, h))
  {
    if InBounds(fields, h.position) {
      var heat := h.heatTrace + fields[h.position.y][h.position.x].heatLoss;
      if AcceptsTrace(fields[h.position.y][h.position.x].smallestTrace, heat) {
        SetTraceNeverIncreases(fields, h.position, heat);
      }
      assert Recorded(WalkSpec(fields, h).1, h.position, heat);
    }
  }

  /** Walking `walkers` one after the other never raises a trace and records every entry. */
  lemma {:induction false} WalkAllRecords(fields: seq<seq<Field>>, walkers: seq<QuantumHamster>)
    requires TracesCoverOwnHeat(fields)
    ensures SameTerrain(WalkAll(fields, walkers).1, fields) && NoLargerTraces(WalkAll(fields, walkers).1, fields)
    ensures TracesCoverOwnHeat(WalkAll(fields, walkers).1)
    ensures AllRecorded(WalkAll(fields, walkers).1, Entries(fields, walkers))
    decreases |walkers|
  {
    if walkers != [] {
      var w := WalkSpec(fields, walkers[0]);
      WalkNeverRaisesTraces(fields, walkers[0]);
      WalkRecords(fields, walkers[0]);
      WalkAllRecords(w.1, walkers[1..]);
      var final := WalkAll(w.1, walkers[1..]).1;
      assert WalkAll(fields, walkers).1 == final;
      SameTerrainTransitive(final, w.1, fields);
      RecordedStays(w.1, final, Entry(fields, walkers[0]));
      EntriesSameTerrain(w.1, fields, walkers[1..]);
      var all := Entry(fields, walkers[0]) + Entries(fields, walkers[1..]);
      forall k | 0 <= k < |all|
        ensures Recorded(final, all[k].0, all[k].1)
      {
        if k >= |Entry(fields, walkers[0])| {
          assert all[k] == Entries(fields, walkers[1..])[k - |Entry(fields, walkers[0])|];
        }
      }
    }
  }

  /** The entries depend only on the terrain. */
  lemma {:induction false} EntriesSameTerrain(a: seq<seq<Field>>, b: seq<seq<Field>>, walkers: seq<QuantumHamster>)
    requires SameTerrain(a, b)
    ensures Entries(a, walkers) == Entries(b, walkers)
    decreases |walkers|
  {
    if walkers != [] {
      EntriesSameTerrain(a, b, walkers[1..]);
      var c := walkers[0].position;
      if InBounds(a, c) {
        assert a[c.y][c.x].heatLoss == b[c.y][c.x].heatLoss;
      }
    }
  }

  /**
   * Minimality of the recorded traces: at the end of the search, every block the search
   * walked a hamster onto holds a trace of at most the heat that hamster brought there.
   * In particular the answer is at most the heat of every hamster walked onto the target.
   */
  lemma {:induction false} SearchRecordsEntries(fields: seq<seq<Field>>, heap: seq<QuantumHamster>, fuel: nat)
    requires TracesCoverOwnHeat(fields)
    ensures SameTerrain(Search(fields, heap, fuel).1, fields) && NoLargerTraces(Search(fields, heap, fuel).1, fields)
    ensures TracesCoverOwnHeat(Search(fields, heap, fuel).1)
    ensures AllRecorded(Search(fields, heap, fuel).1, SearchEntries(fields, heap, fuel))
    decreases fuel
  {
    if heap != [] && fuel > 0 {
      var i := LeastIndex(heap);
      var (pushed, after) := Successors(fields, heap[i]);
      var next := heap[..i] + heap[i + 1..] + pushed;
      WalkAllRecords(fields, Copies(heap[i]));
      SearchRecordsEntries(after, next, fuel - 1);
      var final := Search(after, next, fuel - 1).1;
      SameTerrainTransitive(final, after, fields);
      RecordedStays(after, final, Entries(fields, Copies(heap[i])));
      var first := Entries(fields, Copies(heap[i]));
      var all := first + SearchEntries(after, next, fuel - 1);
      forall k | 0 <= k < |all|
        ensures Recorded(final, all[k].0, all[k].1)
      {
        if k >= |first| {
          assert all[k] == SearchEntries(after, next, fuel - 1)[k - |first|];
        }
      }
    }
  }

  /** The answer of a finished search is at most the heat of every hamster walked onto the target. */
  lemma SearchAnswerMinimal(fields: seq<seq<Field>>, heap: seq<QuantumHamster>, fuel: nat)
    requires TracesCoverOwnHeat(fields)
    ensures var entries := SearchEntries(fields, heap, fuel);
      forall k :: 0 <= k < |entries| && Some(entries[k].0) == Target(fields) ==>
        TargetTraceOf(Search(fields, heap, fuel).1).Some? &&
        TargetTraceOf(Search(fields, heap, fuel).1).value <= entries[k].1
  {
    SearchRecordsEntries(fields, heap, fuel);
    var final := Search(fields, heap, fuel).1;
    var entries := SearchEntries(fields, heap, fuel);
    forall k | 0 <= k < |entries| && Some(entries[k].0) == Target(fields)
      ensures TargetTraceOf(final).Some? && TargetTraceOf(final).value <= entries[k].1
    {
      assert Recorded(final, entries[k].0, entries[k].1);
      assert Target(final) == Target(fields);
    }
  }

  /**
   * The result extraction of `run`: the trace of block `(width - 1, height - 1)`, or None
   * where the source panics (an empty map or first row, no such block, or no trace on it).
   */
  method TargetTrace(city: Map, ghost parsed: seq<seq<Field>>) returns (answer: Option<nat>)
    requires SameTerrain(city.fields, parsed) && Healthy(city.fields) && TracesWitnessed(city.fields, parsed)
    ensures answer == TargetTraceOf(city.fields)
    ensures answer.Some? ==>
      Target(parsed).Some? && InBounds(parsed, Target(parsed).value) &&
      parsed[Target(parsed).value.y][Target(parsed).value.x].heatLoss <= answer.value <= 9 * Size(parsed) &&
      HeatOfWalkTo(parsed, Target(parsed).value, answer.value)
  {
    if city.Height() == 0 || city.Width() == 0 {
      return None;
    }
    var target := Coords(city.Width() - 1, city.Height() - 1);
    assert Target(parsed) == Some(target);
    var field := city.GetField(target);
    if field.None? || field.value.smallestTrace.None? {
      return None;
    }
    SameTerrainSize(city.fields, parsed);
    answer := field.value.smallestTrace;
  }

  /**
   * One round of `run`'s loop: expand the hamster with the least heat and replace it by
   * its successors; the queue's measure drops when every heat loss is positive.
   */
  method SearchRound(city: Map, ghost parsed: seq<seq<Field>>, heap: seq<QuantumHamster>, fuel: nat)
    returns (next: seq<QuantumHamster>, fuelNext: nat)
    requires heap != [] && fuel > 0 && SameTerrain(city.fields, parsed) && Healthy(city.fields)
    requires forall i :: 0 <= i < |heap| ==> Queued(heap[i], city.fields)
    requires TracesWitnessed(city.fields, parsed) && AllArrived(parsed, heap)
    modifies city
    ensures SameTerrain(city.fields, parsed) && Healthy(city.fields)
    ensures forall i :: 0 <= i < |next| ==> Queued(next[i], city.fields)
    ensures AllPositive(parsed) ==> Potential(next, 9 * Size(parsed)) < Potential(heap, 9 * Size(parsed))
    ensures TracesWitnessed(city.fields, parsed) && AllArrived(parsed, next)
    ensures fuelNext == fuel - 1
    ensures (next, city.fields) == Round(old(city.fields), heap)
  {
    ghost var before := city.fields;
    var i := PeekLeastHeat(heap);
    SearchStepKeepsInvariants(parsed, before, heap, i);
    SearchStepKeepsWitnesses(parsed, before, heap, i);
    var pushed := Expand(heap[i], city);
    next := heap[..i] + heap[i + 1..] + pushed;
    fuelNext := fuel - 1;
  }

  /**
   * The loop of `run`: pop and expand until the queue is empty or `fuel` rounds are done.
   * The rounds left and the queue at the end continue `Search` to the same outcome; the
   * invariants of the search hold throughout, and with no heat loss 0 the queue's measure
   * stays within the rounds left.
   */
  method SearchLoop(city: Map, ghost parsed: seq<seq<Field>>, heap: seq<QuantumHamster>, fuel: nat)
    returns (rest: seq<QuantumHamster>, fuelLeft: nat)
    requires SameTerrain(city.fields, parsed) && Healthy(city.fields)
    requires forall i :: 0 <= i < |heap| ==> Queued(heap[i], city.fields)
    requires TracesWitnessed(city.fields, parsed) && AllArrived(parsed, heap)
    modifies city
    ensures rest == [] || fuelLeft == 0
    ensures Search(city.fields, rest, fuelLeft) == Search(old(city.fields), heap, fuel)
    ensures SameTerrain(city.fields, parsed) && Healthy(city.fields) && TracesWitnessed(city.fields, parsed)
    ensures forall i :: 0 <= i < |rest| ==> Queued(rest[i], city.fields)
    ensures AllPositive(parsed) && Potential(heap, 9 * Size(parsed)) <= fuel ==>
      Potential(rest, 9 * Size(parsed)) <= fuelLeft
  {
    rest := heap;
    var left := fuel;
    while rest != [] && left > 0
      invariant SameTerrain(city.fields, parsed) && Healthy(city.fields)
      invariant forall i :: 0 <= i < |rest| ==> Queued(rest[i], city.fields)
      invariant TracesWitnessed(city.fields, parsed) && AllArrived(parsed, rest)
      invariant AllPositive(parsed) && Potential(heap, 9 * Size(parsed)) <= fuel ==>
        Potential(rest, 9 * Size(parsed)) <= left
      invariant Search(city.fields, rest, left) == Search(old(city.fields), heap, fuel)
      decreases left
    {
      ghost var (fields0, rest0, left0) := (city.fields, rest, left);
      rest, left := SearchRound(city, parsed, rest, left);
      SearchUnfold(fields0, rest0, left0, city.fields, rest, left);
    }
    fuelLeft := left;
  }

  /**
   * `run`, with at most `fuel` iterations of the search loop. The outcome and the final
   * map `final` are those of `Search` from the parsed map and the hamster at the top-left
   * block heading down; the answer is the trace `final` holds on the bottom-right block,
   * None exactly where that block or its trace is missing (where the source panics).
   * With no heat loss 0 and `EnoughFuel`, the queue always runs empty. The answer, when
   * there is one, is the heat lost along some walk from the top-left block to the
   * bottom-right one (the heat of every block entered, the first included), at least that
   * block's own heat loss and at most nine per block of the map; `SearchAnswerMinimal`
   * says it is at most the heat of every hamster the search walked onto that block.
   */
  method Run(input: string, fuel: nat) returns (r: Outcome, ghost final: seq<seq<Field>>)
    requires IsDigitGrid(input)
    ensures var (finished, after) := Search(ParseFields(input), [New(Coords(0, 0), Down)], fuel);
      r == (if finished then Finished(TargetTraceOf(after)) else OutOfFuel) && final == after
    ensures AllPositive(ParseFields(input)) && fuel >= EnoughFuel(input) ==> r.Finished?
    ensures r.Finished? && r.answer.Some? ==>
      var fields := ParseFields(input);
      Target(fields).Some? && InBounds(fields, Target(fields).value) &&
      fields[Target(fields).value.y][Target(fields).value.x].heatLoss <= r.answer.value <= 9 * Size(fields) &&
      HeatOfWalkTo(fields, Target(fields).value, r.answer.value)
  {
    var city := new Map.Parse(input);
    ghost var parsed := city.fields;
    ParsedMapIsFresh(input);
    ghost var bound := 9 * Size(parsed);

    ParsedTracesWitnessed(input);
    var heap := [New(Coords(0, 0), Down)];
    assert AllArrived(parsed, heap) by {
      assert Arrived(parsed, heap[0]);
    }
    assert Queued(heap[0], city.fields);
    assert Potential(heap, bound) == Pow4(bound) by {
      assert heap[1..] == [];
    }
    var fuelLeft;
    heap, fuelLeft := SearchLoop(city, parsed, heap, fuel);

    final := city.fields;
    SameTerrainSize(city.fields, parsed);
    if heap != [] {
      PotentialOfNonEmpty(heap, bound);
      return OutOfFuel, final;
    }

    var answer := TargetTrace(city, parsed);
    r := Finished(answer);
  }
}
