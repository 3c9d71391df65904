/**
 * Day 8, part 2: every node whose id ends in 'A' starts a walk of its own, and all walks
 * take the same direction at each step. The answer is the first step after which every
 * walk stands on an id ending in 'Z'.
 *
 * As in part 1 the model walks at most `fuel` steps and reports `Panicked` where the
 * source panics.
 */
module Day8Part2 {
  import opened Wrappers
  import opened Text
  import opened Day8Part1

  /** The text of a line before its first " = ", or the whole line when it has none. */
  function IdPart(line: string): string {
    SplitStr(line, " = ")[0]
  }

  /** `Path::parse`: the first pieces of the lines that end in 'A', in input order. */
  function StartIds(lines: seq<string>): (ids: seq<NodeId>)
    ensures |ids| <= |lines|
  {
    if lines == [] then []
    else
      var rest := StartIds(lines[..|lines| - 1]);
      var id := IdPart(lines[|lines| - 1]);
      if IsStart(id) then rest + [id] else rest
  }

  /** The start ids are exactly the lines' first pieces that end in 'A'. */
  lemma {:induction false} StartIdsMeaning(lines: seq<string>)
    ensures forall id :: id in StartIds(lines) <==> IsStart(id) && exists i :: 0 <= i < |lines| && IdPart(lines[i]) == id
    decreases |lines|
  {
    if lines != [] {
      var init := lines[..|lines| - 1];
      StartIdsMeaning(init);
      forall id
        ensures id in StartIds(lines) <==> IsStart(id) && exists i :: 0 <= i < |lines| && IdPart(lines[i]) == id
      {
        if IsStart(id) && exists i :: 0 <= i < |lines| && IdPart(lines[i]) == id {
          var i :| 0 <= i < |lines| && IdPart(lines[i]) == id;
          if i < |init| {
            assert IdPart(init[i]) == id;
          }
        }
        if id in StartIds(init) {
          var i :| 0 <= i < |init| && IdPart(init[i]) == id;
          assert IdPart(lines[i]) == id;
        }
      }
    }
  }

  /** Every id is a node of the arena, so `NodeArena::get` does not panic. */
  predicate AllKnown(nodes: map<NodeId, Node>, ids: seq<NodeId>) {
    forall i :: 0 <= i < |ids| ==> ids[i] in nodes
  }

  /** Every walk one step on in direction `d`. */
  function Advanced(nodes: map<NodeId, Node>, ids: seq<NodeId>, d: Direction): (r: seq<NodeId>)
    requires AllKnown(nodes, ids)
    ensures |r| == |ids|
  {
    seq(|ids|, i requires 0 <= i < |ids| => WalkFurther(nodes[ids[i]], d))
  }

  /** Every walk stands on an end. */
  predicate AllEnd(ids: seq<NodeId>) {
    forall i :: 0 <= i < |ids| ==> IsEnd(ids[i])
  }

  /** The walks of `Path`: where they stand and how many steps they took. */
  class Path {
    var nodeIds: seq<NodeId>
    var numSteps: nat

    /** `Path::parse`: the start ids, no step taken yet. */
    constructor Parse(lines: seq<string>)
      ensures nodeIds == StartIds(lines) && numSteps == 0
    {
      nodeIds := StartIds(lines);
      numSteps := 0;
    }

    /**
     * `are_we_there_yet`: one more step; every walk moves on in direction `d`, and the
     * answer is whether all of them now stand on an end. An unknown id panics.
     */
    method AreWeThereYet(nodes: map<NodeId, Node>, d: Direction) returns (there: bool)
      requires AllKnown(nodes, nodeIds)
      modifies this
      ensures numSteps == old(numSteps) + 1
      ensures nodeIds == Advanced(nodes, old(nodeIds), d)
      ensures there <==> AllEnd(nodeIds)
    {
      numSteps := numSteps + 1;
      there := true;
      ghost var before := nodeIds;
      for i := 0 to |nodeIds|
        invariant |nodeIds| == |before|
        invariant forall k :: 0 <= k < i ==> nodeIds[k] == WalkFurther(nodes[before[k]], d)
        invariant forall k :: i <= k < |nodeIds| ==> nodeIds[k] == before[k]
        invariant there <==> forall k :: 0 <= k < i ==> IsEnd(nodeIds[k])
        invariant numSteps == old(numSteps) + 1
      {
        var node := nodes[nodeIds[i]];
        nodeIds := nodeIds[i := WalkFurther(node, d)];
        if !IsEnd(nodeIds[i]) {
          there := false;
        }
      }
      assert nodeIds == Advanced(nodes, before, d);
    }
  }

  /** Where the walks stand after `k` steps, or None when a step before panics. */
  function Positions(nodes: map<NodeId, Node>, data: string, starts: seq<NodeId>, k: nat): (r: Option<seq<NodeId>>)
    ensures r.Some? ==> |r.value| == |starts|
  {
    if k == 0 then Some(starts)
    else
      match Positions(nodes, data, starts, k - 1)
      case None => None
      case Some(ids) =>
        if data == [] || !IsDirectionChar(GuideChar(data, k - 1)) || !AllKnown(nodes, ids) then None
        else Some(Advanced(nodes, ids, DirectionFrom(GuideChar(data, k - 1))))
  }

  /** After every step from the first to the `k`-th some walk is off an end. */
  predicate NotYet(nodes: map<NodeId, Node>, data: string, starts: seq<NodeId>, k: nat) {
    forall j: nat :: 1 <= j <= k ==> Positions(nodes, data, starts, j).Some? && !AllEnd(Positions(nodes, data, starts, j).value)
  }

  /**
   * What an outcome says about the walks: `Arrived(s)` when step `s` is the first after
   * which all stand on an end (the source checks only after a step, so `s` is at least
   * one), `Panicked` when a step before that fails, `Unfinished` when `fuel` steps pass
   * without either.
   */
  predicate Reports(nodes: map<NodeId, Node>, data: string, starts: seq<NodeId>, fuel: nat, outcome: Outcome) {
    match outcome
    case Arrived(s) =>
      1 <= s <= fuel && NotYet(nodes, data, starts, s - 1) &&
      Positions(nodes, data, starts, s).Some? && AllEnd(Positions(nodes, data, starts, s).value)
    case Panicked =>
      exists j: nat :: j < fuel && NotYet(nodes, data, starts, j) && Positions(nodes, data, starts, j + 1).None?
    case Unfinished =>
      NotYet(nodes, data, starts, fuel)
  }

  /** One more step off an end extends the steps so far. */
  lemma NotYetExtend(nodes: map<NodeId, Node>, data: string, starts: seq<NodeId>, k: nat)
    requires NotYet(nodes, data, starts, k)
    requires Positions(nodes, data, starts, k + 1).Some? && !AllEnd(Positions(nodes, data, starts, k + 1).value)
    ensures NotYet(nodes, data, starts, k + 1)
  {
  }

  /**
   * One round of `run`'s loop: ask the guide, then move every walk; None where the source
   * panics. The walks stand where `Positions` says after one more step.
   */
  method Round(nodes: map<NodeId, Node>, guide: Guide, path: Path, ghost starts: seq<NodeId>) returns (there: Option<bool>)
    requires guide.Valid() && guide.calls == path.numSteps
    requires Positions(nodes, guide.data, starts, path.numSteps) == Some(path.nodeIds)
    modifies guide, path
    ensures there.None? ==> Positions(nodes, guide.data, starts, old(path.numSteps) + 1).None?
    ensures there.Some? ==> guide.Valid() && guide.calls == path.numSteps == old(path.numSteps) + 1
    ensures there.Some? ==> Positions(nodes, guide.data, starts, path.numSteps) == Some(path.nodeIds)
    ensures there.Some? ==> (there.value <==> AllEnd(path.nodeIds))
  {
    if guide.data == [] || !IsDirectionChar(guide.NextChar()) {
      return None;
    }
    var d := guide.WhereTo();
    if !AllKnown(nodes, path.nodeIds) {
      return None;
    }
    var arrived := path.AreWeThereYet(nodes, d);
    there := Some(arrived);
  }

  /** The loop of `run`: step until every walk stands on an end, at most `fuel` steps. */
  method Walk(nodes: map<NodeId, Node>, guide: Guide, path: Path, fuel: nat) returns (outcome: Outcome)
    requires guide.Valid() && guide.calls == 0 && path.numSteps == 0
    modifies guide, path
    ensures Reports(nodes, guide.data, old(path.nodeIds), fuel, outcome)
  {
    ghost var starts := path.nodeIds;
    ghost var data := guide.data;
    var arrived := false;
    while !arrived
      invariant guide.Valid() && guide.data == data && guide.calls == path.numSteps && path.numSteps <= fuel
      invariant Positions(nodes, data, starts, path.numSteps) == Some(path.nodeIds)
      invariant !arrived ==> NotYet(nodes, data, starts, path.numSteps)
      invariant arrived ==> path.numSteps >= 1 && NotYet(nodes, data, starts, path.numSteps - 1) && AllEnd(path.nodeIds)
      decreases fuel - path.numSteps, if arrived then 0 else 1
    {
      if path.numSteps == fuel {
        return Unfinished;
      }
      var k := path.numSteps;
      var there := Round(nodes, guide, path, starts);
      if there.None? {
        return Panicked;
      }
      arrived := there.value;
      if !arrived {
        NotYetExtend(nodes, data, starts, k);
      }
    }
    outcome := Arrived(path.numSteps);
  }

  /**
   * `run`: parse the arena, the guide and the start ids, then step until all walks stand
   * on an end; the answer is the number of steps.
   */
  method Run(input: string, fuel: nat) returns (outcome: Outcome)
    requires Lines(input) != []
    requires AllReadable(Entries(Lines(input))) && UniqueIds(Entries(Lines(input)))
    ensures Reports(ArenaOf(Entries(Lines(input))), Lines(input)[0], StartIds(Lines(input)), fuel, outcome)
  {
    var lines := Lines(input);
    var nodes := ParseArena(lines);
    var guide := new Guide.Parse(lines);
    var path := new Path.Parse(lines);
    outcome := Walk(nodes, guide, path, fuel);
  }

  /** The network of the `test_example` input of part 2. */
  function ExampleNetwork(): map<NodeId, Node> {
    map[
      "11A" := Node("11B", "XXX"), "11B" := Node("XXX", "11Z"), "11Z" := Node("11B", "XXX"),
      "22A" := Node("22B", "XXX"), "22B" := Node("22C", "22C"), "22C" := Node("22Z", "22Z"),
      "22Z" := Node("22B", "22B"), "XXX" := Node("XXX", "XXX")]
  }

  /** Both walks one step on, spelled out. */
  lemma AdvancedPair(nodes: map<NodeId, Node>, a: NodeId, b: NodeId, d: Direction)
    requires a in nodes && b in nodes
    ensures AllKnown(nodes, [a, b])
    ensures Advanced(nodes, [a, b], d) == [WalkFurther(nodes[a], d), WalkFurther(nodes[b], d)]
  {
  }

  /** The example's network and its start ids, as the walks see them. */
  predicate IsExample(net: map<NodeId, Node>, starts: seq<NodeId>) {
    net == ExampleNetwork() && starts == ["11A", "22A"]
  }

  lemma ExampleStep1(net: map<NodeId, Node>, starts: seq<NodeId>)
    requires IsExample(net, starts)
    ensures Positions(net, "LR", starts, 1) == Some(["11B", "22B"])
  {
    assert net["11A"] == Node("11B", "XXX") && net["22A"] == Node("22B", "XXX");
    assert GuideChar("LR", 0) == 'L';
    AdvancedPair(net, "11A", "22A", Left);
  }

  lemma ExampleStep2(net: map<NodeId, Node>, starts: seq<NodeId>)
    requires IsExample(net, starts)
    ensures Positions(net, "LR", starts, 2) == Some(["11Z", "22C"])
  {
    ExampleStep1(net, starts);
    assert net["11B"] == Node("XXX", "11Z") && net["22B"] == Node("22C", "22C");
    assert GuideChar("LR", 1) == 'R';
    AdvancedPair(net, "11B", "22B", Right);
  }

  lemma ExampleStep3(net: map<NodeId, Node>, starts: seq<NodeId>)
    requires IsExample(net, starts)
    ensures Positions(net, "LR", starts, 3) == Some(["11B", "22Z"])
  {
    ExampleStep2(net, starts);
    assert net["11Z"] == Node("11B", "XXX") && net["22C"] == Node("22Z", "22Z");
    assert GuideChar("LR", 2) == 'L';
    AdvancedPair(net, "11Z", "22C", Left);
  }

  lemma ExampleStep4(net: map<NodeId, Node>, starts: seq<NodeId>)
    requires IsExample(net, starts)
    ensures Positions(net, "LR", starts, 4) == Some(["11Z", "22B"])
  {
    ExampleStep3(net, starts);
    assert net["11B"] == Node("XXX", "11Z") && net["22Z"] == Node("22B", "22B");
    assert GuideChar("LR", 3) == 'R';
    AdvancedPair(net, "11B", "22Z", Right);
  }

  lemma ExampleStep5(net: map<NodeId, Node>, starts: seq<NodeId>)
    requires IsExample(net, starts)
    ensures Positions(net, "LR", starts, 5) == Some(["11B", "22C"])
  {
    ExampleStep4(net, starts);
    assert net["11Z"] == Node("11B", "XXX") && net["22B"] == Node("22C", "22C");
    assert GuideChar("LR", 4) == 'L';
    AdvancedPair(net, "11Z", "22B", Left);
  }

  lemma ExampleStep6(net: map<NodeId, Node>, starts: seq<NodeId>)
    requires IsExample(net, starts)
    ensures Positions(net, "LR", starts, 6) == Some(["11Z", "22Z"])
  {
    ExampleStep5(net, starts);
    assert net["11B"] == Node("XXX", "11Z") && net["22C"] == Node("22Z", "22Z");
    assert GuideChar("LR", 5) == 'R';
    AdvancedPair(net, "11B", "22C", Right);
  }

  lemma ExampleNotYet1(net: map<NodeId, Node>, starts: seq<NodeId>)
    requires IsExample(net, starts)
    ensures NotYet(net, "LR", starts, 1)
  {
    ExampleStep1(net, starts);
    IdEnds("11B");
    assert !IsEnd(Positions(net, "LR", starts, 1).value[0]);
    NotYetExtend(net, "LR", starts, 0);
  }

  lemma ExampleNotYet2(net: map<NodeId, Node>, starts: seq<NodeId>)
    requires IsExample(net, starts)
    ensures NotYet(net, "LR", starts, 2)
  {
    ExampleNotYet1(net, starts);
    ExampleStep2(net, starts);
    IdEnds("22C");
    assert !IsEnd(Positions(net, "LR", starts, 2).value[1]);
    NotYetExtend(net, "LR", starts, 1);
  }

  lemma ExampleNotYet3(net: map<NodeId, Node>, starts: seq<NodeId>)
    requires IsExample(net, starts)
    ensures NotYet(net, "LR", starts, 3)
  {
    ExampleNotYet2(net, starts);
    ExampleStep3(net, starts);
    IdEnds("11B");
    assert !IsEnd(Positions(net, "LR", starts, 3).value[0]);
    NotYetExtend(net, "LR", starts, 2);
  }

  lemma ExampleNotYet4(net: map<NodeId, Node>, starts: seq<NodeId>)
    requires IsExample(net, starts)
    ensures NotYet(net, "LR", starts, 4)
  {
    ExampleNotYet3(net, starts);
    ExampleStep4(net, starts);
    IdEnds("22B");
    assert !IsEnd(Positions(net, "LR", starts, 4).value[1]);
    NotYetExtend(net, "LR", starts, 3);
  }

  lemma ExampleNotYet5(net: map<NodeId, Node>, starts: seq<NodeId>)
    requires IsExample(net, starts)
    ensures NotYet(net, "LR", starts, 5)
  {
    ExampleNotYet4(net, starts);
    ExampleStep5(net, starts);
    IdEnds("11B");
    assert !IsEnd(Positions(net, "LR", starts, 5).value[0]);
    NotYetExtend(net, "LR", starts, 4);
  }

  /** `test_example`: with the guide "LR" the two walks from 11A and 22A first both end after 6 steps. */
  lemma ExampleArrival(net: map<NodeId, Node>, starts: seq<NodeId>)
    requires IsExample(net, starts)
    ensures Reports(net, "LR", starts, 6, Arrived(6))
  {
    ExampleNotYet5(net, starts);
    ExampleStep6(net, starts);
    IdEnds("11Z");
    IdEnds("22Z");
  }
}
