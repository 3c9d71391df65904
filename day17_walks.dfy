/**
 * Day 17: the walks behind the traces. Every trace the search leaves on a block is the heat
 * lost along some walk over the city that starts on the top-left block and ends on that
 * block, counting the heat of every block it enters, the first one included.
 */
module Day17Walks {
  import opened Wrappers
  import opened Text
  import opened Grid
  import opened Day17Map
  import opened Day17Hamster

  /** A walk over the city: from the top-left block, on the map, one block per step. */
  predicate IsWalk(terrain: seq<seq<Field>>, p: seq<Coords>) {
    |p| >= 1 && p[0] == Coords(0, 0) &&
    (forall i :: 0 <= i < |p| ==> InBounds(terrain, p[i])) &&
    (forall i :: 0 <= i < |p| - 1 ==> Distance(p[i], p[i + 1]) == 1)
  }

  /** The heat lost along the blocks of `p`. */
  function WalkHeat(terrain: seq<seq<Field>>, p: seq<Coords>): nat
    requires forall i :: 0 <= i < |p| ==> InBounds(terrain, p[i])
  {
    if p == [] then 0
    else
      var c := p[|p| - 1];
      assert InBounds(terrain, c);
      WalkHeat(terrain, p[..|p| - 1]) + terrain[c.y][c.x].heatLoss
  }

  /** Some walk ends on `c` having lost exactly `t`. */
  ghost predicate HeatOfWalkTo(terrain: seq<seq<Field>>, c: Coords, t: nat) {
    exists p :: IsWalk(terrain, p) && p[|p| - 1] == c && WalkHeat(terrain, p) == t
  }

  /** Every trace on the map is the heat of a walk to its block. */
  ghost predicate TracesWitnessed(fields: seq<seq<Field>>, terrain: seq<seq<Field>>) {
    forall y, x :: 0 <= y < |fields| && 0 <= x < |fields[y]| && fields[y][x].smallestTrace.Some? ==>
      HeatOfWalkTo(terrain, Coords(x, y), fields[y][x].smallestTrace.value)
  }

  /**
   * A hamster that is where a walk has taken it: either the first hamster, on the top-left
   * block with no heat, or one standing next to the end of a walk whose heat it carries.
   */
  ghost predicate Arrived(terrain: seq<seq<Field>>, h: QuantumHamster) {
    (h.position == Coords(0, 0) && h.heatTrace == 0) ||
    exists p :: IsWalk(terrain, p) && Distance(p[|p| - 1], h.position) == 1 && WalkHeat(terrain, p) == h.heatTrace
  }

  /** A freshly parsed map has no trace to account for. */
  lemma ParsedTracesWitnessed(s: string)
    requires IsDigitGrid(s)
    ensures TracesWitnessed(ParseFields(s), ParseFields(s))
  {
    var fields: seq<seq<Field>> := ParseFields(s);
    forall y: int, x: int | 0 <= y < |fields| && 0 <= x < |fields[y]|
      ensures fields[y][x].smallestTrace.None?
    {
      assert fields[y] == ParseRow(Lines(s)[y]);
    }
  }

  /** The walk `p` extended by the block `c` next to its end. */
  lemma ExtendWalk(terrain: seq<seq<Field>>, p: seq<Coords>, c: Coords)
    requires IsWalk(terrain, p) && Distance(p[|p| - 1], c) == 1 && InBounds(terrain, c)
    ensures IsWalk(terrain, p + [c])
    ensures WalkHeat(terrain, p + [c]) == WalkHeat(terrain, p) + terrain[c.y][c.x].heatLoss
  {
    assert (p + [c])[..|p|] == p;
  }

  /** The walk that is just the top-left block. */
  lemma StartWalk(terrain: seq<seq<Field>>)
    requires InBounds(terrain, Coords(0, 0))
    ensures IsWalk(terrain, [Coords(0, 0)])
    ensures WalkHeat(terrain, [Coords(0, 0)]) == terrain[0][0].heatLoss
  {
    assert [Coords(0, 0)][..0] == [];
  }

  /**
   * The hamster's heat after taking the heat of its block is the heat of a walk ending on
   * that block: the walk it arrived by, extended by the block.
   */
  lemma ArrivedOnBlock(terrain: seq<seq<Field>>, h: QuantumHamster)
    requires Arrived(terrain, h) && InBounds(terrain, h.position)
    ensures HeatOfWalkTo(terrain, h.position, h.heatTrace + terrain[h.position.y][h.position.x].heatLoss)
  {
    var c := h.position;
    if c == Coords(0, 0) && h.heatTrace == 0 {
      StartWalk(terrain);
      assert IsWalk(terrain, [c]) && [c][0] == c;
    } else {
      var p :| IsWalk(terrain, p) && Distance(p[|p| - 1], c) == 1 && WalkHeat(terrain, p) == h.heatTrace;
      ExtendWalk(terrain, p, c);
      assert (p + [c])[|p + [c]| - 1] == c;
    }
  }

  /** A walk to a block lets a hamster that steps off that block carry its heat. */
  lemma SteppedOff(terrain: seq<seq<Field>>, c: Coords, t: nat, h: QuantumHamster)
    requires HeatOfWalkTo(terrain, c, t) && h.heatTrace == t && Distance(c, h.position) == 1
    ensures Arrived(terrain, h)
  {
    var p :| IsWalk(terrain, p) && p[|p| - 1] == c && WalkHeat(terrain, p) == t;
  }

  /** Walks over one terrain are walks over any map with the same terrain. */
  lemma SameTerrainWalks(a: seq<seq<Field>>, b: seq<seq<Field>>, c: Coords, t: nat)
    requires SameTerrain(a, b) && HeatOfWalkTo(b, c, t)
    ensures HeatOfWalkTo(a, c, t)
  {
    var p :| IsWalk(b, p) && p[|p| - 1] == c && WalkHeat(b, p) == t;
    SameTerrainWalk(a, b, p);
  }

  lemma {:induction false} SameTerrainWalk(a: seq<seq<Field>>, b: seq<seq<Field>>, p: seq<Coords>)
    requires SameTerrain(a, b) && forall i :: 0 <= i < |p| ==> InBounds(b, p[i])
    ensures forall i :: 0 <= i < |p| ==> InBounds(a, p[i])
    ensures IsWalk(b, p) ==> IsWalk(a, p)
    ensures WalkHeat(a, p) == WalkHeat(b, p)
    decreases |p|
  {
    if p != [] {
      SameTerrainWalk(a, b, p[..|p| - 1]);
    }
  }

  /** Recording the heat of a walk to `c` as its trace keeps every trace accounted for. */
  lemma SetTraceKeepsWitnesses(fields: seq<seq<Field>>, terrain: seq<seq<Field>>, c: Coords, t: nat)
    requires TracesWitnessed(fields, terrain) && InBounds(fields, c) && HeatOfWalkTo(terrain, c, t)
    ensures TracesWitnessed(SetTrace(fields, c, t), terrain)
  {
    var after: seq<seq<Field>> := SetTrace(fields, c, t);
    forall y: int, x: int | 0 <= y < |after| && 0 <= x < |after[y]| && after[y][x].smallestTrace.Some?
      ensures HeatOfWalkTo(terrain, Coords(x, y), after[y][x].smallestTrace.value)
    {
      if (y, x) != (c.y, c.x) {
        assert after[y][x] == fields[y][x];
      }
    }
  }

  /** A walk of an arrived hamster keeps every trace accounted for. */
  lemma WalkKeepsWitnesses(fields: seq<seq<Field>>, terrain: seq<seq<Field>>, h: QuantumHamster)
    requires SameTerrain(fields, terrain) && TracesWitnessed(fields, terrain) && Arrived(terrain, h)
    ensures SameTerrain(WalkSpec(fields, h).1, terrain)
    ensures TracesWitnessed(WalkSpec(fields, h).1, terrain)
  {
    var c := h.position;
    var after := WalkSpec(fields, h).1;
    if InBounds(fields, c) {
      var heat := h.heatTrace + fields[c.y][c.x].heatLoss;
      if AcceptsTrace(fields[c.y][c.x].smallestTrace, heat) {
        assert after == SetTrace(fields, c, heat);
        assert InBounds(terrain, c) && terrain[c.y][c.x].heatLoss == fields[c.y][c.x].heatLoss;
        ArrivedOnBlock(terrain, h);
        SetTraceKeepsWitnesses(fields, terrain, c, heat);
        SetTraceNeverIncreases(fields, c, heat);
        SameTerrainTransitive(after, fields, terrain);
      } else {
        assert after == fields;
      }
    } else {
      assert after == fields;
    }
  }

  /** The hamster that survives a walk of an arrived hamster has arrived too, one block on. */
  lemma WalkSurvivorArrived(fields: seq<seq<Field>>, terrain: seq<seq<Field>>, h: QuantumHamster, g: QuantumHamster)
    requires SameTerrain(fields, terrain) && Arrived(terrain, h)
    requires WalkSpec(fields, h).0 == Some(g)
    ensures Arrived(terrain, g)
  {
    var c := h.position;
    var heat := h.heatTrace + fields[c.y][c.x].heatLoss;
    assert InBounds(terrain, c) && terrain[c.y][c.x].heatLoss == fields[c.y][c.x].heatLoss;
    ArrivedOnBlock(terrain, h);
    assert g.position == MoveIntoDirection(c, h.direction).value && g.heatTrace == heat;
    SteppedOff(terrain, c, heat, g);
  }
}
