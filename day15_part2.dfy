/**
 * Day 15, part 2: the HASHMAP procedure. 256 boxes each hold an insertion-ordered map
 * from labels to lenses. A step `label-` removes the label from its box; a step
 * `label=d` puts a lens of focal length d under the label, in place when the label is
 * already there and at the end otherwise. The answer adds up the focusing powers.
 */
module Day15Part2 {
  import opened Wrappers
  import opened Text
  import opened Day15Part1

  const BoxCount: nat := 256

  datatype Lens = Lens(focalLength: nat)

  /** One entry of a box's insertion-ordered map: a label (`name`, since `label` is a Dafny keyword) and its lens. */
  datatype Slot = Slot(name: string, lens: Lens)

  /** A map never holds a label twice. */
  predicate UniqueLabels(slots: seq<Slot>) {
    forall i, j :: 0 <= i < j < |slots| ==> slots[i].name != slots[j].name
  }

  /** The position of `name` in the box, if it is there. */
  function IndexOfLabel(slots: seq<Slot>, name: string): (r: Option<nat>)
    ensures r.Some? ==> r.value < |slots| && slots[r.value].name == name
    ensures r.Some? ==> forall k :: 0 <= k < r.value ==> slots[k].name != name
    ensures r.None? ==> forall k :: 0 <= k < |slots| ==> slots[k].name != name
  {
    if slots == [] then None
    else if slots[0].name == name then Some(0)
    else match IndexOfLabel(slots[1..], name)
      case None => None
      case Some(i) => Some(i + 1)
  }

  /** The lens stored under `name`, as the map's `get` returns it. */
  function Lookup(slots: seq<Slot>, name: string): Option<Lens> {
    match IndexOfLabel(slots, name)
    case None => None
    case Some(i) => Some(slots[i].lens)
  }

  /** The box without any entry for `name`, the others in their order. */
  function Removed(slots: seq<Slot>, name: string): seq<Slot> {
    if slots == [] then []
    else if slots[0].name == name then Removed(slots[1..], name)
    else [slots[0]] + Removed(slots[1..], name)
  }

  /** The box with a lens of `focalLength` under `name`: replaced where the label is, else appended. */
  function Added(slots: seq<Slot>, name: string, focalLength: nat): seq<Slot> {
    if slots == [] then [Slot(name, Lens(focalLength))]
    else if slots[0].name == name then [Slot(name, Lens(focalLength))] + slots[1..]
    else [slots[0]] + Added(slots[1..], name, focalLength)
  }

  /** Removing a label that is not there changes nothing. */
  lemma {:induction false} RemovedAbsent(slots: seq<Slot>, name: string)
    requires forall k :: 0 <= k < |slots| ==> slots[k].name != name
    ensures Removed(slots, name) == slots
    decreases |slots|
  {
    if slots != [] {
      RemovedAbsent(slots[1..], name);
      assert [slots[0]] + slots[1..] == slots;
    }
  }

  /** In a map, removing the label held in slot `i` cuts out exactly that slot. */
  lemma {:induction false} RemovedCut(slots: seq<Slot>, name: string, i: nat)
    requires UniqueLabels(slots) && i < |slots| && slots[i].name == name
    ensures Removed(slots, name) == slots[..i] + slots[i + 1..]
    decreases i
  {
    var rest := slots[1..];
    assert UniqueLabels(rest) by {
      forall a, b | 0 <= a < b < |rest| ensures rest[a].name != rest[b].name {
        assert rest[a] == slots[a + 1] && rest[b] == slots[b + 1];
      }
    }
    if i == 0 {
      forall k | 0 <= k < |rest| ensures rest[k].name != name {
        assert rest[k] == slots[k + 1];
      }
      RemovedAbsent(rest, name);
    } else {
      assert slots[0].name != name;
      assert rest[i - 1] == slots[i];
      RemovedCut(rest, name, i - 1);
      assert [slots[0]] + (rest[..i - 1] + rest[i..]) == slots[..i] + slots[i + 1..];
    }
  }

  /** In a map, removing a label cuts out exactly its one entry, or changes nothing if it is absent. */
  lemma RemovedAt(slots: seq<Slot>, name: string)
    requires UniqueLabels(slots)
    ensures IndexOfLabel(slots, name).None? ==> Removed(slots, name) == slots
    ensures IndexOfLabel(slots, name).Some? ==>
      var i := IndexOfLabel(slots, name).value;
      Removed(slots, name) == slots[..i] + slots[i + 1..]
  {
    match IndexOfLabel(slots, name)
    case None => RemovedAbsent(slots, name);
    case Some(i) => RemovedCut(slots, name, i);
  }

  /** Adding replaces the entry at the label's position, or appends a new last entry. */
  lemma {:induction false} AddedAt(slots: seq<Slot>, name: string, focalLength: nat)
    ensures IndexOfLabel(slots, name).None? ==>
      Added(slots, name, focalLength) == slots + [Slot(name, Lens(focalLength))]
    ensures IndexOfLabel(slots, name).Some? ==>
      var i := IndexOfLabel(slots, name).value;
      Added(slots, name, focalLength) == slots[i := Slot(name, Lens(focalLength))]
    decreases |slots|
  {
    if slots != [] {
      var rest := slots[1..];
      AddedAt(rest, name, focalLength);
      if slots[0].name != name {
        match IndexOfLabel(rest, name)
        case None =>
          assert [slots[0]] + (rest + [Slot(name, Lens(focalLength))])
            == slots + [Slot(name, Lens(focalLength))];
        case Some(i) =>
          assert [slots[0]] + rest[i := Slot(name, Lens(focalLength))]
            == slots[i + 1 := Slot(name, Lens(focalLength))];
      }
    }
  }

  /** Removing a label leaves it absent and every other label's lens as it was. */
  lemma {:induction false} RemovedLookup(slots: seq<Slot>, name: string, other: string)
    ensures Lookup(Removed(slots, name), name) == None
    ensures other != name ==> Lookup(Removed(slots, name), other) == Lookup(slots, other)
    decreases |slots|
  {
    if slots != [] {
      RemovedLookup(slots[1..], name, other);
      var r := Removed(slots, name);
      if slots[0].name != name {
        assert r[1..] == Removed(slots[1..], name);
      }
    }
  }

  /** Adding a label stores the new lens under it and leaves every other label's lens as it was. */
  lemma {:induction false} AddedLookup(slots: seq<Slot>, name: string, focalLength: nat, other: string)
    ensures Lookup(Added(slots, name, focalLength), name) == Some(Lens(focalLength))
    ensures other != name ==>
      Lookup(Added(slots, name, focalLength), other) == Lookup(slots, other)
    decreases |slots|
  {
    if slots != [] {
      AddedLookup(slots[1..], name, focalLength, other);
      var r := Added(slots, name, focalLength);
      if slots[0].name == name {
        assert r[1..] == slots[1..];
      } else {
        assert r[1..] == Added(slots[1..], name, focalLength);
      }
    }
  }

  /** Removing keeps a box a map: labels stay unique. */
  lemma RemovedKeepsUnique(slots: seq<Slot>, name: string)
    requires UniqueLabels(slots)
    ensures UniqueLabels(Removed(slots, name))
  {
    RemovedAt(slots, name);
    if IndexOfLabel(slots, name).Some? {
      var i := IndexOfLabel(slots, name).value;
      var r := Removed(slots, name);
      forall a, b | 0 <= a < b < |r| ensures r[a].name != r[b].name {
        var a' := if a < i then a else a + 1;
        var b' := if b < i then b else b + 1;
        assert r[a] == slots[a'] && r[b] == slots[b'];
      }
    }
  }

  /** Adding keeps a box a map: labels stay unique. */
  lemma AddedKeepsUnique(slots: seq<Slot>, name: string, focalLength: nat)
    requires UniqueLabels(slots)
    ensures UniqueLabels(Added(slots, name, focalLength))
  {
    AddedAt(slots, name, focalLength);
    var r := Added(slots, name, focalLength);
    assert |r| >= |slots|;
    assert forall k :: 0 <= k < |slots| ==> r[k].name == slots[k].name;
  }

  /** Removing after adding is the same as removing alone: the added lens does not survive. */
  lemma {:induction false} RemovedAfterAdded(slots: seq<Slot>, name: string, focalLength: nat)
    ensures Removed(Added(slots, name, focalLength), name) == Removed(slots, name)
    decreases |slots|
  {
    if slots != [] {
      RemovedAfterAdded(slots[1..], name, focalLength);
      if slots[0].name == name {
        assert Added(slots, name, focalLength)[1..] == slots[1..];
      } else {
        assert Added(slots, name, focalLength)[1..] == Added(slots[1..], name, focalLength);
      }
    }
  }

  /** The sum of each lens's focal length times its one-based slot number. */
  function LensSum(slots: seq<Slot>): nat {
    if slots == [] then 0
    else LensSum(slots[..|slots| - 1]) + |slots| * slots[|slots| - 1].lens.focalLength
  }

  /** `focusing_power`: the box number plus one, times the lens sum. */
  function FocusingPower(boxId: nat, slots: seq<Slot>): nat {
    (boxId + 1) * LensSum(slots)
  }

  /** Replacing the lens in slot `i` changes the lens sum by (i + 1) times the change of focal length. */
  lemma {:induction false} LensSumReplace(slots: seq<Slot>, i: nat, name: string, focalLength: nat)
    requires i < |slots|
    ensures LensSum(slots[i := Slot(name, Lens(focalLength))]) + (i + 1) * slots[i].lens.focalLength
      == LensSum(slots) + (i + 1) * focalLength
    decreases |slots|
  {
    var r := slots[i := Slot(name, Lens(focalLength))];
    var n := |slots|;
    if i < n - 1 {
      assert r[..n - 1] == slots[..n - 1][i := Slot(name, Lens(focalLength))];
      LensSumReplace(slots[..n - 1], i, name, focalLength);
    } else {
      assert r[..n - 1] == slots[..n - 1];
    }
  }

  /** A lens appended as the `n`-th entry adds n times its focal length. */
  lemma LensSumAppend(slots: seq<Slot>, slot: Slot)
    ensures LensSum(slots + [slot]) == LensSum(slots) + (|slots| + 1) * slot.lens.focalLength
  {
    assert (slots + [slot])[..|slots|] == slots;
  }

  /** A box of the hash map: its insertion-ordered map from labels to lenses. */
  class LensBox {
    var lenses: seq<Slot>

    ghost predicate Valid()
      reads this
    {
      UniqueLabels(lenses)
    }

    constructor ()
      ensures lenses == [] && Valid()
    {
      lenses := [];
    }

    /** `remove_lens`: drops the label's entry, if any. */
    method RemoveLens(name: string)
      requires Valid()
      modifies this
      ensures Valid()
      ensures lenses == Removed(old(lenses), name)
    {
      RemovedAt(lenses, name);
      RemovedKeepsUnique(lenses, name);
      match IndexOfLabel(lenses, name)
      case None =>
      case Some(i) =>
        lenses := lenses[..i] + lenses[i + 1..];
    }

    /** `add_lens`: replaces the lens under an existing label in place, else appends a new entry. */
    method AddLens(name: string, focalLength: nat)
      requires Valid()
      modifies this
      ensures Valid()
      ensures lenses == Added(old(lenses), name, focalLength)
    {
      AddedAt(lenses, name, focalLength);
      AddedKeepsUnique(lenses, name, focalLength);
      var lens := Lens(focalLength);
      match IndexOfLabel(lenses, name)
      case Some(i) =>
        lenses := lenses[i := Slot(lenses[i].name, lens)];
      case None =>
        lenses := lenses + [Slot(name, lens)];
    }
  }

  datatype Operation = RemoveLens | NewLens(focalLength: nat)

  /** `Operation::parse`: the last char decides; None where the source panics. */
  function ParseOperation(s: string): (r: Option<Operation>)
    ensures r.Some? && r.value.NewLens? ==> 1 <= r.value.focalLength <= 9
  {
    if s == [] then None
    else
      var last := s[|s| - 1];
      if last == '-' then Some(RemoveLens)
      else if '1' <= last <= '9' then Some(NewLens(DigitValue(last)))
      else None
  }

  /** An operation `Operation::parse` can produce. */
  predicate WellFormed(op: Operation) {
    op.NewLens? ==> 1 <= op.focalLength <= 9
  }

  /** How many trailing chars the operation takes up: `-`, or `=` and a digit. */
  function SuffixLength(op: Operation): nat {
    if op.RemoveLens? then 1 else 2
  }

  /** The text of an operation after its label. */
  function ShowOperation(op: Operation): (r: string)
    requires WellFormed(op)
    ensures |r| == SuffixLength(op)
  {
    match op
    case RemoveLens => "-"
    case NewLens(f) => ['=', (f + '0' as int) as char]
  }

  /** `remove_newline`: drops one trailing newline. */
  function RemoveNewline(s: string): (r: string)
    ensures r == s || s == r + ['\n']
  {
    if s != [] && s[|s| - 1] == '\n' then s[..|s| - 1] else s
  }

  /** Dropping the newline never changes the hash, since the hasher skips newlines. */
  lemma RemoveNewlineKeepsHash(s: string)
    ensures HashOf(RemoveNewline(s)) == HashOf(s)
  {
    var r := RemoveNewline(s);
    if r != s {
      assert s[..|s| - 1] == r;
    }
  }

  /** `parse_label`: the step without its operation's chars; None where the length would underflow. */
  function ParseLabel(s: string, op: Operation): (r: Option<string>)
    ensures r.Some? ==> |r.value| + SuffixLength(op) == |s| && r.value <= s
  {
    if |s| < SuffixLength(op) then None else Some(s[..|s| - SuffixLength(op)])
  }

  datatype Instruction = Instruction(boxId: nat, name: string, operation: Operation)

  /** The label and operation of a step, read off after its trailing newline is dropped. */
  function ParseStep(s: string): Option<(string, Operation)> {
    var t := RemoveNewline(s);
    match ParseOperation(t)
    case None => None
    case Some(op) =>
      match ParseLabel(t, op)
      case None => None
      case Some(name) => Some((name, op))
  }

  /** `Instruction::parse` as written: the box is the hash of the whole step, not of its label. */
  function ParseInstructionAsWritten(s: string): (r: Option<Instruction>)
    ensures r.Some? ==> r.value.boxId < BoxCount
  {
    match ParseStep(s)
    case None => None
    case Some((name, op)) =>
      HashBelow256(RemoveNewline(s));
      Some(Instruction(HashOf(RemoveNewline(s)), name, op))
  }

  /** `Instruction::parse` with the box chosen by the hash of the label. */
  function ParseInstruction(s: string): (r: Option<Instruction>)
    ensures r.Some? ==> r.value.boxId < BoxCount
  {
    match ParseStep(s)
    case None => None
    case Some((name, op)) =>
      HashBelow256(name);
      Some(Instruction(HashOf(name), name, op))
  }

  /** A parsed step is its label followed by the operation's chars, up to one trailing newline. */
  lemma ParseInstructionMeaning(s: string)
    ensures ParseInstruction(s).Some? <==> (ParseOperation(RemoveNewline(s)).Some? &&
      |RemoveNewline(s)| >= SuffixLength(ParseOperation(RemoveNewline(s)).value))
    ensures ParseInstruction(s).Some? ==>
      var ins := ParseInstruction(s).value;
      var t := RemoveNewline(s);
      ins.boxId == HashOf(ins.name) &&
      ParseOperation(t) == Some(ins.operation) && WellFormed(ins.operation) &&
      ins.name <= t && |t| == |ins.name| + SuffixLength(ins.operation)
  {
  }

  /** A written step, with or without a trailing newline, reads back as its label and operation. */
  lemma ParseShowStep(name: string, op: Operation)
    requires WellFormed(op)
    ensures ParseStep(name + ShowOperation(op)) == Some((name, op))
    ensures ParseStep(name + ShowOperation(op) + "\n") == Some((name, op))
  {
    var t := name + ShowOperation(op);
    assert t[|t| - 1] == ShowOperation(op)[SuffixLength(op) - 1];
    assert t[..|t| - SuffixLength(op)] == name;
    assert RemoveNewline(t) == t;
    assert (t + "\n")[..|t|] == t;
    if op.NewLens? {
      assert DigitValue(t[|t| - 1]) == op.focalLength;
    }
  }

  /** Writing a step and parsing it gives back its label and operation, with or without a newline. */
  lemma ParseShowInstruction(name: string, op: Operation)
    requires WellFormed(op)
    ensures ParseInstruction(name + ShowOperation(op)) == Some(Instruction(HashOf(name), name, op))
    ensures ParseInstruction(name + ShowOperation(op) + "\n")
      == Some(Instruction(HashOf(name), name, op))
  {
    ParseShowStep(name, op);
  }

  /** `execute` on the contents of all boxes: the instruction's box gets the update. */
  function Apply(slots: seq<Slot>, ins: Instruction): seq<Slot> {
    match ins.operation
    case RemoveLens => Removed(slots, ins.name)
    case NewLens(f) => Added(slots, ins.name, f)
  }

  function Execute(contents: seq<seq<Slot>>, ins: Instruction): seq<seq<Slot>>
    requires ins.boxId < |contents|
  {
    contents[ins.boxId := Apply(contents[ins.boxId], ins)]
  }

  predicate InRange(instructions: seq<Instruction>, count: nat) {
    forall i :: 0 <= i < |instructions| ==> instructions[i].boxId < count
  }

  /** The contents of the boxes after the instructions, in order. */
  function ExecuteAll(contents: seq<seq<Slot>>, instructions: seq<Instruction>): (r: seq<seq<Slot>>)
    requires InRange(instructions, |contents|)
    ensures |r| == |contents|
  {
    if instructions == [] then contents
    else
      var n := |instructions| - 1;
      Execute(ExecuteAll(contents, instructions[..n]), instructions[n])
  }

  function EmptyBoxes(): seq<seq<Slot>> {
    seq(BoxCount, _ => [])
  }

  predicate AllUnique(contents: seq<seq<Slot>>) {
    forall k :: 0 <= k < |contents| ==> UniqueLabels(contents[k])
  }

  /** Every box stays a map through any run of instructions. */
  lemma {:induction false} ExecuteAllUnique(contents: seq<seq<Slot>>, instructions: seq<Instruction>)
    requires InRange(instructions, |contents|) && AllUnique(contents)
    ensures AllUnique(ExecuteAll(contents, instructions))
    decreases |instructions|
  {
    if instructions != [] {
      var n := |instructions| - 1;
      var before := ExecuteAll(contents, instructions[..n]);
      ExecuteAllUnique(contents, instructions[..n]);
      var ins := instructions[n];
      match ins.operation
      case RemoveLens => RemovedKeepsUnique(before[ins.boxId], ins.name);
      case NewLens(f) => AddedKeepsUnique(before[ins.boxId], ins.name, f);
    }
  }

  /** All steps parsed, or None at the first step `Instruction::parse` would panic on. */
  function ParseAll(steps: seq<string>): (r: Option<seq<Instruction>>)
    ensures r.Some? ==> |r.value| == |steps| && InRange(r.value, BoxCount)
  {
    if steps == [] then Some([])
    else
      var n := |steps| - 1;
      match ParseAll(steps[..n])
      case None => None
      case Some(instructions) =>
        match ParseInstruction(steps[n])
        case None => None
        case Some(ins) => Some(instructions + [ins])
  }

  /** The sum of the focusing powers of the boxes, box k being number k. */
  function TotalPower(contents: seq<seq<Slot>>): nat {
    if contents == [] then 0
    else
      var n := |contents| - 1;
      TotalPower(contents[..n]) + FocusingPower(n, contents[n])
  }

  /** The answer of part 2, or None if a step does not parse. */
  function Answer(input: string): Option<nat> {
    match ParseAll(Split(input, ','))
    case None => None
    case Some(instructions) => Some(TotalPower(ExecuteAll(EmptyBoxes(), instructions)))
  }

  /** Parsing and executing one more step. */
  lemma ParseAllNext(steps: seq<string>, i: nat, instructions: seq<Instruction>)
    requires i < |steps| && ParseAll(steps[..i]) == Some(instructions)
    ensures ParseInstruction(steps[i]).None? ==> ParseAll(steps[..i + 1]).None?
    ensures ParseInstruction(steps[i]).Some? ==>
      var ins := ParseInstruction(steps[i]).value;
      ParseAll(steps[..i + 1]) == Some(instructions + [ins]) &&
      ExecuteAll(EmptyBoxes(), instructions + [ins]) == Execute(ExecuteAll(EmptyBoxes(), instructions), ins)
  {
    assert steps[..i + 1][..i] == steps[..i];
    if ParseInstruction(steps[i]).Some? {
      var ins := ParseInstruction(steps[i]).value;
      assert (instructions + [ins])[..|instructions|] == instructions;
    }
  }

  /** A step that does not parse spoils every longer sequence of steps. */
  lemma {:induction false} ParseAllPrefixNone(steps: seq<string>, i: nat)
    requires i <= |steps| && ParseAll(steps[..i]).None?
    ensures ParseAll(steps).None?
    decreases |steps| - i
  {
    if i < |steps| {
      assert steps[..i + 1][..i] == steps[..i];
      ParseAllPrefixNone(steps, i + 1);
    } else {
      assert steps[..i] == steps;
    }
  }

  /** `Instruction::execute`: the update lands in box `boxId`, and no other box changes. */
  method ExecuteOn(boxes: seq<LensBox>, ins: Instruction)
    requires ins.boxId < |boxes| && boxes[ins.boxId].Valid()
    modifies boxes[ins.boxId]
    ensures boxes[ins.boxId].Valid()
    ensures boxes[ins.boxId].lenses == Apply(old(boxes[ins.boxId].lenses), ins)
  {
    var target := boxes[ins.boxId];
    match ins.operation
    case RemoveLens => target.RemoveLens(ins.name);
    case NewLens(f) => target.AddLens(ins.name, f);
  }

  predicate Distinct(boxes: seq<LensBox>) {
    forall i, j :: 0 <= i < j < |boxes| ==> boxes[i] != boxes[j]
  }

  /** `vec![LensBox::default(); 256]`: distinct empty boxes. */
  method NewBoxes() returns (boxes: seq<LensBox>)
    ensures |boxes| == BoxCount && Distinct(boxes)
    ensures forall k :: 0 <= k < BoxCount ==> fresh(boxes[k])
    ensures forall k :: 0 <= k < BoxCount ==> boxes[k].lenses == [] && boxes[k].Valid()
  {
    boxes := [];
    while |boxes| < BoxCount
      invariant |boxes| <= BoxCount && Distinct(boxes)
      invariant forall k :: 0 <= k < |boxes| ==> fresh(boxes[k])
      invariant forall k :: 0 <= k < |boxes| ==> boxes[k].lenses == [] && boxes[k].Valid()
    {
      var b := new LensBox();
      boxes := boxes + [b];
    }
  }

  /** The sum of the focusing powers of the boxes, taken in order. */
  method SumPowers(boxes: seq<LensBox>, ghost contents: seq<seq<Slot>>) returns (total: nat)
    requires |contents| == |boxes|
    requires forall k :: 0 <= k < |boxes| ==> boxes[k].lenses == contents[k]
    ensures total == TotalPower(contents)
  {
    total := 0;
    for k := 0 to |boxes|
      invariant total == TotalPower(contents[..k])
    {
      assert contents[..k + 1][..k] == contents[..k];
      total := total + FocusingPower(k, boxes[k].lenses);
    }
    assert contents[..|boxes|] == contents;
  }

  /** One step of `run` on boxes holding `before`: afterwards they hold `Execute(before, ins)`. */
  method ExecuteStep(boxes: seq<LensBox>, ghost before: seq<seq<Slot>>, ins: Instruction)
    requires |boxes| == |before| && Distinct(boxes) && ins.boxId < |boxes|
    requires forall k :: 0 <= k < |boxes| ==> boxes[k].Valid() && boxes[k].lenses == before[k]
    modifies boxes[ins.boxId]
    ensures forall k :: 0 <= k < |boxes| ==>
      boxes[k].Valid() && boxes[k].lenses == Execute(before, ins)[k]
  {
    ExecuteOn(boxes, ins);
  }

  /** Parses and executes the steps in order on the boxes; None at the first step that does not parse. */
  method ExecuteSteps(boxes: seq<LensBox>, steps: seq<string>) returns (ok: bool, ghost contents: seq<seq<Slot>>)
    requires |boxes| == BoxCount && Distinct(boxes)
    requires forall k :: 0 <= k < BoxCount ==> boxes[k].lenses == [] && boxes[k].Valid()
    modifies set k | 0 <= k < |boxes| :: boxes[k]
    ensures ok <==> ParseAll(steps).Some?
    ensures ok ==> contents == ExecuteAll(EmptyBoxes(), ParseAll(steps).value)
    ensures ok ==> |contents| == BoxCount
    ensures ok ==> forall k :: 0 <= k < BoxCount ==> boxes[k].lenses == contents[k]
  {
    ghost var instructions: seq<Instruction> := [];
    contents := EmptyBoxes();
    for i := 0 to |steps|
      invariant ParseAll(steps[..i]) == Some(instructions)
      invariant contents == ExecuteAll(EmptyBoxes(), instructions)
      invariant forall k :: 0 <= k < BoxCount ==> boxes[k].Valid() && boxes[k].lenses == contents[k]
    {
      var parsed := ParseInstruction(steps[i]);
      ParseAllNext(steps, i, instructions);
      if parsed.None? {
        ParseAllPrefixNone(steps, i + 1);
        return false, contents;
      }
      var ins := parsed.value;
      ExecuteStep(boxes, contents, ins);
      instructions := instructions + [ins];
      contents := Execute(contents, ins);
    }
    assert steps[..|steps|] == steps;
    ok := true;
  }

  /** `run`: 256 empty boxes, every step executed, the focusing powers added up. */
  method Run(input: string) returns (r: Option<nat>)
    ensures r == Answer(input)
  {
    var boxes := NewBoxes();
    var ok, contents := ExecuteSteps(boxes, Split(input, ','));
    if !ok {
      return None;
    }
    var total := SumPowers(boxes, contents);
    r := Some(total);
  }

  /** As written, "cm=2" goes to box 47 and "cm-" to box 253. */
  lemma AsWrittenBoxes(add: string, remove: string)
    requires add == "cm=2" && remove == "cm-"
    ensures ParseInstructionAsWritten(add) == Some(Instruction(47, "cm", NewLens(2)))
    ensures ParseInstructionAsWritten(remove) == Some(Instruction(253, "cm", RemoveLens))
  {
    AddStepHash(add);
    RemoveStepHash(remove);
    ParseShowStep("cm", NewLens(2));
    ParseShowStep("cm", RemoveLens);
    assert "cm" + ShowOperation(NewLens(2)) == add;
    assert "cm" + ShowOperation(RemoveLens) == remove;
    assert RemoveNewline(add) == add && RemoveNewline(remove) == remove;
  }

  /**
   * As written, the steps "cm=2" and "cm-" land in different boxes, so the removal misses
   * the lens: after both steps box 47 still holds it.
   */
  lemma AsWrittenRemovalMissed(add: string, remove: string)
    requires add == "cm=2" && remove == "cm-"
    ensures ParseInstructionAsWritten(add).Some? && ParseInstructionAsWritten(remove).Some?
    ensures
      var instructions := [ParseInstructionAsWritten(add).value, ParseInstructionAsWritten(remove).value];
      Lookup(ExecuteAll(EmptyBoxes(), instructions)[47], "cm") == Some(Lens(2))
  {
    AsWrittenBoxes(add, remove);
    var a := Instruction(47, "cm", NewLens(2));
    var d := Instruction(253, "cm", RemoveLens);
    assert [a, d][..1] == [a];
    assert [a][..0] == [];
    var once := Execute(EmptyBoxes(), a);
    assert ExecuteAll(EmptyBoxes(), [a]) == once;
    assert ExecuteAll(EmptyBoxes(), [a, d]) == Execute(once, d);
    assert once[47] == Added([], "cm", 2);
    assert Execute(once, d)[47] == once[47];
    AddedLookup([], "cm", 2, "cm");
  }

  /**
   * With the box chosen by the label, `label=d` and `label-` go to the same box, and
   * the removal undoes the addition.
   */
  lemma RemoveUndoesAdd(contents: seq<seq<Slot>>, name: string, focalLength: nat)
    requires |contents| == BoxCount && 1 <= focalLength <= 9
    ensures ParseInstruction(name + ShowOperation(NewLens(focalLength))).Some?
    ensures ParseInstruction(name + ShowOperation(RemoveLens)).Some?
    ensures
      var add := ParseInstruction(name + ShowOperation(NewLens(focalLength))).value;
      var remove := ParseInstruction(name + ShowOperation(RemoveLens)).value;
      add.boxId == remove.boxId &&
      Execute(Execute(contents, add), remove) == Execute(contents, remove)
  {
    ParseShowInstruction(name, NewLens(focalLength));
    ParseShowInstruction(name, RemoveLens);
    HashBelow256(name);
    RemovedAfterAdded(contents[HashOf(name)], name, focalLength);
  }
}
