/**
 * Day 8, part 1: a network of nodes, each with a left and a right neighbour, and a guide
 * line of 'L' and 'R' characters that is read over and over. The walk starts at "AAA"
 * and counts the steps until it reaches "ZZZ".
 *
 * The source's walk need not end; the model walks at most `fuel` steps. Where the source
 * panics (an unknown node, an empty guide, a character other than 'L' or 'R') the model
 * reports `Panicked`.
 */
module Day8Part1 {
  import opened Wrappers
  import opened Text

  datatype Direction = Left | Right

  predicate IsDirectionChar(c: char) {
    c == 'L' || c == 'R'
  }

  /** `Direction::from`: 'L' is left and 'R' right; any other character panics. */
  function DirectionFrom(c: char): (d: Direction)
    requires IsDirectionChar(c)
    ensures d.Left? <==> c == 'L'
  {
    if c == 'L' then Left else Right
  }

  /** The guide character of a direction. */
  function DirectionChar(d: Direction): (c: char)
    ensures IsDirectionChar(c)
  {
    match d
    case Left => 'L'
    case Right => 'R'
  }

  /** Reading a direction back from its character gives it again, and the other way round. */
  lemma DirectionRoundTrip(d: Direction, c: char)
    requires IsDirectionChar(c)
    ensures DirectionFrom(DirectionChar(d)) == d
    ensures DirectionChar(DirectionFrom(c)) == c
  {
  }

  /** A node's name, a slice of the input in the source. */
  type NodeId = string

  /** `NodeId::is_start`: the id ends in 'A'. */
  predicate IsStart(id: NodeId) {
    EndsWith(id, "A")
  }

  /** `NodeId::is_end`: the id ends in 'Z'. */
  predicate IsEnd(id: NodeId) {
    EndsWith(id, "Z")
  }

  /** Start and end are decided by the last character alone, and no id is both. */
  lemma IdEnds(id: NodeId)
    ensures IsStart(id) <==> |id| > 0 && id[|id| - 1] == 'A'
    ensures IsEnd(id) <==> |id| > 0 && id[|id| - 1] == 'Z'
    ensures !(IsStart(id) && IsEnd(id))
  {
    if |id| > 0 {
      assert id[|id| - 1..] == [id[|id| - 1]];
    }
  }

  /** The two neighbours of a node. */
  datatype Node = Node(left: NodeId, right: NodeId)

  /**
   * The content without its outer brackets: `Chars::next` drops the first character and
   * `next_back` the last, each only when there is one left.
   */
  function Unbracketed(content: string): (r: string)
    ensures |content| >= 2 ==> r == content[1..|content| - 1]
    ensures |content| < 2 ==> r == []
  {
    if |content| >= 2 then content[1..|content| - 1] else []
  }

  /**
   * `Node::parse`: the inside of the brackets split at its first ", "; None where the
   * source's `unwrap` panics because there is no ", ".
   */
  function ParseNode(content: string): (r: Option<Node>)
    ensures r.Some? ==> Unbracketed(content) == r.value.left + ", " + r.value.right
  {
    match SplitOnceStr(Unbracketed(content), ", ")
    case None => None
    case Some(parts) => Some(Node(parts.0, parts.1))
  }

  /** The text of a node as the puzzle writes it. */
  function NodeText(n: Node): string {
    "(" + n.left + ", " + n.right + ")"
  }

  /** Parsing the text of a node gives the node back, when its left id holds no ','. */
  lemma ParseNodeText(n: Node)
    requires ',' !in n.left
    ensures ParseNode(NodeText(n)) == Some(n)
  {
    var t := NodeText(n);
    assert Unbracketed(t) == n.left + ", " + n.right;
    SplitOnceStrAfter(n.left, ", ", n.right);
  }

  /** `Node::walk_further`: the left neighbour for Left, the right one for Right. */
  function WalkFurther(node: Node, d: Direction): NodeId {
    match d
    case Left => node.left
    case Right => node.right
  }

  /** Walking from a parsed node reaches the id written on that side. */
  lemma WalkFurtherParsed(n: Node, d: Direction)
    requires ',' !in n.left
    ensures ParseNode(NodeText(n)).Some?
    ensures WalkFurther(ParseNode(NodeText(n)).value, d) == (if d.Left? then n.left else n.right)
  {
    ParseNodeText(n);
  }

  /** A node line: the id before " = " and the node parsed from the text after it. */
  datatype Entry = Entry(id: NodeId, node: Option<Node>)

  /** The line split at its first " = ", when it has one. */
  function EntryOf(line: string): Option<Entry>
  {
    match SplitOnceStr(line, " = ")
    case None => None
    case Some(parts) => Some(Entry(parts.0, ParseNode(parts.1)))
  }

  /** The node lines: every line with a " = ", in order. */
  function Entries(lines: seq<string>): (es: seq<Entry>)
    ensures |es| <= |lines|
  {
    if lines == [] then []
    else
      var rest := Entries(lines[..|lines| - 1]);
      match EntryOf(lines[|lines| - 1])
      case None => rest
      case Some(entry) => rest + [entry]
  }

  /** The entries of the first `k` lines come first among the entries of all lines. */
  lemma {:induction false} EntriesPrefix(lines: seq<string>, k: nat)
    requires k <= |lines|
    ensures Entries(lines[..k]) <= Entries(lines)
    decreases |lines|
  {
    if k < |lines| {
      var init := lines[..|lines| - 1];
      assert init[..k] == lines[..k];
      EntriesPrefix(init, k);
    } else {
      assert lines[..k] == lines;
    }
  }

  /** One more line adds its entry when it has a " = ". */
  lemma EntriesNext(lines: seq<string>, k: nat)
    requires k < |lines|
    ensures EntryOf(lines[k]).None? ==> Entries(lines[..k + 1]) == Entries(lines[..k])
    ensures EntryOf(lines[k]).Some? ==> Entries(lines[..k + 1]) == Entries(lines[..k]) + [EntryOf(lines[k]).value]
  {
    assert lines[..k + 1][..k] == lines[..k];
  }

  /** `NodeArena::parse` asserts that no id is inserted twice. */
  predicate UniqueIds(es: seq<Entry>) {
    forall i, j :: 0 <= i < j < |es| ==> es[i].id != es[j].id
  }

  /** Every node text could be parsed. */
  predicate AllReadable(es: seq<Entry>) {
    forall i :: 0 <= i < |es| ==> es[i].node.Some?
  }

  /** The arena holding the entries, the later inserted over the earlier. */
  function ArenaOf(es: seq<Entry>): map<NodeId, Node>
    requires AllReadable(es)
  {
    if es == [] then map[]
    else ArenaOf(es[..|es| - 1])[es[|es| - 1].id := es[|es| - 1].node.value]
  }

  /** The arena holds no id beyond the entries' ids. */
  lemma {:induction false} ArenaKeys(es: seq<Entry>, id: NodeId)
    requires AllReadable(es) && id in ArenaOf(es)
    ensures exists i :: 0 <= i < |es| && es[i].id == id
    decreases |es|
  {
    var init := es[..|es| - 1];
    if id != es[|es| - 1].id {
      ArenaKeys(init, id);
      var i :| 0 <= i < |init| && init[i].id == id;
      assert es[i].id == id;
    }
  }

  /** An entry no later entry overwrites maps its id to its own node. */
  lemma {:induction false} ArenaLookup(es: seq<Entry>, i: nat)
    requires AllReadable(es) && i < |es|
    requires forall j :: i < j < |es| ==> es[j].id != es[i].id
    ensures es[i].id in ArenaOf(es) && Some(ArenaOf(es)[es[i].id]) == es[i].node
    decreases |es|
  {
    var init := es[..|es| - 1];
    if i < |init| {
      assert init[i] == es[i];
      ArenaLookup(init, i);
      assert es[|es| - 1].id != es[i].id;
    }
  }

  /** With unique ids every id maps to its own node. */
  lemma ArenaValues(es: seq<Entry>)
    requires AllReadable(es) && UniqueIds(es)
    ensures forall i :: 0 <= i < |es| ==> es[i].id in ArenaOf(es) && Some(ArenaOf(es)[es[i].id]) == es[i].node
  {
    forall i | 0 <= i < |es|
      ensures es[i].id in ArenaOf(es) && Some(ArenaOf(es)[es[i].id]) == es[i].node
    {
      ArenaLookup(es, i);
    }
  }

  /** Entries that begin a readable sequence are readable. */
  lemma PrefixReadable(done: seq<Entry>, all: seq<Entry>)
    requires done <= all && AllReadable(all)
    ensures AllReadable(done)
  {
    assert forall i :: 0 <= i < |done| ==> done[i] == all[i];
  }

  /** The next entry of a sequence with unique ids is not in the arena of the ones before it. */
  lemma NoRepeat(done: seq<Entry>, e: Entry, all: seq<Entry>)
    requires done + [e] <= all && AllReadable(all) && UniqueIds(all)
    ensures AllReadable(done) && e.node.Some? && e.id !in ArenaOf(done)
  {
    assert forall i :: 0 <= i < |done| ==> done[i] == all[i];
    assert all[|done|] == e;
    if e.id in ArenaOf(done) {
      ArenaKeys(done, e.id);
    }
  }

  /** One line of `NodeArena::parse`: insert the node of a line with " = ", skip any other. */
  method InsertLine(nodes: map<NodeId, Node>, lines: seq<string>, k: nat) returns (nodes': map<NodeId, Node>)
    requires k < |lines| && AllReadable(Entries(lines)) && UniqueIds(Entries(lines))
    requires Entries(lines[..k]) <= Entries(lines) && AllReadable(Entries(lines[..k]))
    requires nodes == ArenaOf(Entries(lines[..k]))
    ensures Entries(lines[..k + 1]) <= Entries(lines) && AllReadable(Entries(lines[..k + 1]))
    ensures nodes' == ArenaOf(Entries(lines[..k + 1]))
  {
    EntriesPrefix(lines, k + 1);
    EntriesNext(lines, k);
    PrefixReadable(Entries(lines[..k + 1]), Entries(lines));
    nodes' := nodes;
    var next := EntryOf(lines[k]);
    if next.Some? {
      NoRepeat(Entries(lines[..k]), next.value, Entries(lines));
      nodes' := nodes[next.value.id := next.value.node.value];
    }
  }

  /**
   * `NodeArena::parse`: insert every node line into a map. Lines without " = " (the guide
   * and the blank line) are skipped; a node text without ", " panics and a repeated id
   * fails the source's assertion.
   */
  method ParseArena(lines: seq<string>) returns (nodes: map<NodeId, Node>)
    requires AllReadable(Entries(lines)) && UniqueIds(Entries(lines))
    ensures nodes == ArenaOf(Entries(lines))
  {
    nodes := map[];
    for k := 0 to |lines|
      invariant Entries(lines[..k]) <= Entries(lines) && AllReadable(Entries(lines[..k]))
      invariant nodes == ArenaOf(Entries(lines[..k]))
    {
      nodes := InsertLine(nodes, lines, k);
    }
    assert lines[..|lines|] == lines;
  }

  /** A product with a factor of at least one is at least the other factor. */
  lemma MulMonotone(d: int, n: nat)
    requires d >= 1
    ensures d * n >= n
  {
    var e := d - 1;
    assert d * n == e * n + n;
    assert e * n >= 0;
  }

  /** The remainder of `q * n + r` is `r` when `r` is below `n`. */
  lemma ModUnique(x: int, q: int, r: int, n: nat)
    requires n > 0 && 0 <= r < n && x == q * n + r
    ensures x % n == r
  {
    var q' := x / n;
    var r' := x % n;
    assert x == q' * n + r';
    if q > q' {
      MulMonotone(q - q', n);
    } else if q < q' {
      MulMonotone(q' - q, n);
    }
  }

  /** `x % n` one further on. */
  lemma ModNext(a: nat, n: nat)
    requires n > 0
    ensures (a + 1) % n == if a % n == n - 1 then 0 else a % n + 1
  {
    var q := a / n;
    var r := a % n;
    assert a == q * n + r;
    if r == n - 1 {
      assert a + 1 == (q + 1) * n + 0;
      ModUnique(a + 1, q + 1, 0, n);
    } else {
      ModUnique(a + 1, q, r + 1, n);
    }
  }

  /**
   * `Guide`: the first line and the characters of it not yet read. `calls` counts the
   * directions handed out so far.
   */
  class Guide {
    const data: string
    var rest: string
    ghost var calls: nat

    /** `rest` is the tail of `data` starting at the position `calls` has reached. */
    ghost predicate Valid()
      reads this
    {
      |rest| <= |data| && rest == data[|data| - |rest|..] &&
      (data != [] ==> |rest| == |data| - calls % |data| || (rest == [] && calls % |data| == 0))
    }

    /** `Guide::parse`: the first line of the input; there must be one. */
    constructor Parse(lines: seq<string>)
      requires lines != []
      ensures data == lines[0] && calls == 0 && Valid()
    {
      data := lines[0];
      rest := lines[0];
      calls := 0;
    }

    /** The character `get_next_char` hands out next: the next one left, or the first again. */
    function NextChar(): (c: char)
      reads this
      requires Valid() && data != []
      ensures c == data[calls % |data|]
    {
      if rest == [] then data[0] else rest[0]
    }

    /**
     * `where_to`: the direction of the next character; past the end the guide starts
     * over. It panics on an empty line and on a character other than 'L' or 'R'.
     */
    method WhereTo() returns (d: Direction)
      requires Valid() && data != [] && IsDirectionChar(NextChar())
      modifies this
      ensures Valid() && calls == old(calls) + 1
      ensures d == DirectionFrom(data[old(calls) % |data|])
    {
      ModNext(calls, |data|);
      if rest == [] {
        rest := data;
      }
      d := DirectionFrom(rest[0]);
      rest := rest[1..];
      calls := calls + 1;
    }
  }

  /** The direction character of step `k`: the guide read over and over. */
  function GuideChar(data: string, k: nat): char
    requires data != []
  {
    data[k % |data|]
  }

  /**
   * One step of the walk at step `k`, or None where the source panics: the node is not
   * in the arena, the guide is empty or its character is neither 'L' nor 'R'.
   */
  function Step(nodes: map<NodeId, Node>, data: string, id: NodeId, k: nat): (r: Option<NodeId>)
    ensures r.Some? <==> id in nodes && data != [] && IsDirectionChar(GuideChar(data, k))
  {
    if id !in nodes || data == [] || !IsDirectionChar(GuideChar(data, k)) then None
    else Some(WalkFurther(nodes[id], DirectionFrom(GuideChar(data, k))))
  }

  /** Where the walk from `start` is after `k` steps, ignoring where it stops. */
  function Position(nodes: map<NodeId, Node>, data: string, start: NodeId, k: nat): Option<NodeId> {
    if k == 0 then Some(start)
    else
      match Position(nodes, data, start, k - 1)
      case None => None
      case Some(id) => Step(nodes, data, id, k - 1)
  }

  /** How a walk of at most `fuel` steps ends. */
  datatype Outcome = Arrived(steps: nat) | Panicked | Unfinished

  /** The walk is at a node other than `target` at every step up to `k`. */
  predicate OnTheWay(nodes: map<NodeId, Node>, data: string, start: NodeId, target: NodeId, k: nat) {
    forall j: nat :: j <= k ==> Position(nodes, data, start, j).Some? && Position(nodes, data, start, j).value != target
  }

  /**
   * What an outcome says about the walk: `Arrived(s)` when `target` is first reached after
   * `s` steps, `Panicked` when a step before that fails, `Unfinished` when `fuel` steps
   * pass without either.
   */
  predicate Reports(nodes: map<NodeId, Node>, data: string, start: NodeId, target: NodeId, fuel: nat, outcome: Outcome) {
    match outcome
    case Arrived(s) =>
      s <= fuel && Position(nodes, data, start, s) == Some(target) &&
      (s > 0 ==> OnTheWay(nodes, data, start, target, s - 1))
    case Panicked =>
      exists j: nat :: j < fuel && OnTheWay(nodes, data, start, target, j) && Position(nodes, data, start, j + 1).None?
    case Unfinished =>
      OnTheWay(nodes, data, start, target, fuel)
  }

  /** A position other than the target extends the way so far. */
  lemma OnTheWayExtend(nodes: map<NodeId, Node>, data: string, start: NodeId, target: NodeId, k: nat)
    requires k > 0 ==> OnTheWay(nodes, data, start, target, k - 1)
    requires Position(nodes, data, start, k).Some? && Position(nodes, data, start, k).value != target
    ensures OnTheWay(nodes, data, start, target, k)
  {
  }

  /** A failing step on the way is a panic. */
  lemma PanicReported(nodes: map<NodeId, Node>, data: string, start: NodeId, target: NodeId, fuel: nat, j: nat)
    requires j < fuel && OnTheWay(nodes, data, start, target, j)
    requires Position(nodes, data, start, j).Some?
    requires Step(nodes, data, Position(nodes, data, start, j).value, j).None?
    ensures Reports(nodes, data, start, target, fuel, Panicked)
  {
    assert Position(nodes, data, start, j + 1).None?;
  }

  /**
   * One step of `run`'s loop: look the node up, ask the guide and walk on; None where the
   * source panics.
   */
  method StepOn(nodes: map<NodeId, Node>, guide: Guide, current: NodeId) returns (next: Option<NodeId>)
    requires guide.Valid()
    modifies guide
    ensures next == Step(nodes, guide.data, current, old(guide.calls))
    ensures next.Some? ==> guide.Valid() && guide.calls == old(guide.calls) + 1
  {
    if current !in nodes || guide.data == [] || !IsDirectionChar(guide.NextChar()) {
      return None;
    }
    var node := nodes[current];
    var d := guide.WhereTo();
    next := Some(WalkFurther(node, d));
  }

  /** The loop of `run`: walk from `start` until `target`, at most `fuel` steps. */
  method Walk(nodes: map<NodeId, Node>, guide: Guide, start: NodeId, target: NodeId, fuel: nat) returns (outcome: Outcome)
    requires guide.Valid() && guide.calls == 0
    modifies guide
    ensures Reports(nodes, guide.data, start, target, fuel, outcome)
  {
    var current := start;
    var walks := 0;
    while current != target
      invariant guide.Valid() && guide.calls == walks && walks <= fuel
      invariant Position(nodes, guide.data, start, walks) == Some(current)
      invariant walks > 0 ==> OnTheWay(nodes, guide.data, start, target, walks - 1)
      decreases fuel - walks
    {
      OnTheWayExtend(nodes, guide.data, start, target, walks);
      if walks == fuel {
        return Unfinished;
      }
      var next := StepOn(nodes, guide, current);
      if next.None? {
        PanicReported(nodes, guide.data, start, target, fuel, walks);
        return Panicked;
      }
      current := next.value;
      walks := walks + 1;
    }
    outcome := Arrived(walks);
  }

  /**
   * `run`: parse the arena and the guide, then walk from "AAA" until "ZZZ", counting the
   * steps; at most `fuel` steps are taken.
   */
  method Run(input: string, fuel: nat) returns (outcome: Outcome)
    requires Lines(input) != []
    requires AllReadable(Entries(Lines(input))) && UniqueIds(Entries(Lines(input)))
    ensures Reports(ArenaOf(Entries(Lines(input))), Lines(input)[0], "AAA", "ZZZ", fuel, outcome)
  {
    var lines := Lines(input);
    var nodes := ParseArena(lines);
    var guide := new Guide.Parse(lines);
    outcome := Walk(nodes, guide, "AAA", "ZZZ", fuel);
  }
}
