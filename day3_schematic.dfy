/**
 * Day 3, "Gear Ratios": the engine schematic. Each char of the input is an entry (a digit,
 * a gear `*`, another symbol, or empty `.`); the grid is padded with a border of empty
 * entries so that every cell has eight neighbours.
 */
module Day3Schematic {
  import opened Wrappers
  import opened Text

  datatype Entry = Number(n: nat) | Gear | OtherSymbol | Empty

  /** `Entry::parse`: digits become numbers, '.' and '\n' nothing, '*' a gear, the rest symbols. */
  function ParseEntry(c: char): (e: Entry)
    ensures e.Number? <==> IsDigit(c)
    ensures e.Number? ==> e.n == DigitValue(c)
    ensures e.Empty? <==> c == '.' || c == '\n'
    ensures e.Gear? <==> c == '*'
  {
    match ToDigit(c)
    case Some(d) => Number(d)
    case None =>
      if c == '.' || c == '\n' then Empty
      else if c == '*' then Gear
      else OtherSymbol
  }

  predicate IsSymbol(e: Entry) {
    match e
    case Number(_) => false
    case Gear => true
    case OtherSymbol => true
    case Empty => false
  }

  /** Exactly the chars that are neither digits, nor '.', nor '\n' are symbols. */
  lemma SymbolChars(c: char)
    ensures IsSymbol(ParseEntry(c)) <==> !IsDigit(c) && c != '.' && c != '\n'
  {
  }

  /** The eight entries around a cell. */
  datatype Neighborhood = Neighborhood(
    upperLeft: Entry, upperMiddle: Entry, upperRight: Entry,
    middleLeft: Entry, middleRight: Entry,
    lowerLeft: Entry, lowerMiddle: Entry, lowerRight: Entry)
  {
    function Cells(): seq<Entry> {
      [upperLeft, upperMiddle, upperRight, middleLeft, middleRight, lowerLeft, lowerMiddle, lowerRight]
    }
  }

  /** `EntryNeighborhood::default`: all eight empty. */
  function EmptyNeighborhood(): Neighborhood {
    Neighborhood(Empty, Empty, Empty, Empty, Empty, Empty, Empty, Empty)
  }

  /** `contains_symbols`: whether any of the eight entries is a symbol. */
  function ContainsSymbols(h: Neighborhood): (b: bool)
    ensures b <==> exists e :: e in h.Cells() && IsSymbol(e)
  {
    if IsSymbol(h.upperLeft) then true
    else if IsSymbol(h.upperMiddle) then true
    else if IsSymbol(h.upperRight) then true
    else if IsSymbol(h.middleLeft) then true
    else if IsSymbol(h.middleRight) then true
    else if IsSymbol(h.lowerLeft) then true
    else if IsSymbol(h.lowerMiddle) then true
    else IsSymbol(h.lowerRight)
  }

  /** How many numbers start in `cells`: a number entry whose left neighbour is not one. */
  function Runs(cells: seq<Entry>): nat {
    if cells == [] then 0
    else
      var last := |cells| - 1;
      Runs(cells[..last])
      + (if cells[last].Number? && (last == 0 || !cells[last - 1].Number?) then 1 else 0)
  }

  /** `count_numbers_in_line`: the numbers in a row of three entries. */
  function CountNumbersInLine(left: Entry, middle: Entry, right: Entry): (k: nat)
    ensures k == Runs([left, middle, right])
  {
    assert [left, middle, right][..2] == [left, middle];
    assert [left, middle][..1] == [left];
    assert [left][..0] == [];
    assert Runs([left]) == (if left.Number? then 1 else 0);
    assert Runs([left, middle]) == Runs([left]) + (if middle.Number? && !left.Number? then 1 else 0);
    if middle.Number? then 1
    else (if left.Number? then 1 else 0) + (if right.Number? then 1 else 0)
  }

  /** `count_numbers`: the numbers around a cell; the cell's own row is split by the cell. */
  function CountNumbers(h: Neighborhood): (k: nat)
    ensures k == Runs([h.upperLeft, h.upperMiddle, h.upperRight]) + Runs([h.middleLeft])
      + Runs([h.middleRight]) + Runs([h.lowerLeft, h.lowerMiddle, h.lowerRight])
  {
    assert [h.middleLeft][..0] == [] && [h.middleRight][..0] == [];
    CountNumbersInLine(h.upperLeft, h.upperMiddle, h.upperRight)
    + (if h.middleLeft.Number? then 1 else 0)
    + (if h.middleRight.Number? then 1 else 0)
    + CountNumbersInLine(h.lowerLeft, h.lowerMiddle, h.lowerRight)
  }

  /** `test_neighborhood_nums`: 2 and 3 above, 5 and 6 beside, 4 below count as four numbers. */
  lemma NeighborhoodNumsTest(h: Neighborhood)
    requires h == EmptyNeighborhood().(upperMiddle := Number(2), upperRight := Number(3),
      lowerLeft := Number(4), middleLeft := Number(5), middleRight := Number(6))
    ensures CountNumbers(h) == 4
  {
  }

  /** The parsed grid, with a border of empty entries all around. */
  datatype Schematic = Schematic(entries: seq<seq<Entry>>)

  /** `parse_line`: the line's entries between two empty ones. */
  function ParseLine(line: string): (r: seq<Entry>)
    ensures |r| == |line| + 2 && r[0] == Empty && r[|r| - 1] == Empty
    ensures forall x :: 0 <= x < |line| ==> r[x + 1] == ParseEntry(line[x])
  {
    [Empty] + seq(|line|, x requires 0 <= x < |line| => ParseEntry(line[x])) + [Empty]
  }

  function ParseLines(lines: seq<string>): (rows: seq<seq<Entry>>)
    ensures |rows| == |lines| && forall y :: 0 <= y < |lines| ==> rows[y] == ParseLine(lines[y])
  {
    seq(|lines|, y requires 0 <= y < |lines| => ParseLine(lines[y]))
  }

  /** The width of the first line: up to the first '\n', or the whole input. */
  function FirstWidth(input: string): nat {
    match IndexOf(input, '\n')
    case Some(i) => i
    case None => |input|
  }

  /** The lines of the grid: the input split at '\n', empty lines dropped. */
  function GridLines(input: string): seq<string> {
    NonEmpty(Split(input, '\n'))
  }

  /** `Schematic::parse`: an empty border row as wide as the first line plus two, above and below. */
  function Parse(input: string): Schematic {
    var border := seq(FirstWidth(input) + 2, _ => Empty);
    Schematic([border] + ParseLines(GridLines(input)) + [border])
  }

  /** `entry`: the entry at (x, y), counted without the border. */
  function EntryAt(s: Schematic, x: nat, y: nat): Entry
    requires y + 1 < |s.entries| && x + 1 < |s.entries[y + 1]|
  {
    s.entries[y + 1][x + 1]
  }

  /** `dimensions`: the width of the top row and the number of rows, border left out. */
  function Dimensions(s: Schematic): (nat, nat)
    requires |s.entries| >= 2 && |s.entries[0]| >= 2
  {
    (|s.entries[0]| - 2, |s.entries| - 2)
  }

  /** The parsed schematic has the input's lines inside an empty border. */
  lemma ParseShape(input: string, s: Schematic, lines: seq<string>)
    requires s == Parse(input) && lines == GridLines(input)
    ensures |s.entries| == |lines| + 2 && |s.entries[0]| == FirstWidth(input) + 2
      && Dimensions(s) == (FirstWidth(input), |lines|)
      && (forall x :: 0 <= x < |s.entries[0]| ==> s.entries[0][x] == Empty)
      && s.entries[|lines| + 1] == s.entries[0]
      && (forall y :: 0 <= y < |lines| ==> |s.entries[y + 1]| == |lines[y]| + 2)
      && (forall y, x :: 0 <= y < |lines| && 0 <= x < |lines[y]| ==>
            EntryAt(s, x, y) == ParseEntry(lines[y][x]))
  {
    var rows := ParseLines(lines);
    assert forall y :: 0 <= y < |lines| ==> s.entries[y + 1] == rows[y];
  }

  /** `entry_neighbors`: the eight entries around (x, y), counted without the border. */
  function Neighbors(s: Schematic, x: nat, y: nat): Neighborhood
    requires y + 2 < |s.entries|
    requires x + 2 < |s.entries[y]| && x + 2 < |s.entries[y + 1]| && x + 2 < |s.entries[y + 2]|
  {
    Neighborhood(
      s.entries[y][x], s.entries[y][x + 1], s.entries[y][x + 2],
      s.entries[y + 1][x], s.entries[y + 1][x + 2],
      s.entries[y + 2][x], s.entries[y + 2][x + 1], s.entries[y + 2][x + 2])
  }

  /** Where (x, y) lies from (px, py): one of the eight cells around it. */
  predicate Adjacent(x: nat, y: nat, px: nat, py: nat) {
    x <= px + 1 && px <= x + 1 && y <= py + 1 && py <= y + 1 && (px, py) != (x, y)
  }

  /**
   * A gear around (x, y) that `neighboring_gears` reports: it checks the left and upper edges
   * against 0 and the right and lower ones against the width and height.
   */
  predicate GearAround(s: Schematic, x: nat, y: nat, p: (nat, nat))
    requires |s.entries| >= 2 && |s.entries[0]| >= 2
  {
    Adjacent(x, y, p.0, p.1)
    && (p.0 == x + 1 ==> p.0 < Dimensions(s).0) && (p.1 == y + 1 ==> p.1 < Dimensions(s).1)
    && p.1 + 1 < |s.entries| && p.0 + 1 < |s.entries[p.1 + 1]|
    && s.entries[p.1 + 1][p.0 + 1] == Gear
  }

  /** `a` comes before `b` row by row. */
  predicate RowMajor(a: (nat, nat), b: (nat, nat)) {
    a.1 < b.1 || (a.1 == b.1 && a.0 < b.0)
  }

  /** Where `p` lies among the eight cells around (x, y), counted row by row from 0 to 8. */
  function Rank(x: nat, y: nat, p: (nat, nat)): int {
    3 * (p.1 - y + 1) + (p.0 - x + 1)
  }

  /** Among the cells around (x, y), a lower rank comes first row by row. */
  lemma RankOrder(x: nat, y: nat, a: (nat, nat), b: (nat, nat))
    requires Adjacent(x, y, a.0, a.1) && Adjacent(x, y, b.0, b.1) && Rank(x, y, a) < Rank(x, y, b)
    ensures RowMajor(a, b)
  {
  }

  /** `gears` holds, in row order, exactly the reported gears of rank below `k`. */
  ghost predicate ReportedUpTo(s: Schematic, x: nat, y: nat, gears: seq<(nat, nat)>, k: int)
    requires |s.entries| >= 2 && |s.entries[0]| >= 2
  {
    (forall p {:trigger p in gears} :: p in gears <==> GearAround(s, x, y, p) && Rank(x, y, p) < k)
    && (forall i, j :: 0 <= i < j < |gears| ==> RowMajor(gears[i], gears[j]))
  }

  /**
   * One `if ... { gears.push(...) }` of `neighboring_gears`: the cell of rank `k` is added when
   * `found`, which holds exactly when it is a reported gear. Rank 4 is (x, y) itself.
   */
  method PushIf(s: Schematic, x: nat, y: nat, gears: seq<(nat, nat)>, found: bool,
                px: int, py: int, ghost k: int)
    returns (next: seq<(nat, nat)>)
    requires |s.entries| >= 2 && |s.entries[0]| >= 2 && ReportedUpTo(s, x, y, gears, k)
    requires 0 <= k < 9 && px == x + k % 3 - 1 && py == y + k / 3 - 1
    requires found <==> px >= 0 && py >= 0 && GearAround(s, x, y, (px, py))
    ensures ReportedUpTo(s, x, y, next, if k == 3 then 5 else k + 1)
  {
    next := gears;
    if found {
      forall i | 0 <= i < |gears|
        ensures RowMajor(gears[i], (px, py))
      {
        assert gears[i] in gears;
        RankOrder(x, y, gears[i], (px, py));
      }
      next := gears + [(px, py)];
    }
  }

  /**
   * `neighboring_gears`: the gears around (x, y), row by row; the width and height must be
   * at least 1, as they are counted down by one.
   */
  method NeighboringGears(s: Schematic, x: nat, y: nat) returns (gears: seq<(nat, nat)>)
    requires |s.entries| >= 3 && |s.entries[0]| >= 3 && y + 2 < |s.entries|
    requires x + 2 < |s.entries[y]| && x + 2 < |s.entries[y + 1]| && x + 2 < |s.entries[y + 2]|
    ensures forall p :: p in gears <==> GearAround(s, x, y, p)
    ensures forall i, j :: 0 <= i < j < |gears| ==> RowMajor(gears[i], gears[j])
  {
    var dims := Dimensions(s);
    var maxX, maxY := dims.0 - 1, dims.1 - 1;
    var hood := Neighbors(s, x, y);
    gears := [];
    gears := PushIf(s, x, y, gears, x > 0 && y > 0 && hood.upperLeft.Gear?, x - 1, y - 1, 0);
    gears := PushIf(s, x, y, gears, y > 0 && hood.upperMiddle.Gear?, x, y - 1, 1);
    gears := PushIf(s, x, y, gears, x < maxX && y > 0 && hood.upperRight.Gear?, x + 1, y - 1, 2);
    gears := PushIf(s, x, y, gears, x > 0 && hood.middleLeft.Gear?, x - 1, y, 3);
    gears := PushIf(s, x, y, gears, x < maxX && hood.middleRight.Gear?, x + 1, y, 5);
    gears := PushIf(s, x, y, gears, x > 0 && y < maxY && hood.lowerLeft.Gear?, x - 1, y + 1, 6);
    gears := PushIf(s, x, y, gears, y < maxY && hood.lowerMiddle.Gear?, x, y + 1, 7);
    gears := PushIf(s, x, y, gears, x < maxX && y < maxY && hood.lowerRight.Gear?, x + 1, y + 1, 8);
  }
}
