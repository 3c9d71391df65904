/**
 * Day 13, parsing a block of the valley map: every row is hashed into a `u32`, bit i
 * standing for the i-th cell ('#' set, '.' clear), and the column hashes are the row
 * hashes transposed, bit i of column j being bit j of row i.
 */
module Day13Part1 {
  import opened Text

  /** The width of `u32`. */
  const HashWidth: nat := 32

  /** A `u32`, bit i at index i. */
  type Hash = h: seq<bool> | |h| == HashWidth witness seq(32, _ => false)

  /** `0` */
  function Zero(): Hash {
    seq(HashWidth, _ => false)
  }

  function Pow2(k: nat): (r: nat)
    ensures r >= 1
  {
    if k == 0 then 1 else 2 * Pow2(k - 1)
  }

  /** `m` clear bits. */
  function Clear(m: nat): (bits: seq<bool>)
    ensures |bits| == m && forall i :: 0 <= i < m ==> !bits[i]
  {
    seq(m, _ => false)
  }

  /** The number a run of bits stands for, bit i weighing 2^i. */
  function BitsValue(bits: seq<bool>): nat {
    if bits == [] then 0
    else BitsValue(bits[..|bits| - 1]) + if bits[|bits| - 1] then Pow2(|bits| - 1) else 0
  }

  /** Setting a clear bit adds its weight. */
  lemma {:induction false} BitsValueSet(bits: seq<bool>, i: nat)
    requires i < |bits| && !bits[i]
    ensures BitsValue(bits[i := true]) == BitsValue(bits) + Pow2(i)
    decreases |bits|
  {
    var n := |bits|;
    var set_ := bits[i := true];
    if i < n - 1 {
      assert set_[..n - 1] == bits[..n - 1][i := true];
      BitsValueSet(bits[..n - 1], i);
    } else {
      assert set_[..n - 1] == bits[..n - 1];
    }
  }

  /** Clear bits at the top add nothing. */
  lemma {:induction false} BitsValueClearTop(bits: seq<bool>, m: nat)
    ensures BitsValue(bits + Clear(m)) == BitsValue(bits)
    decreases m
  {
    if m > 0 {
      var longer := bits + Clear(m);
      assert longer[..|longer| - 1] == bits + Clear(m - 1);
      assert !longer[|longer| - 1];
      BitsValueClearTop(bits, m - 1);
    } else {
      assert bits + Clear(m) == bits;
    }
  }

  predicate IsMapChar(c: char) {
    c == '.' || c == '#'
  }

  /** `parse_char`: '#' is 1 and '.' is 0; any other char panics. */
  function ParseChar(c: char): (b: nat)
    requires IsMapChar(c)
    ensures b <= 1 && (b == 1 <==> c == '#')
  {
    if c == '#' then 1 else 0
  }

  /** A row `parse_line` reads: map chars only, and few enough that no shift overflows. */
  predicate LineReadable(line: string) {
    |line| <= HashWidth && forall i :: 0 <= i < |line| ==> IsMapChar(line[i])
  }

  /** The sum `parse_line` adds up: `parse_char(c) << i` for the i-th char c. */
  function LineSum(line: string): nat
    requires forall i :: 0 <= i < |line| ==> IsMapChar(line[i])
  {
    if line == [] then 0
    else LineSum(line[..|line| - 1]) + ParseChar(line[|line| - 1]) * Pow2(|line| - 1)
  }

  /** `parse_line`, bit by bit: bit i is set exactly when the i-th char is '#'. */
  function ParseLine(line: string): Hash
    requires LineReadable(line)
  {
    seq(HashWidth, i requires 0 <= i < HashWidth => i < |line| && line[i] == '#')
  }

  /** The cells a hash stands for, in a row of `len` cells. */
  function ShowLine(h: Hash, len: nat): (line: string)
    requires len <= HashWidth
    ensures LineReadable(line) && |line| == len
  {
    seq(len, i requires 0 <= i < len => if h[i] then '#' else '.')
  }

  /** The bits of the hash and the sum `parse_line` computes are the same number. */
  lemma ParseLineSum(line: string)
    requires LineReadable(line)
    ensures BitsValue(ParseLine(line)) == LineSum(line)
  {
    var bits := seq(|line|, i requires 0 <= i < |line| => line[i] == '#');
    LineBitsSum(line);
    assert ParseLine(line) == bits + Clear(HashWidth - |line|);
    BitsValueClearTop(bits, HashWidth - |line|);
  }

  lemma {:induction false} LineBitsSum(line: string)
    requires forall i :: 0 <= i < |line| ==> IsMapChar(line[i])
    ensures BitsValue(seq(|line|, i requires 0 <= i < |line| => line[i] == '#')) == LineSum(line)
    decreases |line|
  {
    if line != [] {
      var n := |line|;
      var bits := seq(n, i requires 0 <= i < n => line[i] == '#');
      var front := line[..n - 1];
      assert bits[..n - 1] == seq(n - 1, i requires 0 <= i < n - 1 => front[i] == '#');
      LineBitsSum(front);
    }
  }

  /** Reading a row and writing its cells back gives the row. */
  lemma ShowParseLine(line: string)
    requires LineReadable(line)
    ensures ShowLine(ParseLine(line), |line|) == line
  {
    var back := ShowLine(ParseLine(line), |line|);
    assert forall i :: 0 <= i < |line| ==> back[i] == line[i];
  }

  /** A hash without bits past the row's end is the hash of the cells it shows. */
  lemma ParseShowLine(h: Hash, len: nat)
    requires len <= HashWidth && forall i :: len <= i < HashWidth ==> !h[i]
    ensures ParseLine(ShowLine(h, len)) == h
  {
    var back := ParseLine(ShowLine(h, len));
    assert forall i :: 0 <= i < HashWidth ==> back[i] == h[i];
  }

  /** Rows of the same length hash alike exactly when they are the same row. */
  lemma ParseLineInjective(a: string, b: string)
    requires LineReadable(a) && LineReadable(b) && |a| == |b|
    ensures ParseLine(a) == ParseLine(b) <==> a == b
  {
    if ParseLine(a) == ParseLine(b) {
      ShowParseLine(a);
      ShowParseLine(b);
    }
  }

  /**
   * `*val += ((hash >> j) & 1) << i` where bit i of `val` is still clear: the addition
   * carries nothing and sets bit i to the bit added.
   */
  function AddBit(val: Hash, i: nat, b: bool): (r: Hash)
    requires i < HashWidth && !val[i]
    ensures r[i] == b && forall k :: 0 <= k < HashWidth && k != i ==> r[k] == val[k]
    ensures BitsValue(r) == BitsValue(val) + if b then Pow2(i) else 0
  {
    if b then BitsValueSet(val, i); val[i := true] else val
  }

  /** The `len` column hashes of the rows: bit i of column j is bit j of row i. */
  function Transpose(rows: seq<Hash>, len: nat): (cols: seq<Hash>)
    requires len <= HashWidth
  {
    seq(len, j requires 0 <= j < len =>
      seq(HashWidth, i requires 0 <= i < HashWidth => i < |rows| && rows[i][j]))
  }

  /** Transposing back gives the rows, when no row has bits past the `len` columns. */
  lemma TransposeTwice(rows: seq<Hash>, len: nat)
    requires len <= HashWidth && |rows| <= HashWidth
    requires forall i, j :: 0 <= i < |rows| && len <= j < HashWidth ==> !rows[i][j]
    ensures Transpose(Transpose(rows, len), |rows|) == rows
  {
    var back := Transpose(Transpose(rows, len), |rows|);
    forall i | 0 <= i < |rows|
      ensures back[i] == rows[i]
    {
      assert forall j :: 0 <= j < HashWidth ==> back[i][j] == rows[i][j];
    }
  }

  /**
   * `transpose_hashes`: for every row i, add bit j of the row, shifted to position i, to
   * the j-th of `len` zeroed column hashes. Shifting by 32 or more panics, so `len` and,
   * when any column is filled, the number of rows are at most 32.
   */
  method TransposeHashes(hashes: seq<Hash>, len: nat) returns (ret: seq<Hash>)
    requires len <= HashWidth && (len == 0 || |hashes| <= HashWidth)
    ensures ret == Transpose(hashes, len)
  {
    var cols := new Hash[len](_ => Zero());
    for i := 0 to |hashes|
      invariant forall j, k {:trigger cols[j][k]} :: 0 <= j < len && 0 <= k < HashWidth ==>
        cols[j][k] == (k < i && hashes[k][j])
    {
      for j := 0 to len
        invariant forall j', k {:trigger cols[j'][k]} :: 0 <= j' < len && 0 <= k < HashWidth ==>
          cols[j'][k] == (if j' < j then k <= i && hashes[k][j'] else k < i && hashes[k][j'])
      {
        cols[j] := AddBit(cols[j], i, hashes[i][j]);
      }
    }
    ret := cols[..];
    forall j | 0 <= j < len
      ensures ret[j] == Transpose(hashes, len)[j]
    {
      assert forall k :: 0 <= k < HashWidth ==> ret[j][k] == Transpose(hashes, len)[j][k];
    }
  }

  /**
   * The lines of a block `from_block` reads: at least one, all of them readable rows, and
   * no more rows than a column hash holds unless the first row (which sets the number of
   * columns) is empty.
   */
  predicate RowsReadable(lines: seq<string>) {
    |lines| >= 1 && (forall k :: 0 <= k < |lines| ==> LineReadable(lines[k])) &&
    (|lines[0]| == 0 || |lines| <= HashWidth)
  }

  /** The row hashes of a block, one per line. */
  function RowHashes(lines: seq<string>): (rows: seq<Hash>)
    requires RowsReadable(lines)
    ensures |rows| == |lines|
  {
    seq(|lines|, k requires 0 <= k < |lines| => ParseLine(lines[k]))
  }

  /** The number of columns: the length of the first line. */
  function ColumnCount(lines: seq<string>): nat
    requires RowsReadable(lines)
  {
    |lines[0]|
  }

  /** The column hashes of a block. */
  function ColHashes(lines: seq<string>): (cols: seq<Hash>)
    requires RowsReadable(lines)
    ensures |cols| == ColumnCount(lines)
  {
    Transpose(RowHashes(lines), ColumnCount(lines))
  }

  /** A parsed block: the hashes of its rows and of its columns. */
  datatype Map = Map(rowHashes: seq<Hash>, colHashes: seq<Hash>)

  /** `Map::from_block` */
  method FromBlock(block: string) returns (m: Map)
    requires RowsReadable(Lines(block))
    ensures m.rowHashes == RowHashes(Lines(block))
    ensures m.colHashes == ColHashes(Lines(block))
  {
    var lines := Lines(block);
    var rowHashes := seq(|lines|, k requires 0 <= k < |lines| => ParseLine(lines[k]));
    var colLen := |lines[0]|;
    var colHashes := TransposeHashes(rowHashes, colLen);
    m := Map(rowHashes, colHashes);
  }

  /**
   * In a block of rows of one length, the cells agree with the hashes both ways: cell
   * (i, j) is '#' exactly when bit j of row i and bit i of column j are set.
   */
  lemma CellsHashed(lines: seq<string>, i: nat, j: nat)
    requires RowsReadable(lines)
    requires i < |lines| && j < ColumnCount(lines) && |lines[i]| == ColumnCount(lines)
    ensures RowHashes(lines)[i][j] <==> lines[i][j] == '#'
    ensures ColHashes(lines)[j][i] <==> lines[i][j] == '#'
  {
  }

  /** The lines of the block of the `test_map_parse` example. */
  lemma ExampleLines()
    ensures Lines("..\n.#\n#.") == ["..", ".#", "#."]
  {
    var lines := ["..", ".#", "#."];
    assert Join(lines, '\n') == "..\n.#\n#.";
    LinesOfJoin(lines);
  }

  /** `test_map_parse`: the row hashes of the example are 0, 2, 1 and its column hashes 4, 2. */
  lemma ExampleHashes(lines: seq<string>)
    requires lines == ["..", ".#", "#."]
    ensures RowsReadable(lines)
    ensures var rows := RowHashes(lines);
      |rows| == 3 && BitsValue(rows[0]) == 0 && BitsValue(rows[1]) == 2 && BitsValue(rows[2]) == 1
    ensures var cols := ColHashes(lines);
      |cols| == 2 && BitsValue(cols[0]) == 4 && BitsValue(cols[1]) == 2
  {
    ExampleRowHashes(lines);
    ExampleColHashes(lines);
  }

  /** The example's rows, each read as a binary number. */
  lemma ExampleRowHashes(lines: seq<string>)
    requires lines == ["..", ".#", "#."]
    ensures RowsReadable(lines)
    ensures var rows := RowHashes(lines);
      |rows| == 3 && BitsValue(rows[0]) == 0 && BitsValue(rows[1]) == 2 && BitsValue(rows[2]) == 1
  {
    var rows := RowHashes(lines);
    assert rows == [ParseLine(".."), ParseLine(".#"), ParseLine("#.")];
    ParseLineSum("..");
    ParseLineSum(".#");
    ParseLineSum("#.");
  }

  /** The example's columns, each read top to bottom as a binary number. */
  lemma ExampleColHashes(lines: seq<string>)
    requires lines == ["..", ".#", "#."]
    ensures RowsReadable(lines)
    ensures var cols := ColHashes(lines);
      |cols| == 2 && BitsValue(cols[0]) == 4 && BitsValue(cols[1]) == 2
  {
    var rows := RowHashes(lines);
    assert rows == [ParseLine(".."), ParseLine(".#"), ParseLine("#.")];
    ExampleColumns(rows);
    ExampleColumnSums();
  }

  /** The example's columns are its rows read downwards. */
  lemma ExampleColumns(rows: seq<Hash>)
    requires rows == [ParseLine(".."), ParseLine(".#"), ParseLine("#.")]
    ensures Transpose(rows, 2) == [ParseLine("..#"), ParseLine(".#.")]
  {
    var cols := Transpose(rows, 2);
    assert cols[0] == ParseLine("..#") by {
      assert forall i :: 0 <= i < HashWidth ==> cols[0][i] == ParseLine("..#")[i];
    }
    assert cols[1] == ParseLine(".#.") by {
      assert forall i :: 0 <= i < HashWidth ==> cols[1][i] == ParseLine(".#.")[i];
    }
  }

  /** The values of the example's columns. */
  lemma ExampleColumnSums()
    ensures BitsValue(ParseLine("..#")) == 4 && BitsValue(ParseLine(".#.")) == 2
  {
    ParseLineSum("..#");
    ParseLineSum(".#.");
    assert LineSum("..#") == 4 by {
      assert "..#"[..2] == ".." && ".."[..1] == "." && "."[..0] == "";
    }
    assert LineSum(".#.") == 2 by {
      assert ".#."[..2] == ".#" && ".#"[..1] == "." && "."[..0] == "";
    }
  }
}
