/**
 * Day 1: calibration values. Each line's value is its first digit times ten plus its last
 * digit. Part 1 reads only the decimal digit characters; part 2 also reads the digits
 * spelled out as words ("zero" to "nine"), which may overlap ("twone" holds a two and a one).
 * Lines without any digit are skipped and the line values are added up.
 */
module Day1Calibration {
  import opened Wrappers
  import opened Text

  /** Which digits a line is read for: part 1 reads numerals only, part 2 words as well. */
  datatype Reading = NumeralsOnly | NumeralsAndWords

  /** The table of `substring_to_num`, in its order: each digit's word. */
  const Words: seq<string> := ["zero", "one", "two", "three", "four", "five", "six", "seven", "eight", "nine"]

  /** The numeral of a digit. */
  function Numeral(d: nat): (c: char)
    requires d < 10
    ensures IsDigit(c) && DigitValue(c) == d
  {
    ('0' as int + d) as char
  }

  /** `s` starts with the digit `d`, written as its numeral or as its word. */
  predicate Spells(s: string, d: nat)
    requires d < 10
  {
    StartsWith(s, [Numeral(d)]) || StartsWith(s, Words[d])
  }

  /** The table entries from `d` on, tried in order; the first one `s` starts with. */
  function SpelledFrom(s: string, d: nat): (r: Option<nat>)
    requires d <= 10
    ensures r.Some? ==> d <= r.value < 10 && Spells(s, r.value)
    ensures r.None? <==> forall e :: d <= e < 10 ==> !Spells(s, e)
    decreases 10 - d
  {
    if d == 10 then None
    else if Spells(s, d) then Some(d)
    else SpelledFrom(s, d + 1)
  }

  /** `substring_to_num`: the digit that `s` starts with, as a numeral or a word. */
  function SubstringToNum(s: string): (r: Option<nat>)
    ensures r.Some? ==> r.value < 10 && Spells(s, r.value)
    ensures r.None? <==> forall d :: 0 <= d < 10 ==> !Spells(s, d)
  {
    SpelledFrom(s, 0)
  }

  /** The digit whose word starts with the two letters `p`, if any. */
  function WordPrefix(p: string): (r: Option<nat>)
    ensures r.Some? ==> r.value < 10 && |p| == 2 && !IsDigit(p[0])
  {
    if p == "ze" then Some(0) else if p == "on" then Some(1) else if p == "tw" then Some(2)
    else if p == "th" then Some(3) else if p == "fo" then Some(4) else if p == "fi" then Some(5)
    else if p == "si" then Some(6) else if p == "se" then Some(7) else if p == "ei" then Some(8)
    else if p == "ni" then Some(9) else None
  }

  /** Every word is told apart from the others by its first two letters. */
  lemma WordPrefixOfWord(d: nat)
    requires d < 10
    ensures |Words[d]| >= 3 && WordPrefix(Words[d][..2]) == Some(d)
  {
    match d
    case 0 => assert Words[0][..2] == "ze";
    case 1 => assert Words[1][..2] == "on";
    case 2 => assert Words[2][..2] == "tw";
    case 3 => assert Words[3][..2] == "th";
    case 4 => assert Words[4][..2] == "fo";
    case 5 => assert Words[5][..2] == "fi";
    case 6 => assert Words[6][..2] == "si";
    case 7 => assert Words[7][..2] == "se";
    case 8 => assert Words[8][..2] == "ei";
    case 9 => assert Words[9][..2] == "ni";
  }

  /** A digit spelled at the start of `s` shows in its first char or its first two letters. */
  lemma SpelledAtStart(s: string, d: nat)
    requires d < 10 && Spells(s, d)
    ensures s != []
    ensures (IsDigit(s[0]) && DigitValue(s[0]) == d) || (|s| >= 2 && WordPrefix(s[..2]) == Some(d))
  {
    WordPrefixOfWord(d);
    if StartsWith(s, [Numeral(d)]) {
      assert s[0] == Numeral(d);
    } else {
      assert s[..2] == Words[d][..2] by { assert s[..2] == s[..|Words[d]|][..2]; }
    }
  }

  /** A string spells at most one digit, so the table's order does not matter. */
  lemma SpellsOneDigit(s: string, d: nat, e: nat)
    requires d < 10 && e < 10 && Spells(s, d) && Spells(s, e)
    ensures d == e
  {
    SpelledAtStart(s, d);
    SpelledAtStart(s, e);
  }

  /** Nothing is spelled at the start of `s` when neither its first char nor its first two letters begin a digit. */
  lemma NothingSpelled(s: string)
    requires s != [] && !IsDigit(s[0]) && (|s| >= 2 ==> WordPrefix(s[..2]).None?)
    ensures SubstringToNum(s).None?
  {
    forall d | 0 <= d < 10
      ensures !Spells(s, d)
    {
      if Spells(s, d) {
        SpelledAtStart(s, d);
      }
    }
  }

  /** A digit spelled at the start of `s` is what `substring_to_num` returns. */
  lemma SpelledDigit(s: string, d: nat)
    requires d < 10 && Spells(s, d)
    ensures SubstringToNum(s) == Some(d)
  {
    SpellsOneDigit(s, d, SubstringToNum(s).value);
  }

  /**
   * The digit read at the start of `s`: for part 1 the first char if it is a decimal
   * digit, for part 2 whatever `substring_to_num` recognises.
   */
  function DigitAt(reading: Reading, s: string): (r: Option<nat>)
    ensures r.Some? ==> r.value < 10 && Spells(s, r.value)
  {
    match reading
    case NumeralsOnly =>
      if s != [] && IsDigit(s[0]) then
        assert s[..1] == [Numeral(DigitValue(s[0]))];
        Some(DigitValue(s[0]))
      else None
    case NumeralsAndWords => SubstringToNum(s)
  }

  /** Every digit part 1 reads, part 2 reads too. */
  lemma NumeralsReadInBoth(s: string)
    requires DigitAt(NumeralsOnly, s).Some?
    ensures DigitAt(NumeralsAndWords, s) == DigitAt(NumeralsOnly, s)
  {
    var d := DigitAt(NumeralsOnly, s).value;
    var r := SubstringToNum(s);
    assert r.Some?;
    SpellsOneDigit(s, d, r.value);
  }

  /** The digits read at every position of `line`, left to right. */
  function DigitsRead(reading: Reading, line: string): (ds: seq<nat>)
    ensures forall i :: 0 <= i < |ds| ==> ds[i] < 10
    ensures ds == [] <==> forall i :: 0 <= i < |line| ==> DigitAt(reading, line[i..]).None?
    decreases |line|
  {
    if line == [] then []
    else
      var rest := DigitsRead(reading, line[1..]);
      assert forall i :: 1 <= i < |line| ==> line[i..] == line[1..][i - 1..];
      assert line[0..] == line;
      match DigitAt(reading, line)
      case Some(d) => [d] + rest
      case None => rest
  }

  /**
   * `part1_get_first_digit` (numerals only) and `get_first_digit` (numerals and words): the
   * first digit read on the line, or the last one when reading from the right.
   */
  function FirstDigit(reading: Reading, line: string, fromRight: bool): (r: Option<nat>)
    ensures r.Some? ==> r.value < 10
  {
    var ds := DigitsRead(reading, line);
    if ds == [] then None
    else if fromRight then Some(ds[|ds| - 1])
    else Some(ds[0])
  }

  /** A line gives no digit, from either side, exactly when no position reads one. */
  lemma NoDigitRead(reading: Reading, line: string, fromRight: bool)
    ensures FirstDigit(reading, line, fromRight).None? <==> forall i :: 0 <= i < |line| ==> DigitAt(reading, line[i..]).None?
  {
  }

  /** Reading from the left gives the digit at the first position that reads one. */
  lemma {:induction false} LeftmostDigit(reading: Reading, line: string, i: nat)
    requires i < |line| && DigitAt(reading, line[i..]).Some?
    requires forall j :: 0 <= j < i ==> DigitAt(reading, line[j..]).None?
    ensures FirstDigit(reading, line, false) == DigitAt(reading, line[i..])
    decreases i
  {
    if i > 0 {
      var tail := line[1..];
      assert DigitAt(reading, line).None? by { assert line[0..] == line; }
      assert DigitsRead(reading, line) == DigitsRead(reading, tail);
      forall j | 0 <= j < i - 1
        ensures DigitAt(reading, tail[j..]).None?
      {
        assert tail[j..] == line[j + 1..];
      }
      assert tail[i - 1..] == line[i..];
      LeftmostDigit(reading, tail, i - 1);
    } else {
      assert line[0..] == line;
    }
  }

  /** The digits read from position `i` on are the tail of all the digits read. */
  lemma {:induction false} DigitsReadTail(reading: Reading, line: string, i: nat)
    requires i <= |line|
    ensures var all, tail := DigitsRead(reading, line), DigitsRead(reading, line[i..]);
      |tail| <= |all| && all[|all| - |tail|..] == tail
    decreases i
  {
    if i > 0 {
      assert line[1..][i - 1..] == line[i..];
      DigitsReadTail(reading, line[1..], i - 1);
    } else {
      assert line[0..] == line;
    }
  }

  /** Reading from the right gives the digit at the last position that reads one. */
  lemma RightmostDigit(reading: Reading, line: string, i: nat)
    requires i < |line| && DigitAt(reading, line[i..]).Some?
    requires forall j :: i < j < |line| ==> DigitAt(reading, line[j..]).None?
    ensures FirstDigit(reading, line, true) == DigitAt(reading, line[i..])
  {
    var s := line[i..];
    assert forall j :: 0 <= j < |s[1..]| ==> s[1..][j..] == line[i + 1 + j..];
    assert DigitsRead(reading, s[1..]) == [];
    DigitsReadTail(reading, line, i);
  }

  /**
   * `part1_get_num_from_line` and `get_num_from_line`: the first digit as tens and the last
   * as units; nothing when the line has no digit.
   */
  function NumFromLine(reading: Reading, line: string): (r: Option<nat>)
    ensures r.None? <==> FirstDigit(reading, line, false).None?
    ensures r.Some? ==> r.value < 100
    ensures r.Some? ==> r.value / 10 == FirstDigit(reading, line, false).value
    ensures r.Some? ==> r.value % 10 == FirstDigit(reading, line, true).value
  {
    match (FirstDigit(reading, line, false), FirstDigit(reading, line, true))
    case (Some(left), Some(right)) => Some(10 * left + right)
    case _ => None
  }

  /** A line with a value in part 1 has one in part 2. */
  lemma NumeralLineHasValueInBoth(line: string)
    requires NumFromLine(NumeralsOnly, line).Some?
    ensures NumFromLine(NumeralsAndWords, line).Some?
  {
    var i :| 0 <= i < |line| && DigitAt(NumeralsOnly, line[i..]).Some?;
    NumeralsReadInBoth(line[i..]);
  }

  /** `filter_map(...).sum()`: the values of the lines that have one, added up. */
  function SumValues(reading: Reading, lines: seq<string>): (total: nat)
    ensures total <= 99 * |lines|
  {
    if lines == [] then 0
    else
      var rest := SumValues(reading, lines[1..]);
      match NumFromLine(reading, lines[0])
      case Some(v) => v + rest
      case None => rest
  }

  /** A line without digits adds nothing; a line with digits adds its value. */
  lemma SumValuesCons(reading: Reading, line: string, lines: seq<string>)
    ensures SumValues(reading, [line] + lines) ==
      SumValues(reading, lines) + match NumFromLine(reading, line) case Some(v) => v case None => 0
  {
    assert ([line] + lines)[1..] == lines;
  }

  /** Part 1: the calibration values read from numerals, added up. */
  function Part1(input: string): (total: nat)
    ensures total <= 99 * |Lines(input)|
  {
    SumValues(NumeralsOnly, Lines(input))
  }

  /** Part 2: the calibration values read from numerals and words, added up. */
  function Part2(input: string): (total: nat)
    ensures total <= 99 * |Lines(input)|
  {
    SumValues(NumeralsAndWords, Lines(input))
  }

  /** No digit begins with a char that starts no numeral and no word. */
  lemma LetterBeginsNothing(s: string)
    requires s != [] && s[0] !in "0123456789zotfsen"
    ensures SubstringToNum(s).None?
  {
    if |s| >= 2 {
      assert s[..2][0] == s[0];
    }
    NothingSpelled(s);
  }

  /** Nothing is read at the three positions of a string that starts with "asd", as every test line does. */
  lemma AsdReadsNothing(s: string, j: nat)
    requires |s| >= 3 && s[..3] == "asd" && j < 3
    ensures DigitAt(NumeralsAndWords, s[j..]).None?
  {
    assert s[0] == 'a' && s[1] == 's' && s[2] == 'd';
    if j == 0 {
      LetterBeginsNothing(s);
    } else if j == 1 {
      assert s[1..][..2] == "sd";
      NothingSpelled(s[1..]);
    } else {
      LetterBeginsNothing(s[2..]);
    }
  }

  /** The first test: a line without digits has none from either side. */
  lemma NoDigitExample()
    ensures FirstDigit(NumeralsAndWords, "asd", false).None?
    ensures FirstDigit(NumeralsAndWords, "asd", true).None?
  {
    var line := "asd";
    forall j | 0 <= j < |line|
      ensures DigitAt(NumeralsAndWords, line[j..]).None?
    {
      AsdReadsNothing(line, j);
    }
    NoDigitRead(NumeralsAndWords, line, false);
    NoDigitRead(NumeralsAndWords, line, true);
  }

  /** The positions the test line "asd1zero2asd" reads no digit at. */
  lemma NumeralsExampleGaps(line: string)
    requires line == "asd1zero2asd"
    ensures forall j :: 0 <= j < 3 || 8 < j < |line| ==> DigitAt(NumeralsAndWords, line[j..]).None?
  {
    forall j | 0 <= j < 3 || 8 < j < |line|
      ensures DigitAt(NumeralsAndWords, line[j..]).None?
    {
      if j < 3 {
        AsdReadsNothing(line, j);
      } else {
        assert line[9..][j - 9..] == line[j..];
        AsdReadsNothing(line[9..], j - 9);
      }
    }
  }

  /** The second test: numerals "1" and "2" around a spelled "zero". */
  lemma NumeralsExample()
    ensures FirstDigit(NumeralsAndWords, "asd1zero2asd", false) == Some(1)
    ensures FirstDigit(NumeralsAndWords, "asd1zero2asd", true) == Some(2)
  {
    var line := "asd1zero2asd";
    NumeralsExampleGaps(line);
    assert line[3..][..1] == [Numeral(1)] && line[8..][..1] == [Numeral(2)];
    SpelledDigit(line[3..], 1);
    SpelledDigit(line[8..], 2);
    LeftmostDigit(NumeralsAndWords, line, 3);
    RightmostDigit(NumeralsAndWords, line, 8);
  }

  /** The positions the test line "asdone0twoasd" reads no digit at. */
  lemma WordsExampleGaps(line: string)
    requires line == "asdone0twoasd"
    ensures forall j :: 0 <= j < 3 || 7 < j < |line| ==> DigitAt(NumeralsAndWords, line[j..]).None?
  {
    forall j | 0 <= j < 3 || 7 < j < |line|
      ensures DigitAt(NumeralsAndWords, line[j..]).None?
    {
      if j < 3 {
        AsdReadsNothing(line, j);
      } else if j == 8 {
        LetterBeginsNothing(line[8..]);
      } else if j == 9 {
        assert line[9..][..2] == "oa";
        NothingSpelled(line[9..]);
      } else {
        assert line[10..][j - 10..] == line[j..];
        AsdReadsNothing(line[10..], j - 10);
      }
    }
  }

  /** The third test: words "one" and "two" around a numeral "0". */
  lemma WordsExample()
    ensures FirstDigit(NumeralsAndWords, "asdone0twoasd", false) == Some(1)
    ensures FirstDigit(NumeralsAndWords, "asdone0twoasd", true) == Some(2)
  {
    var line := "asdone0twoasd";
    WordsExampleGaps(line);
    assert line[3..][..3] == Words[1] && line[7..][..3] == Words[2];
    SpelledDigit(line[3..], 1);
    SpelledDigit(line[7..], 2);
    LeftmostDigit(NumeralsAndWords, line, 3);
    RightmostDigit(NumeralsAndWords, line, 7);
  }
}
