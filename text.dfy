/**
 * The pieces of Rust's `str` API that the day solutions parse their input with:
 * `lines`, `split`, `split_once`, `trim`, `starts_with`/`ends_with`, `char::to_digit`
 * and `str::parse` for unsigned and signed integers.
 */
module Text {
  import opened Wrappers

  predicate IsDigit(c: char) {
    '0' <= c <= '9'
  }

  /** `char::to_digit(10)` on a decimal digit. */
  function DigitValue(c: char): (d: nat)
    requires IsDigit(c)
    ensures d < 10
    ensures c == '0' + (d as char)
  {
    c as int - '0' as int
  }

  /** `char::to_digit(10)`: the digit's value, or None for any other char. */
  function ToDigit(c: char): (r: Option<nat>)
    ensures r.Some? <==> IsDigit(c)
    ensures r.Some? ==> r.value < 10
  {
    if IsDigit(c) then Some(DigitValue(c)) else None
  }

  /** The position of the first `c` in `s`, if any. */
  function IndexOf(s: string, c: char): (r: Option<nat>)
    ensures r.Some? ==> r.value < |s| && s[r.value] == c && c !in s[..r.value]
    ensures r.None? <==> c !in s
  {
    if s == [] then None
    else if s[0] == c then Some(0)
    else match IndexOf(s[1..], c)
      case None => None
      case Some(i) => assert s[..i + 1] == [s[0]] + s[1..][..i]; Some(i + 1)
  }

  /** `str::split(sep)` for a char separator: never empty, and no part holds `sep`. */
  function Split(s: string, sep: char): (parts: seq<string>)
    ensures |parts| >= 1
    ensures forall i :: 0 <= i < |parts| ==> sep !in parts[i]
    decreases |s|
  {
    match IndexOf(s, sep)
    case None => [s]
    case Some(i) => [s[..i]] + Split(s[i + 1..], sep)
  }

  /** `filter(|part| !part.is_empty())`: the non-empty parts, in order. */
  function NonEmpty(parts: seq<string>): (r: seq<string>)
    ensures |r| <= |parts|
    ensures forall i :: 0 <= i < |r| ==> r[i] != []
  {
    if parts == [] then []
    else if parts[0] == [] then NonEmpty(parts[1..])
    else [parts[0]] + NonEmpty(parts[1..])
  }

  lemma {:induction false} NonEmptyAppend(a: seq<string>, b: seq<string>)
    ensures NonEmpty(a + b) == NonEmpty(a) + NonEmpty(b)
  {
    if a == [] {
      assert a + b == b;
    } else {
      assert (a + b)[1..] == a[1..] + b;
      NonEmptyAppend(a[1..], b);
    }
  }

  lemma NonEmptyCons(w: string, xs: seq<string>)
    ensures NonEmpty([w] + xs) == (if w == [] then [] else [w]) + NonEmpty(xs)
  {
    assert ([w] + xs)[1..] == xs;
  }

  /** The inverse of `Split`: the parts put back together with `sep` between them. */
  function Join(parts: seq<string>, sep: char): string
    requires |parts| >= 1
  {
    if |parts| == 1 then parts[0] else parts[0] + [sep] + Join(parts[1..], sep)
  }

  lemma {:induction false} JoinSplit(s: string, sep: char)
    ensures Join(Split(s, sep), sep) == s
    decreases |s|
  {
    var r := IndexOf(s, sep);
    if r.Some? {
      var i := r.value;
      var rest := Split(s[i + 1..], sep);
      assert Split(s, sep) == [s[..i]] + rest;
      JoinSplit(s[i + 1..], sep);
      calc {
        Join(Split(s, sep), sep);
        s[..i] + [sep] + Join(rest, sep);
        s[..i] + [sep] + s[i + 1..];
        s;
      }
    }
  }

  /** The first separator of `a + [sep] + b` is the one after `a` when `a` holds none. */
  lemma IndexOfAfter(a: string, sep: char, b: string)
    requires sep !in a
    ensures IndexOf(a + [sep] + b, sep) == Some(|a|)
  {
    var s := a + [sep] + b;
    assert s[|a|] == sep;
    var i := IndexOf(s, sep).value;
    assert forall k :: 0 <= k < |a| ==> s[k] == a[k];
    assert forall k :: 0 <= k < i ==> s[..i][k] == s[k];
  }

  /** Splitting once at a separator after a part without one gives that part and the rest. */
  lemma SplitOnceAfter(a: string, sep: char, b: string)
    requires sep !in a
    ensures SplitOnce(a + [sep] + b, sep) == Some((a, b))
  {
    var s := a + [sep] + b;
    IndexOfAfter(a, sep, b);
    assert s[..|a|] == a;
    assert s[|a| + 1..] == b;
  }

  /** Joining parts that avoid `c` with a separator other than `c` avoids `c`. */
  lemma {:induction false} JoinAvoids(parts: seq<string>, sep: char, c: char)
    requires |parts| >= 1 && sep != c && forall i :: 0 <= i < |parts| ==> c !in parts[i]
    ensures c !in Join(parts, sep)
    decreases |parts|
  {
    if |parts| > 1 {
      JoinAvoids(parts[1..], sep, c);
      assert parts[0] == parts[0];
    }
  }

  /** Parts without the separator, joined and split again, come back unchanged. */
  lemma {:induction false} SplitJoin(parts: seq<string>, sep: char)
    requires |parts| >= 1 && forall i :: 0 <= i < |parts| ==> sep !in parts[i]
    ensures Split(Join(parts, sep), sep) == parts
    decreases |parts|
  {
    if |parts| > 1 {
      var p := parts[0];
      var rest := Join(parts[1..], sep);
      assert Join(parts, sep) == p + [sep] + rest;
      SplitAfter(p, sep, rest);
      SplitJoin(parts[1..], sep);
      assert parts == [p] + parts[1..];
    }
  }

  /** Splitting after a first part without the separator peels that part off. */
  lemma SplitAfter(p: string, sep: char, rest: string)
    requires sep !in p
    ensures Split(p + [sep] + rest, sep) == [p] + Split(rest, sep)
  {
    var s := p + [sep] + rest;
    IndexOfAfter(p, sep, rest);
    assert s[..|p|] == p;
    assert s[|p| + 1..] == rest;
  }

  /** Drops one trailing carriage return, as `str::lines` does before a '\n'. */
  function StripCr(line: string): string {
    if |line| > 0 && line[|line| - 1] == '\r' then line[..|line| - 1] else line
  }

  /** Piece `i` of a split at '\n' as a line: without its '\r' when a '\n' followed it. */
  function PieceAsLine(parts: seq<string>, i: nat): string
    requires i < |parts|
  {
    if i < |parts| - 1 then StripCr(parts[i]) else parts[i]
  }

  /**
   * `str::lines`: the text split at each '\n', without the empty piece after a final
   * newline, and with the '\r' of each "\r\n" removed; a '\r' at the very end stays.
   */
  function Lines(s: string): (ls: seq<string>)
    ensures forall i :: 0 <= i < |ls| ==> '\n' !in ls[i]
    ensures s == [] ==> ls == []
  {
    var parts := Split(s, '\n');
    var n := if parts[|parts| - 1] == [] then |parts| - 1 else |parts|;
    seq(n, i requires 0 <= i < n => PieceAsLine(parts, i))
  }

  /** A non-empty string without line breaks is a single line. */
  lemma LinesOfOneLine(s: string)
    requires s != [] && forall i :: 0 <= i < |s| ==> s[i] != '\n'
    ensures Lines(s) == [s]
  {
    assert '\n' !in s;
    var parts := Split(s, '\n');
    assert parts == [s];
    assert Lines(s)[0] == PieceAsLine(parts, 0) == s;
  }

  /** Lines joined with '\n' read back as those lines when the last is not empty. */
  lemma LinesOfJoin(lines: seq<string>)
    requires |lines| >= 1 && lines[|lines| - 1] != []
    requires forall k :: 0 <= k < |lines| ==> '\n' !in lines[k]
    requires forall k :: 0 <= k < |lines| - 1 ==> StripCr(lines[k]) == lines[k]
    ensures Lines(Join(lines, '\n')) == lines
  {
    SplitJoin(lines, '\n');
    LinesOfSplit(Join(lines, '\n'), lines);
  }

  lemma LinesOfSplit(s: string, parts: seq<string>)
    requires Split(s, '\n') == parts && parts[|parts| - 1] != []
    requires forall k :: 0 <= k < |parts| - 1 ==> StripCr(parts[k]) == parts[k]
    ensures Lines(s) == parts
  {
    var ls := Lines(s);
    assert |ls| == |parts|;
    forall k | 0 <= k < |parts|
      ensures ls[k] == parts[k]
    {
      assert ls[k] == PieceAsLine(parts, k);
    }
  }

  /** A first line without a line break is peeled off by `Lines`. */
  lemma LinesCons(a: string, b: string)
    requires '\n' !in a
    ensures Lines(a + "\n" + b) == [StripCr(a)] + Lines(b)
  {
    var rest := Split(b, '\n');
    SplitAfter(a, '\n', b);
    LinesOfCons(a + "\n" + b, a, rest);
    var n := if rest[|rest| - 1] == [] then |rest| - 1 else |rest|;
    assert Lines(b) == seq(n, i requires 0 <= i < n => PieceAsLine(rest, i));
  }

  lemma LinesOfCons(s: string, a: string, rest: seq<string>)
    requires |rest| >= 1 && Split(s, '\n') == [a] + rest
    ensures Lines(s) == [StripCr(a)] + seq(if rest[|rest| - 1] == [] then |rest| - 1 else |rest|,
                                           i requires 0 <= i < |rest| => PieceAsLine(rest, i))
  {
    var parts := [a] + rest;
    var ls := Lines(s);
    forall i | 0 <= i < |ls| - 1
      ensures ls[i + 1] == PieceAsLine(rest, i)
    {
      assert parts[i + 1] == rest[i];
    }
  }

  /** `str::split_once(sep)` for a char separator. */
  function SplitOnce(s: string, sep: char): (r: Option<(string, string)>)
    ensures r.None? <==> sep !in s
    ensures r.Some? ==> s == r.value.0 + [sep] + r.value.1 && sep !in r.value.0
  {
    match IndexOf(s, sep)
    case None => None
    case Some(i) =>
      assert s == s[..i] + [sep] + s[i + 1..];
      Some((s[..i], s[i + 1..]))
  }

  predicate StartsWith(s: string, prefix: string) {
    |prefix| <= |s| && s[..|prefix|] == prefix
  }

  predicate EndsWith(s: string, suffix: string) {
    |suffix| <= |s| && s[|s| - |suffix|..] == suffix
  }

  /** `pat` occurs in `s` starting at position `k`. */
  predicate OccursAt(s: string, pat: string, k: int) {
    0 <= k && k + |pat| <= |s| && s[k..k + |pat|] == pat
  }

  /** The position of the first occurrence of `pat` in `s` at or after `from`. */
  function FindFrom(s: string, pat: string, from: nat): (r: Option<nat>)
    requires |pat| > 0
    ensures r.Some? ==> from <= r.value && OccursAt(s, pat, r.value)
    ensures r.Some? ==> forall k :: from <= k < r.value ==> !OccursAt(s, pat, k)
    ensures r.None? ==> forall k :: from <= k ==> !OccursAt(s, pat, k)
    decreases |s| - from
  {
    if from + |pat| > |s| then None
    else if s[from..from + |pat|] == pat then Some(from)
    else FindFrom(s, pat, from + 1)
  }

  /** `str::find(pat)`: the first position where `pat` occurs. */
  function Find(s: string, pat: string): (r: Option<nat>)
    requires |pat| > 0
    ensures r.Some? ==> OccursAt(s, pat, r.value)
    ensures r.Some? ==> forall k :: 0 <= k < r.value ==> !OccursAt(s, pat, k)
    ensures r.None? ==> forall k :: !OccursAt(s, pat, k)
  {
    FindFrom(s, pat, 0)
  }

  /** `str::split_once(pat)` for a string separator. */
  function SplitOnceStr(s: string, pat: string): (r: Option<(string, string)>)
    requires |pat| > 0
    ensures r.Some? ==> s == r.value.0 + pat + r.value.1
    ensures r.None? <==> Find(s, pat).None?
  {
    match Find(s, pat)
    case None => None
    case Some(i) =>
      assert s == s[..i] + pat + s[i + |pat|..];
      Some((s[..i], s[i + |pat|..]))
  }

  /** Searching from `from`, the first occurrence is at `at` when no earlier place starts like `pat`. */
  lemma {:induction false} FindFromSkips(s: string, pat: string, from: nat, at: nat)
    requires |pat| > 0 && from <= at && OccursAt(s, pat, at)
    requires forall k :: from <= k < at ==> s[k] != pat[0]
    ensures FindFrom(s, pat, from) == Some(at)
    decreases at - from
  {
    if from < at {
      assert s[from..from + |pat|][0] == s[from];
      FindFromSkips(s, pat, from + 1, at);
    }
  }

  /** `pat` is split off right after `a` when `a` holds no character `pat` starts with. */
  lemma SplitOnceStrAfter(a: string, pat: string, b: string)
    requires |pat| > 0 && pat[0] !in a
    ensures SplitOnceStr(a + pat + b, pat) == Some((a, b))
  {
    var s := a + pat + b;
    assert s[|a|..|a| + |pat|] == pat;
    FindFromSkips(s, pat, 0, |a|);
    assert s[..|a|] == a && s[|a| + |pat|..] == b;
  }

  /**
   * `pat` is found right after `a` when some character of `pat` occurs neither in `a`
   * nor earlier in `pat`.
   */
  lemma FindAfter(a: string, pat: string, b: string, j: nat)
    requires j < |pat| && pat[j] !in a
    requires forall i :: 0 <= i < j ==> pat[i] != pat[j]
    ensures Find(a + pat + b, pat) == Some(|a|)
  {
    var s := a + pat + b;
    assert s[|a|..|a| + |pat|] == pat;
    assert OccursAt(s, pat, |a|);
  }

  /** `str::split(pat)` for a string separator. */
  function SplitStr(s: string, pat: string): (parts: seq<string>)
    requires |pat| > 0
    ensures |parts| >= 1
    decreases |s|
  {
    match Find(s, pat)
    case None => [s]
    case Some(i) => [s[..i]] + SplitStr(s[i + |pat|..], pat)
  }

  predicate IsWhitespace(c: char) {
    c == ' ' || c == '\t' || c == '\n' || c == '\r' || c == '\U{B}' || c == '\U{C}'
  }

  function TrimStart(s: string): (r: string)
    ensures |r| <= |s| && r == s[|s| - |r|..]
    ensures r != [] ==> !IsWhitespace(r[0])
  {
    if s != [] && IsWhitespace(s[0]) then TrimStart(s[1..]) else s
  }

  function TrimEnd(s: string): (r: string)
    ensures |r| <= |s| && r == s[..|r|]
    ensures r != [] ==> !IsWhitespace(r[|r| - 1])
  {
    if s != [] && IsWhitespace(s[|s| - 1]) then TrimEnd(s[..|s| - 1]) else s
  }

  /** `str::trim` (ASCII whitespace only). */
  function Trim(s: string): string {
    TrimEnd(TrimStart(s))
  }

  /** Trimming a string after one leading space gives the string back when neither of its ends is whitespace. */
  lemma TrimLeadingSpace(x: string)
    requires x != [] && !IsWhitespace(x[0]) && !IsWhitespace(x[|x| - 1])
    ensures Trim([' '] + x) == x
  {
    var y := [' '] + x;
    assert y[0] == ' ' && y[1..] == x;
    assert TrimStart(y) == TrimStart(x);
    assert TrimStart(x) == x;
    assert TrimEnd(x) == x;
  }

  /** Trimming leaves a string alone when neither end is whitespace. */
  lemma TrimUnpadded(s: string)
    requires s != [] && !IsWhitespace(s[0]) && !IsWhitespace(s[|s| - 1])
    ensures Trim(s) == s
  {
  }

  predicate AllDigits(s: string) {
    forall i :: 0 <= i < |s| ==> IsDigit(s[i])
  }

  /** The value of a string of decimal digits, most significant first. */
  function DigitsValue(s: string): nat
    requires AllDigits(s)
  {
    if s == [] then 0 else DigitsValue(s[..|s| - 1]) * 10 + DigitValue(s[|s| - 1])
  }

  /** At least one decimal digit and nothing else. */
  function ParseDigits(digits: string): (r: Option<nat>)
    ensures r.Some? <==> digits != [] && AllDigits(digits)
  {
    if digits != [] && AllDigits(digits) then Some(DigitsValue(digits)) else None
  }

  /** `str::parse::<usize>()`: an optional '+' and at least one digit. */
  function ParseNat(s: string): (r: Option<nat>)
    ensures r.Some? ==> s != []
  {
    if |s| > 0 && s[0] == '+' then ParseDigits(s[1..]) else ParseDigits(s)
  }

  /** `usize::to_string`: the decimal digits of `n`, without leading zeros. */
  function NatToString(n: nat): (s: string)
    ensures s != [] && AllDigits(s) && DigitsValue(s) == n
    ensures ',' !in s && ' ' !in s && '\n' !in s && '+' !in s && ':' !in s
  {
    if n < 10 then [('0' as int + n) as char]
    else
      var s := NatToString(n / 10) + [('0' as int + n % 10) as char];
      assert s[..|s| - 1] == NatToString(n / 10);
      s
  }

  /** Printing a number and parsing it back gives the number. */
  lemma ParseNatToString(n: nat)
    ensures ParseNat(NatToString(n)) == Some(n)
  {
  }

  /** The parsed numbers of all pieces; None if any piece is not a number. */
  function ParseAll(parts: seq<string>): (r: Option<seq<nat>>)
    ensures r.Some? ==> |r.value| == |parts|
    ensures r.Some? ==> forall i :: 0 <= i < |parts| ==> ParseNat(parts[i]) == Some(r.value[i])
    ensures r.None? <==> exists i :: 0 <= i < |parts| && ParseNat(parts[i]).None?
  {
    if parts == [] then Some([])
    else
      match (ParseNat(parts[0]), ParseAll(parts[1..]))
      case (Some(v), Some(rest)) =>
        assert forall i :: 1 <= i < |parts| ==> parts[i] == parts[1..][i - 1];
        Some([v] + rest)
      case (None, _) => None
      case (_, None) =>
        var i :| 0 <= i < |parts[1..]| && ParseNat(parts[1..][i]).None?;
        assert ParseNat(parts[i + 1]).None?;
        None
  }

  /** The decimal texts of the numbers. */
  function Texts(ns: seq<nat>): (ts: seq<string>)
    ensures |ts| == |ns|
    ensures forall i :: 0 <= i < |ns| ==> ts[i] == NatToString(ns[i])
  {
    seq(|ns|, i requires 0 <= i < |ns| => NatToString(ns[i]))
  }

  lemma TextsCons(ns: seq<nat>)
    requires ns != []
    ensures Texts(ns) == [NatToString(ns[0])] + Texts(ns[1..])
  {
    var r := [NatToString(ns[0])] + Texts(ns[1..]);
    assert forall i :: 0 <= i < |ns| ==> r[i] == NatToString(ns[i]);
  }

  /** Printed numbers parse back one by one. */
  lemma ParseAllTexts(ns: seq<nat>)
    ensures ParseAll(Texts(ns)) == Some(ns)
  {
    var ts := Texts(ns);
    forall i | 0 <= i < |ns|
      ensures ParseNat(ts[i]) == Some(ns[i])
    {
      ParseNatToString(ns[i]);
    }
    var r := ParseAll(ts);
    assert r.Some?;
    assert r.value == ns;
  }

  /** `str::parse::<isize>()`: an optional sign and at least one digit. */
  function ParseInt(s: string): (r: Option<int>)
    ensures r.Some? ==> s != []
  {
    if |s| > 0 && s[0] == '-' then
      match ParseDigits(s[1..])
      case None => None
      case Some(n) => Some(-(n as int))
    else
      match ParseNat(s)
      case None => None
      case Some(n) => Some(n as int)
  }
}
