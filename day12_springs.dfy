/**
 * Day 12: a row of springs held as two `u128` masks, bit i standing for the i-th spring of
 * the row: one mask for the springs known to be broken, one for the springs whose condition
 * is unknown; and the list of group sizes the row's broken springs must form.
 */
module Day12Springs {
  import opened Wrappers
  import opened Text

  /** The width of `u128`. */
  const Width: nat := 128

  /** A `u128`, bit i at index i. */
  type Mask = m: seq<bool> | |m| == Width witness seq(128, _ => false)

  /** `0` */
  function Zero(): (m: Mask)
    ensures forall i :: 0 <= i < Width ==> !m[i]
  {
    seq(Width, _ => false)
  }

  /** `m == 0` */
  predicate IsZero(m: Mask) {
    forall i :: 0 <= i < Width ==> !m[i]
  }

  /** `1 << k` */
  function Single(k: nat): Mask
    requires k < Width
  {
    seq(Width, i => i == k)
  }

  /** `(1 << k) - 1` */
  function LowMask(k: nat): Mask
    requires k < Width
  {
    seq(Width, i => i < k)
  }

  /** `a & b` */
  function And(a: Mask, b: Mask): Mask {
    seq(Width, i requires 0 <= i < Width => a[i] && b[i])
  }

  /** `a | b` */
  function Or(a: Mask, b: Mask): Mask {
    seq(Width, i requires 0 <= i < Width => a[i] || b[i])
  }

  /** `!a` */
  function Not(a: Mask): Mask {
    seq(Width, i requires 0 <= i < Width => !a[i])
  }

  /** `m << k`; Rust panics on a shift by the full width. */
  function Shl(m: Mask, k: nat): Mask
    requires k < Width
  {
    seq(Width, i requires 0 <= i < Width => i >= k && m[i - k])
  }

  /** `m >> k`; Rust panics on a shift by the full width. */
  function Shr(m: Mask, k: nat): Mask
    requires k < Width
  {
    seq(Width, i requires 0 <= i < Width => i + k < Width && m[i + k])
  }

  /** The first bit at or after `from` equal to `v`, or `Width` when there is none. */
  function FirstFrom(m: Mask, from: nat, v: bool): (r: nat)
    requires from <= Width
    ensures from <= r <= Width
    ensures forall i :: from <= i < r ==> m[i] != v
    ensures r < Width ==> m[r] == v
    decreases Width - from
  {
    if from == Width then Width
    else if m[from] == v then from
    else FirstFrom(m, from + 1, v)
  }

  /** `trailing_zeros`: the number of clear bits below the lowest set one. */
  function TrailingZeros(m: Mask): (r: nat)
    ensures r <= Width && (forall i :: 0 <= i < r ==> !m[i]) && (r < Width ==> m[r])
  {
    FirstFrom(m, 0, true)
  }

  /** `trailing_ones`: the number of set bits below the lowest clear one. */
  function TrailingOnes(m: Mask): (r: nat)
    ensures r <= Width && (forall i :: 0 <= i < r ==> m[i]) && (r < Width ==> !m[r])
  {
    FirstFrom(m, 0, false)
  }

  /** The positions of the set bits; its size is the mask's `count_ones`. */
  function Ones(m: Mask): set<nat> {
    set i: nat | i < Width && m[i]
  }

  function Min(a: nat, b: nat): nat {
    if a <= b then a else b
  }

  /** A row of springs: `broken_mask`, `unknown_mask` and `num_springs`. */
  datatype BitSprings = BitSprings(brokenMask: Mask, unknownMask: Mask, numSprings: nat)

  /**
   * The masks describe `numSprings` springs: no spring is both broken and unknown, and no
   * bit is set past the last spring.
   */
  predicate WellFormed(bs: BitSprings) {
    bs.numSprings <= Width &&
    forall i :: 0 <= i < Width ==>
      !(bs.brokenMask[i] && bs.unknownMask[i]) &&
      (i >= bs.numSprings ==> !bs.brokenMask[i] && !bs.unknownMask[i])
  }

  predicate IsSpringChar(c: char) {
    c == '.' || c == '#' || c == '?'
  }

  /**
   * A spring row `from_str` reads without panicking: only the three spring symbols, and no
   * more of them than a `u128` has bits (the shift `spring << index` overflows beyond).
   */
  predicate IsSpringText(s: string) {
    |s| <= Width && forall i :: 0 <= i < |s| ==> IsSpringChar(s[i])
  }

  /** The symbol the `Debug` output shows for a spring: unknown wins over broken. */
  function SpringChar(broken: bool, unknown: bool): char {
    if unknown then '?' else if broken then '#' else '.'
  }

  /** What `Debug` prints: one symbol per spring, first spring first. */
  function Show(bs: BitSprings): (s: string)
    requires bs.numSprings <= Width
    ensures |s| == bs.numSprings
  {
    seq(bs.numSprings, i requires 0 <= i < bs.numSprings => SpringChar(bs.brokenMask[i], bs.unknownMask[i]))
  }

  /**
   * `Debug::fmt`: read the lowest bit of both masks, print its symbol and shift both masks
   * down by one, once per spring.
   */
  method Format(bs: BitSprings) returns (s: string)
    requires bs.numSprings <= Width
    ensures s == Show(bs)
  {
    var broken := bs.brokenMask;
    var unknown := bs.unknownMask;
    s := [];
    for k := 0 to bs.numSprings
      invariant s == Show(bs)[..k]
      invariant ShiftedBy(broken, bs.brokenMask, k)
      invariant ShiftedBy(unknown, bs.unknownMask, k)
    {
      var spring := SpringChar(broken[0], unknown[0]);
      assert spring == Show(bs)[k];
      s := s + [spring];
      broken := Shr(broken, 1);
      unknown := Shr(unknown, 1);
      ShrShifted(broken, bs.brokenMask, k);
      ShrShifted(unknown, bs.unknownMask, k);
    }
    assert Show(bs)[..bs.numSprings] == Show(bs);
  }

  /** `m` is `orig >> k`. */
  predicate ShiftedBy(m: Mask, orig: Mask, k: nat) {
    forall i :: 0 <= i < Width ==> m[i] == (i + k < Width && orig[i + k])
  }

  lemma ShrShifted(m: Mask, orig: Mask, k: nat)
    requires exists prev: Mask :: ShiftedBy(prev, orig, k) && m == Shr(prev, 1)
    ensures ShiftedBy(m, orig, k + 1)
  {
  }

  /** The broken bit of a spring symbol. */
  predicate BrokenBit(c: char) {
    c == '#'
  }

  /** The unknown bit of a spring symbol. */
  predicate UnknownBit(c: char) {
    c == '?'
  }

  /** The `parse` helper of `from_str`: the bit of each symbol shifted to its index, all or-ed together. */
  function ParseMask(s: string, bit: char -> bool): (m: Mask)
    requires |s| <= Width
    ensures forall i :: 0 <= i < Width ==> m[i] == (i < |s| && bit(s[i]))
  {
    if s == [] then Zero()
    else
      var k := |s| - 1;
      Or(ParseMask(s[..k], bit), Shl(if bit(s[k]) then Single(0) else Zero(), k))
  }

  /** The part of a line before its first space, which `from_str` reads the springs from. */
  predicate SpringsReadable(line: string) {
    match SplitOnce(line, ' ')
    case None => true
    case Some(parts) => IsSpringText(parts.0)
  }

  /** `BitSprings::from_str`: None (the source's `Err(())`) for a line without a space. */
  function FromStr(line: string): (r: Option<BitSprings>)
    requires SpringsReadable(line)
    ensures r.None? <==> ' ' !in line
    ensures r.Some? ==>
      var s := SplitOnce(line, ' ').value.0;
      r.value.numSprings == |s| &&
      forall i :: 0 <= i < Width ==>
        (r.value.brokenMask[i] <==> i < |s| && s[i] == '#') &&
        (r.value.unknownMask[i] <==> i < |s| && s[i] == '?')
  {
    match SplitOnce(line, ' ')
    case None => None
    case Some(parts) =>
      var springStr := parts.0;
      Some(BitSprings(ParseMask(springStr, BrokenBit), ParseMask(springStr, UnknownBit), |springStr|))
  }

  /** A parsed row is well formed and prints back as the text it was read from. */
  lemma FromStrShows(line: string)
    requires SpringsReadable(line) && ' ' in line
    ensures WellFormed(FromStr(line).value)
    ensures Show(FromStr(line).value) == SplitOnce(line, ' ').value.0
  {
    var s := SplitOnce(line, ' ').value.0;
    var bs := FromStr(line).value;
    forall i | 0 <= i < |s|
      ensures Show(bs)[i] == s[i]
    {
      assert IsSpringChar(s[i]);
    }
  }

  /** A well-formed row printed and read back is the same row. */
  lemma ShowFromStr(bs: BitSprings, rest: string)
    requires WellFormed(bs)
    ensures SpringsReadable(Show(bs) + " " + rest)
    ensures FromStr(Show(bs) + " " + rest) == Some(bs)
  {
    var s := Show(bs);
    var line := s + " " + rest;
    assert ' ' !in s;
    SplitOnceAfter(s, ' ', rest);
    var parsed := FromStr(line).value;
    assert parsed.brokenMask == bs.brokenMask;
    assert parsed.unknownMask == bs.unknownMask;
  }

  /**
   * `collapse_next`: decide the lowest unknown spring both ways. The first copy has it
   * working, the second broken; both no longer count it as unknown.
   */
  function CollapseNext(bs: BitSprings): (r: Option<(BitSprings, BitSprings)>)
    ensures r.None? <==> IsZero(bs.unknownMask)
  {
    if IsZero(bs.unknownMask) then None
    else
      var index := TrailingZeros(bs.unknownMask);
      assert index < Width;
      var springMask := Single(index);
      var unknownMask := And(bs.unknownMask, Not(springMask));
      var brokenMaskA := And(bs.brokenMask, Not(springMask));
      var brokenMaskB := Or(bs.brokenMask, springMask);
      Some((BitSprings(brokenMaskA, unknownMask, bs.numSprings), BitSprings(brokenMaskB, unknownMask, bs.numSprings)))
  }

  /**
   * The two rows `collapse_next` returns are the row with its first '?' read as '.' and as
   * '#'; they are well formed, have one unknown spring fewer, and differ from the row in
   * that one bit only.
   */
  lemma CollapseNextMeaning(bs: BitSprings)
    requires WellFormed(bs) && !IsZero(bs.unknownMask)
    ensures var i := TrailingZeros(bs.unknownMask);
      var (a, b) := CollapseNext(bs).value;
      i < bs.numSprings && IndexOf(Show(bs), '?') == Some(i) &&
      WellFormed(a) && WellFormed(b) &&
      a.numSprings == bs.numSprings && b.numSprings == bs.numSprings &&
      a.unknownMask == bs.unknownMask[i := false] && b.unknownMask == bs.unknownMask[i := false] &&
      a.brokenMask == bs.brokenMask[i := false] && b.brokenMask == bs.brokenMask[i := true] &&
      Show(a) == Show(bs)[i := '.'] && Show(b) == Show(bs)[i := '#'] &&
      |Ones(a.unknownMask)| == |Ones(bs.unknownMask)| - 1
  {
    CollapseNextBits(bs);
    CollapseNextShows(bs);
  }

  /** The bits of the two collapsed rows. */
  lemma CollapseNextBits(bs: BitSprings)
    requires WellFormed(bs) && !IsZero(bs.unknownMask)
    ensures var i := TrailingZeros(bs.unknownMask);
      var (a, b) := CollapseNext(bs).value;
      i < bs.numSprings && WellFormed(a) && WellFormed(b) &&
      a.numSprings == bs.numSprings && b.numSprings == bs.numSprings &&
      a.unknownMask == bs.unknownMask[i := false] && b.unknownMask == bs.unknownMask[i := false] &&
      a.brokenMask == bs.brokenMask[i := false] && b.brokenMask == bs.brokenMask[i := true] &&
      |Ones(a.unknownMask)| == |Ones(bs.unknownMask)| - 1
  {
    var i := TrailingZeros(bs.unknownMask);
    var (a, b) := CollapseNext(bs).value;
    assert i < bs.numSprings by {
      assert bs.unknownMask[i];
    }
    assert a.unknownMask == bs.unknownMask[i := false];
    assert a.brokenMask == bs.brokenMask[i := false];
    assert b.brokenMask == bs.brokenMask[i := true];
    assert Ones(a.unknownMask) == Ones(bs.unknownMask) - {i};
  }

  /** The symbols of the two collapsed rows: the first '?' read both ways. */
  lemma CollapseNextShows(bs: BitSprings)
    requires WellFormed(bs) && !IsZero(bs.unknownMask)
    ensures var i := TrailingZeros(bs.unknownMask);
      var (a, b) := CollapseNext(bs).value;
      i < bs.numSprings && IndexOf(Show(bs), '?') == Some(i) &&
      Show(a) == Show(bs)[i := '.'] && Show(b) == Show(bs)[i := '#']
  {
    CollapseNextBits(bs);
    var i := TrailingZeros(bs.unknownMask);
    var (a, b) := CollapseNext(bs).value;
    var s := Show(bs);
    assert s[i] == '?';
    assert '?' !in s[..i];
    assert Show(a) == s[i := '.'];
    assert Show(b) == s[i := '#'];
  }

  /** `k` copies of `s` joined by '?', as `unfold` builds them: one copy, '?', then the rest. */
  function Copies(s: string, k: nat): (r: string)
    requires k >= 1
    ensures |r| == (|s| + 1) * k - 1
  {
    if k == 1 then s else s + "?" + Copies(s, k - 1)
  }

  /**
   * Each place of the unfolded row repeats a place of the original row, or is a joining '?':
   * place `r` of copy `q` is the original's place `r`, and the place just after a copy
   * (there is one after every copy but the last) is '?'.
   */
  lemma {:induction false} CopiesAt(s: string, k: nat, q: nat, r: nat)
    requires q < k && r <= |s| && (r < |s| || q < k - 1)
    ensures q * (|s| + 1) + r < |Copies(s, k)|
    ensures Copies(s, k)[q * (|s| + 1) + r] == if r == |s| then '?' else s[r]
  {
    var m := |s| + 1;
    var c := Copies(s, k);
    if q == 0 {
      if k > 1 {
        assert c == s + "?" + Copies(s, k - 1);
      }
    } else {
      var rest := Copies(s, k - 1);
      assert c == s + "?" + rest;
      CopiesAt(s, k - 1, q - 1, r);
      assert q * m + r == (q - 1) * m + r + m;
      assert c[q * m + r] == rest[(q - 1) * m + r];
    }
  }

  /** One round of `unfold`'s loop puts the original row and a '?' in front of the row built so far. */
  function UnfoldStep(cur: BitSprings, old0: BitSprings): (r: BitSprings)
    requires old0.numSprings < Width
  {
    var broken := Or(Shl(cur.brokenMask, 1), Zero());
    var unknown := Or(Shl(cur.unknownMask, 1), Single(0));
    var num := cur.numSprings + 1;
    BitSprings(
      Or(Shl(broken, old0.numSprings), old0.brokenMask),
      Or(Shl(unknown, old0.numSprings), old0.unknownMask),
      num + old0.numSprings)
  }

  lemma UnfoldStepShows(cur: BitSprings, old0: BitSprings)
    requires WellFormed(cur) && WellFormed(old0)
    requires cur.numSprings + old0.numSprings + 1 <= Width
    ensures WellFormed(UnfoldStep(cur, old0))
    ensures Show(UnfoldStep(cur, old0)) == Show(old0) + "?" + Show(cur)
  {
    var n := old0.numSprings;
    var r := UnfoldStep(cur, old0);
    forall i | 0 <= i < Width
      ensures r.brokenMask[i] == if i < n then old0.brokenMask[i] else i > n && cur.brokenMask[i - n - 1]
      ensures r.unknownMask[i] == if i < n then old0.unknownMask[i] else i == n || cur.unknownMask[i - n - 1]
    {
    }
    var t := Show(old0) + "?" + Show(cur);
    forall i | 0 <= i < r.numSprings
      ensures Show(r)[i] == t[i]
    {
      if i > n {
        assert t[i] == Show(cur)[i - n - 1];
      }
    }
  }

  /**
   * `BitSprings::unfold`, updating the row in place: `factor - 1` times shift in a '?' and
   * then a copy of the original row. A row that would not fit the masks panics, and so does
   * a factor of 0, whose loop bound `factor - 1` underflows.
   */
  method Unfold(bs: BitSprings, factor: nat) returns (r: BitSprings)
    requires WellFormed(bs)
    requires (bs.numSprings + 1) * factor <= Width
    requires factor >= 1
    ensures WellFormed(r)
    ensures Show(r) == Copies(Show(bs), factor)
  {
    var oldBroken := bs.brokenMask;
    var oldUnknown := bs.unknownMask;
    var oldNum := bs.numSprings;
    r := bs;
    for k := 0 to factor - 1
      invariant WellFormed(r)
      invariant Show(r) == Copies(Show(bs), k + 1)
      invariant r.numSprings == (oldNum + 1) * (k + 1) - 1
    {
      assert (oldNum + 1) * (k + 2) == (oldNum + 1) * (k + 1) + oldNum + 1;
      assert (oldNum + 1) * (k + 2) <= (oldNum + 1) * factor by {
        MulMono(oldNum + 1, k + 2, factor);
      }
      UnfoldStepShows(r, bs);
      var broken := Or(Shl(r.brokenMask, 1), Zero());
      var unknown := Or(Shl(r.unknownMask, 1), Single(0));
      var num := r.numSprings + 1;
      broken := Or(Shl(broken, oldNum), oldBroken);
      unknown := Or(Shl(unknown, oldNum), oldUnknown);
      num := num + oldNum;
      r := BitSprings(broken, unknown, num);
    }
  }

  lemma MulMono(a: nat, b: nat, c: nat)
    requires b <= c
    ensures a * b <= a * c
  {
  }

  /** The group sizes of a row. */
  datatype GroupSprings = GroupSprings(groups: seq<nat>)

  /** A group list `from_str` reads without panicking: every comma-separated part is a `usize`. */
  predicate GroupsReadable(line: string) {
    match SplitOnce(line, ' ')
    case None => true
    case Some(parts) =>
      var pieces := Split(parts.1, ',');
      forall j :: 0 <= j < |pieces| ==> ParseNat(pieces[j]).Some?
  }

  /** `GroupSprings::from_str`: the numbers after the first space, separated by commas. */
  function GroupsFromStr(line: string): (r: Option<GroupSprings>)
    requires GroupsReadable(line)
    ensures r.None? <==> ' ' !in line
    ensures r.Some? ==> |r.value.groups| == |Split(SplitOnce(line, ' ').value.1, ',')| >= 1
  {
    match SplitOnce(line, ' ')
    case None => None
    case Some(parts) =>
      var pieces := Split(parts.1, ',');
      Some(GroupSprings(seq(|pieces|, j requires 0 <= j < |pieces| => ParseNat(pieces[j]).value)))
  }

  /** `Debug` of a group list: the numbers joined by commas. */
  function ShowGroups(g: seq<nat>): string
    requires |g| >= 1
  {
    Join(seq(|g|, j requires 0 <= j < |g| => NatToString(g[j])), ',')
  }

  /** A non-empty group list printed after a row and read back is the same list. */
  lemma ShowGroupsFromStr(springs: string, g: seq<nat>)
    requires ' ' !in springs && |g| >= 1
    ensures GroupsReadable(springs + " " + ShowGroups(g))
    ensures GroupsFromStr(springs + " " + ShowGroups(g)) == Some(GroupSprings(g))
  {
    var line := springs + " " + ShowGroups(g);
    var parts := seq(|g|, j requires 0 <= j < |g| => NatToString(g[j]));
    SplitOnceAfter(springs, ' ', ShowGroups(g));
    SplitJoin(parts, ',');
    forall j | 0 <= j < |parts|
      ensures ParseNat(parts[j]) == Some(g[j])
    {
      assert parts[j][0] != '+';
    }
    assert GroupsFromStr(line).value.groups == g;
  }

  /** `GroupSprings::unfold`: the group list repeated `factor` times. */
  function UnfoldGroups(groups: seq<nat>, factor: nat): (r: seq<nat>)
  {
    if factor == 0 then [] else groups + UnfoldGroups(groups, factor - 1)
  }

  /** The unfolded list has `factor` times the groups, and place `r` of copy `q` is the original's place `r`. */
  lemma {:induction false} UnfoldGroupsAt(groups: seq<nat>, factor: nat, q: nat, r: nat)
    requires q < factor && r < |groups|
    ensures |UnfoldGroups(groups, factor)| == |groups| * factor
    ensures q * |groups| + r < |UnfoldGroups(groups, factor)|
    ensures UnfoldGroups(groups, factor)[q * |groups| + r] == groups[r]
  {
    var rest := UnfoldGroups(groups, factor - 1);
    assert UnfoldGroups(groups, factor) == groups + rest;
    UnfoldGroupsLength(groups, factor - 1);
    assert |groups| * factor == |groups| + |groups| * (factor - 1);
    if q > 0 {
      UnfoldGroupsAt(groups, factor - 1, q - 1, r);
      assert q * |groups| + r == (q - 1) * |groups| + r + |groups|;
    }
  }

  lemma {:induction false} UnfoldGroupsLength(groups: seq<nat>, factor: nat)
    ensures |UnfoldGroups(groups, factor)| == |groups| * factor
  {
    if factor > 0 {
      UnfoldGroupsLength(groups, factor - 1);
      assert |groups| * factor == |groups| + |groups| * (factor - 1);
    }
  }
}
