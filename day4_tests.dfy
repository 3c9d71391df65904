/** Day 4's tests: the points test, the rounds of `test_pile` and the totals of both part-2 examples. */
module Day4Tests {
  import opened Wrappers
  import opened Text
  import opened Day4Main

  // `test_part1`: three cards parsed from text, with their points.

  lemma SpacedOne(n: nat)
    requires n < 10
    ensures Spaced([n]) == [' ', ('0' as int + n) as char]
  {
    assert [n][1..] == [];
  }

  lemma SpacedFour(s: string)
    requires s == " 1 2 3 4"
    ensures Spaced([1, 2, 3, 4]) == s
  {
    SpacedOne(1);
    SpacedAppend([1], 2);
    assert [1] + [2] == [1, 2];
    SpacedAppend([1, 2], 3);
    assert [1, 2] + [3] == [1, 2, 3];
    SpacedAppend([1, 2, 3], 4);
    assert [1, 2, 3] + [4] == [1, 2, 3, 4];
  }

  lemma SpacedSmall(s: string, t: string)
    requires s == " 1 2 3 4" && t == " 1 2 3 4 5"
    ensures Spaced([1, 2, 3, 4]) == s && Spaced([1, 2, 3, 4, 5]) == t
  {
    SpacedFour(s);
    SpacedAppend([1, 2, 3, 4], 5);
    assert [1, 2, 3, 4] + [5] == [1, 2, 3, 4, 5];
  }

  lemma CardPrefixSmall(pad: nat, id: nat, prefix: string)
    requires id < 10 && pad <= 1
    requires prefix == "Card" + (if pad == 0 then " " else "  ") + [('0' as int + id) as char]
    ensures CardPrefix(pad, id) == prefix
  {
    assert Spaces(pad + 1) == if pad == 0 then " " else "  ";
  }

  /** The numbers of the first card of the points test. */
  lemma ShortNumbers(short: string)
    requires short == " 1 2 3 4 | 2 3"
    ensures CardNumbers([1, 2, 3, 4], [2, 3]) == short
  {
    SpacedSmall(" 1 2 3 4", " 1 2 3 4 5");
    SpacedOne(2);
    SpacedAppend([2], 3);
    assert [2] + [3] == [2, 3];
  }

  /** The numbers of the second and third cards of the points test. */
  lemma LongNumbers(long: string)
    requires long == " 1 2 3 4 | 1 2 3 4 5"
    ensures CardNumbers([1, 2, 3, 4], [1, 2, 3, 4, 5]) == long
  {
    SpacedSmall(" 1 2 3 4", " 1 2 3 4 5");
  }

  /** Two chosen numbers of which both win score 2. */
  lemma TwoMatches(c: Card)
    requires c.winning == [1, 2, 3, 4] && c.chosen == [2, 3]
    ensures Points(c) == 2
  {
    assert MatchCount([2, 3], c.winning) == 2;
  }

  /** Four winning numbers, all chosen, and one more chosen number that does not win: 8 points. */
  lemma FourMatches(d: Card, lo: seq<nat>, x: nat)
    requires |lo| == 4 && d.winning == lo && d.chosen == lo + [x] && x !in lo
    ensures Points(d) == 8
  {
    assert forall i :: 0 <= i < |lo| ==> lo[i] in d.winning;
    assert MatchCount(lo, d.winning) == 4;
    assert MatchCount([x], d.winning) == 0;
    MatchCountAppend(lo, [x], d.winning);
    assert Pow2(3) == 8;
  }

  /** A card with winning numbers 1 to 4 and chosen numbers 1 to 5 scores 8. */
  lemma LongScores(c: Card)
    requires c.winning == [1, 2, 3, 4] && c.chosen == [1, 2, 3, 4, 5]
    ensures Points(c) == 8
  {
    assert [1, 2, 3, 4] + [5] == [1, 2, 3, 4, 5];
    FourMatches(c, [1, 2, 3, 4], 5);
  }

  /** The points test's first card: "Card 1: 1 2 3 4 | 2 3" is card 1 and scores 2. */
  lemma PointsTestOne(one: string)
    requires one == "Card 1" + ":" + " 1 2 3 4 | 2 3"
    ensures ParseCard(one).Some? && ParseCard(one).value.id == 1 && Points(ParseCard(one).value) == 2
  {
    ShortNumbers(" 1 2 3 4 | 2 3");
    CardPrefixSmall(0, 1, "Card 1");
    ParseCardLine(0, 1, [1, 2, 3, 4], [2, 3]);
    TwoMatches(Card(1, false, [1, 2, 3, 4], [2, 3]));
  }

  /** The points test's second card: "Card 2: 1 2 3 4 | 1 2 3 4 5" is card 2 and scores 8. */
  lemma PointsTestTwo(two: string)
    requires two == "Card 2" + ":" + " 1 2 3 4 | 1 2 3 4 5"
    ensures ParseCard(two).Some? && ParseCard(two).value.id == 2 && Points(ParseCard(two).value) == 8
  {
    LongNumbers(" 1 2 3 4 | 1 2 3 4 5");
    CardPrefixSmall(0, 2, "Card 2");
    ParseCardLine(0, 2, [1, 2, 3, 4], [1, 2, 3, 4, 5]);
    LongScores(Card(2, false, [1, 2, 3, 4], [1, 2, 3, 4, 5]));
  }

  /** The points test's third card: "Card  3: 1 2 3 4 | 1 2 3 4 5", padded, is card 3 and scores 8. */
  lemma PointsTestThree(three: string)
    requires three == "Card  3" + ":" + " 1 2 3 4 | 1 2 3 4 5"
    ensures ParseCard(three).Some? && ParseCard(three).value.id == 3 && Points(ParseCard(three).value) == 8
  {
    LongNumbers(" 1 2 3 4 | 1 2 3 4 5");
    CardPrefixSmall(1, 3, "Card  3");
    ParseCardLine(1, 3, [1, 2, 3, 4], [1, 2, 3, 4, 5]);
    LongScores(Card(3, false, [1, 2, 3, 4], [1, 2, 3, 4, 5]));
  }

  // `test_pile`.

  /** The three cards of `test_pile`: "1 2 | 1 2", "3 4 | 3" and "5 6 | 6". */
  predicate PileCards(c1: Card, c2: Card, c3: Card) {
    c1 == Card(1, false, [1, 2], [1, 2]) && c2 == Card(2, false, [3, 4], [3])
    && c3 == Card(3, false, [5, 6], [6])
  }

  lemma PileMatches(c1: Card, c2: Card, c3: Card)
    requires PileCards(c1, c2, c3)
    ensures Matches(c1) == 2 && Matches(c2) == 1 && Matches(c3) == 1
    ensures Matches(Clone(c2)) == 1 && Matches(Clone(c3)) == 1
  {
  }

  lemma ReverseThree<T>(a: T, b: T, c: T)
    ensures Reverse([a, b, c]) == [c, b, a]
  {
  }

  // The pile after each round, bottom card first.

  lemma Round1(c1: Card, c2: Card, c3: Card)
    requires PileCards(c1, c2, c3)
    ensures Scratch([c3, c2, c1]) == [c3, c2, Clone(c3), Clone(c2)]
  {
    PileMatches(c1, c2, c3);
    assert [c3, c2, c1][..2] == [c3, c2];
    assert Reverse([c3, c2]) == [c2, c3];
    assert Copies([c2, c3], 1, 2) == [Clone(c2), Clone(c3)];
  }

  lemma Round2(c1: Card, c2: Card, c3: Card)
    requires PileCards(c1, c2, c3)
    ensures Scratch([c3, c2, Clone(c3), Clone(c2)]) == [c3, c2, Clone(c3), Clone(c3)]
  {
    PileMatches(c1, c2, c3);
    assert [c3, c2, Clone(c3), Clone(c2)][..3] == [c3, c2, Clone(c3)];
    ReverseThree(c3, c2, Clone(c3));
    assert [Clone(c3), c2, c3][1..] == [c2, c3] && [c2, c3][1..] == [c3];
    assert Copies([c3], 2, 1) == [Clone(c3)];
    assert Copies([c2, c3], 2, 1) == Copies([c3], 2, 1);
    assert Copies([Clone(c3), c2, c3], 2, 1) == [Clone(c3)];
  }

  lemma Round3(c1: Card, c2: Card, c3: Card)
    requires PileCards(c1, c2, c3)
    ensures Scratch([c3, c2, Clone(c3), Clone(c3)]) == [c3, c2, Clone(c3)]
  {
    PileMatches(c1, c2, c3);
    assert [c3, c2, Clone(c3), Clone(c3)][..3] == [c3, c2, Clone(c3)];
    ReverseThree(c3, c2, Clone(c3));
    assert [Clone(c3), c2, c3][1..] == [c2, c3] && [c2, c3][1..] == [c3];
    assert Copies([c3], 3, 1) == [];
    assert Copies([c2, c3], 3, 1) == Copies([c3], 3, 1);
    assert Copies([Clone(c3), c2, c3], 3, 1) == [];
  }

  lemma Round4(c1: Card, c2: Card, c3: Card)
    requires PileCards(c1, c2, c3)
    ensures Scratch([c3, c2, Clone(c3)]) == [c3, c2]
  {
    PileMatches(c1, c2, c3);
    assert [c3, c2, Clone(c3)][..2] == [c3, c2];
    assert Reverse([c3, c2]) == [c2, c3];
    assert Copies([c2, c3], 3, 1) == [];
  }

  lemma Round5(c1: Card, c2: Card, c3: Card)
    requires PileCards(c1, c2, c3)
    ensures Scratch([c3, c2]) == [c3, Clone(c3)]
  {
    PileMatches(c1, c2, c3);
    assert [c3, c2][..1] == [c3];
    assert Reverse([c3]) == [c3];
    assert Copies([c3], 2, 1) == [Clone(c3)];
  }

  lemma Round6(c1: Card, c2: Card, c3: Card)
    requires PileCards(c1, c2, c3)
    ensures Scratch([c3, Clone(c3)]) == [c3]
  {
    PileMatches(c1, c2, c3);
    assert [c3, Clone(c3)][..1] == [c3];
    assert Reverse([c3]) == [c3];
    assert Copies([c3], 3, 1) == [];
  }

  lemma Round7(c1: Card, c2: Card, c3: Card)
    requires PileCards(c1, c2, c3)
    ensures Scratch([c3]) == []
  {
    PileMatches(c1, c2, c3);
    assert [c3][..0] == [];
  }

  /** `test_pile` pops seven cards: the total for match counts 2, 1, 1. */
  lemma PileTotal(ms: seq<nat>)
    requires ms == [2, 1, 1]
    ensures Total(ms) == 7
  {
    assert Won(ms, 2) == 1;
    assert Won(ms, 1) == 2;
    assert WonRange(ms, 1, 3) == 3;
    assert Won(ms, 0) == 4;
  }

  /** `test_part2_example`: the total for the example's match counts 4, 2, 2, 1, 0, 0. */
  lemma ExampleTotal(ms: seq<nat>)
    requires ms == [4, 2, 2, 1, 0, 0]
    ensures Total(ms) == 30
  {
    assert WonRange(ms, 6, 6) == 0;
    assert Won(ms, 5) == 1;
    assert WonRange(ms, 5, 6) == 1 && WonRange(ms, 5, 5) == 0;
    assert Won(ms, 4) == 1;
    assert WonRange(ms, 4, 6) == 2 && WonRange(ms, 4, 5) == 1;
    assert Won(ms, 3) == 2;
    assert WonRange(ms, 3, 6) == 4 && WonRange(ms, 3, 5) == 3 && WonRange(ms, 3, 4) == 2;
    assert Won(ms, 2) == 4;
    assert WonRange(ms, 2, 6) == 8 && WonRange(ms, 2, 4) == 6;
    assert Won(ms, 1) == 7;
    assert WonRange(ms, 1, 6) == 15 && WonRange(ms, 1, 5) == 14;
    assert Won(ms, 0) == 15;
  }
}
