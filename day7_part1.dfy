/**
 * Day 7, part 1 ("Camel Cards"): every line holds a hand of five cards and a bid.
 * Hands are ranked by their type first and card by card after that, and each bid
 * wins its amount times its hand's rank.
 */
module Day7Part1 {
  import opened Wrappers
  import opened Text

  /** The card characters from weakest to strongest; a card's value is its index here. */
  const CardOrder: string := "23456789TJQKA"
  const NumDifferentCards: nat := 13

  predicate IsCardChar(c: char) {
    c in CardOrder
  }

  /** `Card::from`: the card's strength, 0 for '2' up to 12 for 'A'; None is the panic. */
  function CardFrom(c: char): (r: Option<nat>)
    ensures r.Some? <==> IsCardChar(c)
    ensures r.Some? ==> r.value < NumDifferentCards && CardOrder[r.value] == c
  {
    match c
    case '2' => Some(0)
    case '3' => Some(1)
    case '4' => Some(2)
    case '5' => Some(3)
    case '6' => Some(4)
    case '7' => Some(5)
    case '8' => Some(6)
    case '9' => Some(7)
    case 'T' => Some(8)
    case 'J' => Some(9)
    case 'Q' => Some(10)
    case 'K' => Some(11)
    case 'A' => Some(12)
    case _ => None
  }

  /** Every strength is the value of exactly one card character. */
  lemma CardFromOrder(v: nat)
    requires v < NumDifferentCards
    ensures CardFrom(CardOrder[v]) == Some(v)
  {
    var r := CardFrom(CardOrder[v]);
    assert r.Some? && CardOrder[r.value] == CardOrder[v];
    assert forall a, b :: 0 <= a < b < |CardOrder| ==> CardOrder[a] != CardOrder[b];
  }

  /** Five card strengths, as `Cards` holds them. */
  predicate ValidCards(cards: seq<nat>) {
    |cards| == 5 && forall i :: 0 <= i < 5 ==> cards[i] < NumDifferentCards
  }

  predicate CardsReadable(s: string) {
    |s| >= 5 && forall i :: 0 <= i < 5 ==> IsCardChar(s[i])
  }

  /**
   * `Cards::parse`: the first five characters as cards; anything after them is ignored.
   * None is the panic on a short string or an unknown card.
   */
  function ParseCards(s: string): (r: Option<seq<nat>>)
    ensures r.Some? <==> CardsReadable(s)
    ensures r.Some? ==> ValidCards(r.value)
    ensures r.Some? ==> forall i :: 0 <= i < 5 ==> CardOrder[r.value[i]] == s[i]
  {
    if CardsReadable(s) then Some(seq(5, i requires 0 <= i < 5 => CardFrom(s[i]).value)) else None
  }

  /** The text of five cards. */
  function CardsText(cards: seq<nat>): (s: string)
    requires ValidCards(cards)
    ensures |s| == 5
  {
    seq(5, i requires 0 <= i < 5 => CardOrder[cards[i]])
  }

  /** Cards written out read back as the same cards. */
  lemma ParseCardsText(cards: seq<nat>)
    requires ValidCards(cards)
    ensures ParseCards(CardsText(cards)) == Some(cards)
  {
    var s := CardsText(cards);
    forall i | 0 <= i < 5
      ensures CardFrom(s[i]) == Some(cards[i])
    {
      CardFromOrder(cards[i]);
    }
    assert CardsReadable(s);
    var parsed := ParseCards(s).value;
    assert |parsed| == |cards| == 5;
    assert forall i :: 0 <= i < 5 ==> parsed[i] == cards[i];
    assert parsed == cards;
  }

  /** How many of the cards have strength `v`. */
  function Count(cards: seq<nat>, v: nat): nat {
    if cards == [] then 0
    else Count(cards[..|cards| - 1], v) + (if cards[|cards| - 1] == v then 1 else 0)
  }

  /** The 13 counters `from_cards` fills, one per card strength. */
  function CountsOf(cards: seq<nat>): (counts: seq<nat>)
    ensures |counts| == NumDifferentCards
  {
    seq(NumDifferentCards, v requires 0 <= v < NumDifferentCards => Count(cards, v))
  }

  /** Two different strengths together cannot occur more often than there are cards. */
  lemma {:induction false} CountPair(cards: seq<nat>, v: nat, w: nat)
    requires v != w
    ensures Count(cards, v) + Count(cards, w) <= |cards|
    decreases |cards|
  {
    if cards != [] {
      CountPair(cards[..|cards| - 1], v, w);
    }
  }

  /** A strength that some card has is counted at least once. */
  lemma {:induction false} CountMember(cards: seq<nat>, k: nat)
    requires k < |cards|
    ensures Count(cards, cards[k]) >= 1
    decreases |cards|
  {
    if k < |cards| - 1 {
      CountMember(cards[..|cards| - 1], k);
      CountAtMost(cards[..|cards| - 1], cards[k]);
    }
  }

  lemma {:induction false} CountAtMost(cards: seq<nat>, v: nat)
    ensures Count(cards, v) <= |cards|
    decreases |cards|
  {
    if cards != [] {
      CountAtMost(cards[..|cards| - 1], v);
    }
  }

  /** When not every card has strength `v`, some card has another strength. */
  lemma {:induction false} CountOther(cards: seq<nat>, v: nat) returns (k: nat)
    requires Count(cards, v) < |cards|
    ensures k < |cards| && cards[k] != v
    decreases |cards|
  {
    var n := |cards| - 1;
    if cards[n] != v {
      k := n;
    } else {
      k := CountOther(cards[..n], v);
    }
  }

  /**
   * The largest and second largest of a list of counts, kept the way the second loop
   * of `from_cards` keeps them: a new largest pushes the old one down to second place.
   */
  function TopTwo(counts: seq<nat>): (nat, nat) {
    if counts == [] then (0, 0)
    else
      var (largest, second) := TopTwo(counts[..|counts| - 1]);
      var count := counts[|counts| - 1];
      if count > largest then (count, largest)
      else if count > second then (largest, count)
      else (largest, second)
  }

  /**
   * The pair is what its name says: the largest count sits at some index `i`, the second
   * largest at another index `j`, and no count other than the one at `i` exceeds it.
   */
  lemma {:induction false} TopTwoWitness(counts: seq<nat>) returns (i: nat, j: nat)
    requires |counts| >= 1
    ensures i < |counts| && counts[i] == TopTwo(counts).0
    ensures TopTwo(counts).1 <= TopTwo(counts).0
    ensures forall k :: 0 <= k < |counts| && k != i ==> counts[k] <= TopTwo(counts).1
    ensures |counts| >= 2 ==> j < |counts| && j != i && counts[j] == TopTwo(counts).1
    decreases |counts|
  {
    var n := |counts| - 1;
    var init := counts[..n];
    var count := counts[n];
    if n == 0 {
      assert TopTwo(counts) == (if count > 0 then (count, 0) else (0, 0));
      i, j := 0, 0;
    } else {
      var i0, j0 := TopTwoWitness(init);
      var (largest, second) := TopTwo(init);
      assert forall k :: 0 <= k < n ==> counts[k] == init[k];
      if count > largest {
        i, j := n, i0;
      } else if count > second {
        i, j := i0, n;
      } else {
        i := i0;
        j := if n >= 2 then j0 else n;
      }
    }
  }

  datatype HandType =
    | FiveOfAKind
    | FourOfAKind
    | FullHouse
    | ThreeOfAKind
    | TwoPair
    | OnePair
    | HighCard

  /** The match at the end of `from_cards`; None is the panic on any other pair. */
  function Classify(largest: nat, second: nat): (r: Option<HandType>)
    ensures r.Some? ==> second <= largest && largest + second <= 5
  {
    match (largest, second)
    case (5, 0) => Some(FiveOfAKind)
    case (4, 1) => Some(FourOfAKind)
    case (3, 2) => Some(FullHouse)
    case (3, 1) => Some(ThreeOfAKind)
    case (2, 2) => Some(TwoPair)
    case (2, 1) => Some(OnePair)
    case (1, 1) => Some(HighCard)
    case _ => None
  }

  /**
   * Five cards always give one of the seven pairs, so the panic in `from_cards` cannot
   * happen: the two top counts belong to different strengths and add up to at most 5,
   * the largest is at least 1, and the second is 0 exactly when all five cards agree.
   */
  lemma FiveCardsClassified(cards: seq<nat>)
    requires ValidCards(cards)
    ensures Classify(TopTwo(CountsOf(cards)).0, TopTwo(CountsOf(cards)).1).Some?
  {
    var counts := CountsOf(cards);
    var (largest, second) := TopTwo(counts);
    var i, j := TopTwoWitness(counts);
    CountPair(cards, i, j);
    CountMember(cards, 0);
    assert counts[cards[0]] >= 1;
    assert largest >= 1;
    if largest < 5 {
      var k := CountOther(cards, i);
      CountMember(cards, k);
      assert counts[cards[k]] >= 1;
      assert second >= 1;
    }
  }

  /** The hand type of five cards, as `from_cards` computes it. */
  function HandTypeOf(cards: seq<nat>): HandType
    requires ValidCards(cards)
  {
    FiveCardsClassified(cards);
    var (largest, second) := TopTwo(CountsOf(cards));
    Classify(largest, second).value
  }

  /** The type is decided by the counts of two different strengths, and all others are not larger. */
  lemma HandTypeCounts(cards: seq<nat>) returns (v: nat, w: nat)
    requires ValidCards(cards)
    ensures v < NumDifferentCards && w < NumDifferentCards && v != w
    ensures Classify(Count(cards, v), Count(cards, w)) == Some(HandTypeOf(cards))
    ensures forall u :: 0 <= u < NumDifferentCards && u != v ==> Count(cards, u) <= Count(cards, w)
  {
    var counts := CountsOf(cards);
    v, w := TopTwoWitness(counts);
    assert counts[v] == Count(cards, v) && counts[w] == Count(cards, w);
    assert forall u :: 0 <= u < NumDifferentCards ==> counts[u] == Count(cards, u);
    FiveCardsClassified(cards);
    assert HandTypeOf(cards) == Classify(TopTwo(counts).0, TopTwo(counts).1).value;
  }

  /**
   * `HandType::from_cards`: counts every strength in a 13-entry array, then walks the
   * counters keeping the two largest, then classifies the pair.
   */
  method FromCards(cards: seq<nat>) returns (t: HandType)
    requires ValidCards(cards)
    ensures t == HandTypeOf(cards)
  {
    var counts := new nat[NumDifferentCards](_ => 0);
    for k := 0 to 5
      invariant forall v :: 0 <= v < NumDifferentCards ==> counts[v] == Count(cards[..k], v)
    {
      var index := cards[k];
      counts[index] := counts[index] + 1;
      assert cards[..k + 1][..k] == cards[..k];
    }
    assert cards[..5] == cards;
    assert counts[..] == CountsOf(cards);
    var largest, second := 0, 0;
    for k := 0 to NumDifferentCards
      invariant (largest, second) == TopTwo(counts[..k])
    {
      var count := counts[k];
      assert counts[..k + 1][..k] == counts[..k];
      if count > largest {
        second := largest;
        largest := count;
      } else if count > second {
        second := count;
      }
    }
    assert counts[..NumDifferentCards] == counts[..];
    FiveCardsClassified(cards);
    t := Classify(largest, second).value;
  }

  /** The immediate rank of a type in `type_ranking`, weakest 0 to strongest 6. */
  function TypeRank(t: HandType): (rank: nat)
    ensures rank <= 6
    ensures rank == 6 <==> t.FiveOfAKind?
    ensures rank == 0 <==> t.HighCard?
  {
    match t
    case FiveOfAKind => 6
    case FourOfAKind => 5
    case FullHouse => 4
    case ThreeOfAKind => 3
    case TwoPair => 2
    case OnePair => 1
    case HighCard => 0
  }

  /** Different types never share a rank. */
  lemma TypeRankInjective(s: HandType, t: HandType)
    ensures TypeRank(s) == TypeRank(t) ==> s == t
  {
  }

  /** `type_ranking`: the type's rank scaled past every highcard ranking. */
  function TypeRanking(cards: seq<nat>): nat
    requires ValidCards(cards)
  {
    TypeRank(HandTypeOf(cards)) * 1000000
  }

  function Pow13(e: nat): nat {
    if e == 0 then 1 else 13 * Pow13(e - 1)
  }

  /** The sum of `card * 13^(4 - index)` over the first `k` cards. */
  function HighcardSum(cards: seq<nat>, k: nat): nat
    requires k <= |cards| <= 5
  {
    if k == 0 then 0 else HighcardSum(cards, k - 1) + cards[k - 1] * Pow13(4 - (k - 1))
  }

  /**
   * `highcard_ranking`: the cards read as a five-digit number in base 13, first card
   * most significant, so it is below 13^5 = 371293 and thus below one type step.
   */
  function HighcardRanking(cards: seq<nat>): (r: nat)
    requires ValidCards(cards)
    ensures r == cards[0] * 28561 + cards[1] * 2197 + cards[2] * 169 + cards[3] * 13 + cards[4]
    ensures r < 371293 < 1000000
  {
    assert Pow13(1) == 13 && Pow13(2) == 169 && Pow13(3) == 2197 && Pow13(4) == 28561;
    assert HighcardSum(cards, 1) == cards[0] * 28561;
    assert HighcardSum(cards, 2) == HighcardSum(cards, 1) + cards[1] * 2197;
    assert HighcardSum(cards, 3) == HighcardSum(cards, 2) + cards[2] * 169;
    assert HighcardSum(cards, 4) == HighcardSum(cards, 3) + cards[3] * 13;
    HighcardSum(cards, 5)
  }

  /** The order of `Vec<Card>` in Rust: lexicographic on equally long lists. */
  predicate LexLess(a: seq<nat>, b: seq<nat>)
    requires |a| == |b|
    decreases |a|
  {
    |a| > 0 && (a[0] < b[0] || (a[0] == b[0] && LexLess(a[1..], b[1..])))
  }

  /** Of two different card lists of the same length, one comes first. */
  lemma {:induction false} LexTotal(a: seq<nat>, b: seq<nat>)
    requires |a| == |b| && a != b
    ensures LexLess(a, b) || LexLess(b, a)
    decreases |a|
  {
    if a[0] == b[0] {
      assert a == [a[0]] + a[1..] && b == [b[0]] + b[1..];
      LexTotal(a[1..], b[1..]);
    }
  }

  /** Five cards spelled out as the order compares them. */
  lemma LexLessFive(a: seq<nat>, b: seq<nat>)
    requires |a| == 5 && |b| == 5
    ensures LexLess(a, b) <==>
      a[0] < b[0] ||
      (a[0] == b[0] && a[1] < b[1]) ||
      (a[0] == b[0] && a[1] == b[1] && a[2] < b[2]) ||
      (a[0] == b[0] && a[1] == b[1] && a[2] == b[2] && a[3] < b[3]) ||
      (a[0] == b[0] && a[1] == b[1] && a[2] == b[2] && a[3] == b[3] && a[4] < b[4])
  {
    assert LexLess(a[4..], b[4..]) <==> a[4] < b[4] by {
      assert a[4..][1..] == [] && b[4..][1..] == [];
    }
    assert a[3..][1..] == a[4..] && b[3..][1..] == b[4..];
    assert LexLess(a[3..], b[3..]) <==> a[3] < b[3] || (a[3] == b[3] && a[4] < b[4]);
    assert a[2..][1..] == a[3..] && b[2..][1..] == b[3..];
    assert LexLess(a[2..], b[2..]) <==> a[2] < b[2] || (a[2] == b[2] && LexLess(a[3..], b[3..]));
    assert a[1..][1..] == a[2..] && b[1..][1..] == b[2..];
    assert LexLess(a[1..], b[1..]) <==> a[1] < b[1] || (a[1] == b[1] && LexLess(a[2..], b[2..]));
  }

  /** Comparing highcard rankings is comparing the cards one by one from the first. */
  lemma HighcardOrder(a: seq<nat>, b: seq<nat>)
    requires ValidCards(a) && ValidCards(b)
    ensures HighcardRanking(a) < HighcardRanking(b) <==> LexLess(a, b)
  {
    LexLessFive(a, b);
  }

  /** Different cards never share a highcard ranking. */
  lemma HighcardInjective(a: seq<nat>, b: seq<nat>)
    requires ValidCards(a) && ValidCards(b)
    ensures HighcardRanking(a) == HighcardRanking(b) ==> a == b
  {
    if a != b {
      LexTotal(a, b);
      HighcardOrder(a, b);
      HighcardOrder(b, a);
    }
  }

  /** `Cards::ranking`: the type ranking plus the highcard ranking. */
  function Ranking(cards: seq<nat>): nat
    requires ValidCards(cards)
  {
    TypeRanking(cards) + HighcardRanking(cards)
  }

  /**
   * The ranking orders hands by type first, and hands of one type card by card: the
   * type step of 1000000 is larger than any highcard ranking.
   */
  lemma RankingOrder(a: seq<nat>, b: seq<nat>)
    requires ValidCards(a) && ValidCards(b)
    ensures Ranking(a) < Ranking(b) <==>
      TypeRank(HandTypeOf(a)) < TypeRank(HandTypeOf(b)) ||
      (TypeRank(HandTypeOf(a)) == TypeRank(HandTypeOf(b)) && LexLess(a, b))
  {
    HighcardOrder(a, b);
    var ta, tb := TypeRank(HandTypeOf(a)), TypeRank(HandTypeOf(b));
    if ta < tb {
      assert ta * 1000000 + 1000000 <= tb * 1000000;
    } else if tb < ta {
      assert tb * 1000000 + 1000000 <= ta * 1000000;
    }
  }

  /** Two hands share a ranking only when they hold the same cards in the same order. */
  lemma RankingInjective(a: seq<nat>, b: seq<nat>)
    requires ValidCards(a) && ValidCards(b)
    ensures Ranking(a) == Ranking(b) ==> a == b
  {
    if a != b {
      LexTotal(a, b);
      RankingOrder(a, b);
      RankingOrder(b, a);
    }
  }

  /** A parsed line: only the ranking of the cards is kept, next to the bid. */
  datatype Hand = Hand(ranking: nat, bid: nat)

  /**
   * `Hand::parse`: cards and bid on either side of the first space. None is the panic
   * on a line without a space, unreadable cards or a bid that is not a number.
   */
  function ParseHand(line: string): (r: Option<Hand>)
    ensures r.Some? ==> exists cards :: ValidCards(cards) && r.value.ranking == Ranking(cards)
  {
    match SplitOnce(line, ' ')
    case None => None
    case Some((cardsText, bidText)) =>
      match ParseCards(cardsText)
      case None => None
      case Some(cards) =>
        match ParseNat(bidText)
        case None => None
        case Some(bid) => Some(Hand(Ranking(cards), bid))
  }

  /** A line written from cards and a bid reads back as that hand. */
  lemma ParseHandLine(cards: seq<nat>, bidText: string)
    requires ValidCards(cards) && ParseNat(bidText).Some?
    ensures ParseHand(CardsText(cards) + " " + bidText)
      == Some(Hand(Ranking(cards), ParseNat(bidText).value))
  {
    var text := CardsText(cards);
    assert forall i :: 0 <= i < 5 ==> text[i] != ' ';
    SplitOnceAfter(text, ' ', bidText);
    ParseCardsText(cards);
  }

  /** `Hand::winning`. */
  function Winning(hand: Hand, rank: nat): nat {
    hand.bid * rank
  }

  /** Ranks sorted ascending, as `sort_unstable` leaves the hands (Hand compares by ranking). */
  predicate Sorted(hands: seq<Hand>) {
    forall i, j :: 0 <= i <= j < |hands| ==> hands[i].ranking <= hands[j].ranking
  }

  predicate DistinctRankings(hands: seq<Hand>) {
    forall i, j :: 0 <= i < j < |hands| ==> hands[i].ranking != hands[j].ranking
  }

  /** Puts one hand into a sorted list in front of the first hand not ranked lower. */
  function Insert(hand: Hand, sorted: seq<Hand>): (r: seq<Hand>)
    requires Sorted(sorted)
    ensures Sorted(r)
    ensures multiset(r) == multiset(sorted) + multiset{hand}
    ensures r[0] == hand || (sorted != [] && r[0] == sorted[0])
  {
    if sorted == [] then [hand]
    else if hand.ranking <= sorted[0].ranking then
      SortedCons(hand, sorted);
      [hand] + sorted
    else
      var rest := Insert(hand, sorted[1..]);
      assert sorted == [sorted[0]] + sorted[1..];
      SortedCons(sorted[0], rest);
      [sorted[0]] + rest
  }

  /** A hand ranked no higher than the head of a sorted list can go in front of it. */
  lemma SortedCons(hand: Hand, sorted: seq<Hand>)
    requires Sorted(sorted) && (sorted != [] ==> hand.ranking <= sorted[0].ranking)
    ensures Sorted([hand] + sorted)
  {
  }

  /** The hands ordered by ranking, standing for `sort_unstable`. */
  function SortByRanking(hands: seq<Hand>): (sorted: seq<Hand>)
    ensures Sorted(sorted)
    ensures multiset(sorted) == multiset(hands)
  {
    if hands == [] then []
    else
      assert hands == hands[..|hands| - 1] + [hands[|hands| - 1]];
      Insert(hands[|hands| - 1], SortByRanking(hands[..|hands| - 1]))
  }

  /**
   * When no two hands share a ranking there is only one sorted order, so any sort,
   * stable or not, leaves the hands exactly as `SortByRanking` does.
   */
  lemma {:induction false} SortedUnique(a: seq<Hand>, b: seq<Hand>)
    requires Sorted(a) && Sorted(b) && DistinctRankings(a) && DistinctRankings(b)
    requires multiset(a) == multiset(b)
    ensures a == b
    decreases |a|
  {
    if a == [] {
      assert |b| == |multiset(b)| == 0;
    } else {
      assert b != [] by {
        assert a[0] in multiset(a);
      }
      SortedHeads(a, b);
      TailMultiset(a);
      TailMultiset(b);
      SortedTail(a);
      SortedTail(b);
      SortedUnique(a[1..], b[1..]);
      SameHeadTail(a, b);
    }
  }

  lemma SameHeadTail(a: seq<Hand>, b: seq<Hand>)
    requires a != [] && b != [] && a[0] == b[0] && a[1..] == b[1..]
    ensures a == b
  {
    assert a == [a[0]] + a[1..] && b == [b[0]] + b[1..];
  }

  lemma TailMultiset(a: seq<Hand>)
    requires a != []
    ensures multiset(a[1..]) == multiset(a) - multiset{a[0]}
  {
    assert a == [a[0]] + a[1..];
  }

  lemma SortedTail(a: seq<Hand>)
    requires Sorted(a) && DistinctRankings(a) && a != []
    ensures Sorted(a[1..]) && DistinctRankings(a[1..])
  {
  }

  /** Two sorted arrangements of hands with distinct rankings start with the same hand. */
  lemma SortedHeads(a: seq<Hand>, b: seq<Hand>)
    requires Sorted(a) && Sorted(b) && DistinctRankings(b)
    requires multiset(a) == multiset(b) && a != [] && b != []
    ensures a[0] == b[0]
  {
    assert a[0] in multiset(b);
    var k :| 0 <= k < |b| && b[k] == a[0];
    assert b[0] in multiset(a);
    var m :| 0 <= m < |a| && a[m] == b[0];
    assert a[0].ranking <= a[m].ranking;
    assert b[0].ranking <= b[k].ranking;
  }

  /** The sum of `winning(index + 1)` over the sorted hands. */
  function Winnings(sorted: seq<Hand>): nat {
    if sorted == [] then 0
    else Winnings(sorted[..|sorted| - 1]) + Winning(sorted[|sorted| - 1], |sorted|)
  }

  /** All hands of the input, or None if any line panics. */
  function ParseHands(lines: seq<string>): (r: Option<seq<Hand>>)
    ensures r.Some? <==> forall i :: 0 <= i < |lines| ==> ParseHand(lines[i]).Some?
    ensures r.Some? ==> |r.value| == |lines|
    ensures r.Some? ==> forall i :: 0 <= i < |lines| ==> r.value[i] == ParseHand(lines[i]).value
  {
    if forall i :: 0 <= i < |lines| ==> ParseHand(lines[i]).Some? then
      Some(seq(|lines|, i requires 0 <= i < |lines| => ParseHand(lines[i]).value))
    else None
  }

  /**
   * `part1`: the total winnings; None exactly when some line does not parse, where
   * the source panics. The total is that of the hands in some ascending order.
   */
  function Part1(input: string): (r: Option<nat>)
    ensures r.Some? <==> forall i :: 0 <= i < |Lines(input)| ==> ParseHand(Lines(input)[i]).Some?
    ensures r.Some? ==> exists sorted :: Sorted(sorted) && multiset(sorted) == multiset(ParseHands(Lines(input)).value)
                                         && r.value == Winnings(sorted)
  {
    match ParseHands(Lines(input))
    case None => None
    case Some(hands) =>
      var sorted := SortByRanking(hands);
      assert Sorted(sorted) && multiset(sorted) == multiset(hands);
      Some(Winnings(sorted))
  }

  /**
   * When no two hands of the input share a ranking, the answer is the winnings of
   * every sorted arrangement of the hands, whichever one the unstable sort picks.
   */
  lemma Part1AnySort(input: string, sorted: seq<Hand>)
    requires ParseHands(Lines(input)).Some?
    requires DistinctRankings(ParseHands(Lines(input)).value)
    requires Sorted(sorted) && multiset(sorted) == multiset(ParseHands(Lines(input)).value)
    ensures Part1(input) == Some(Winnings(sorted))
  {
    var hands := ParseHands(Lines(input)).value;
    var mine := SortByRanking(hands);
    DistinctPermuted(hands, mine);
    DistinctPermuted(hands, sorted);
    SortedUnique(mine, sorted);
  }

  /** A rearrangement of hands with distinct rankings has distinct rankings too. */
  lemma DistinctPermuted(hands: seq<Hand>, other: seq<Hand>)
    requires DistinctRankings(hands) && multiset(other) == multiset(hands)
    ensures DistinctRankings(other)
  {
    forall i, j | 0 <= i < j < |other|
      ensures other[i].ranking != other[j].ranking
    {
      if other[i].ranking == other[j].ranking {
        var x, y := other[i], other[j];
        assert x in multiset(hands) && y in multiset(hands);
        var p :| 0 <= p < |hands| && hands[p] == x;
        var q :| 0 <= q < |hands| && hands[q] == y;
        if p == q {
          assert x == y;
          var rest := other[..i] + other[i + 1..];
          assert other == other[..i] + [x] + other[i + 1..];
          assert y in rest by {
            assert rest[j - 1] == other[j];
          }
          assert multiset(other)[x] >= 2 by {
            assert multiset(other) == multiset(rest) + multiset{x};
          }
          MultiplicityOne(hands, p);
          assert false;
        }
      }
    }
  }

  /** In hands with distinct rankings every hand occurs once. */
  lemma MultiplicityOne(hands: seq<Hand>, p: nat)
    requires DistinctRankings(hands) && p < |hands|
    ensures multiset(hands)[hands[p]] == 1
  {
    var x := hands[p];
    var rest := hands[..p] + hands[p + 1..];
    assert hands == hands[..p] + [x] + hands[p + 1..];
    assert multiset(hands) == multiset(rest) + multiset{x};
    assert x !in rest by {
      forall k | 0 <= k < |rest|
        ensures rest[k] != x
      {
        if k < p {
          assert rest[k] == hands[k];
        } else {
          assert rest[k] == hands[k + 1];
        }
      }
    }
  }

  /** The cards of the two test hands; the bid after them is ignored. */
  lemma ExampleCards(s: string, t: string)
    requires s == "QTQTQ 42" && t == "TQQTQ 42"
    ensures ParseCards(s) == Some([10, 8, 10, 8, 10])
    ensures ParseCards(t) == Some([8, 10, 10, 8, 10])
  {
    assert CardFrom('Q') == Some(10) && CardFrom('T') == Some(8);
    assert CardsReadable(s) && CardsReadable(t);
    var p, q := ParseCards(s).value, ParseCards(t).value;
    assert p[0] == 10 && p[1] == 8 && p[2] == 10 && p[3] == 8 && p[4] == 10;
    assert q[0] == 8 && q[1] == 10 && q[2] == 10 && q[3] == 8 && q[4] == 10;
    assert p == [10, 8, 10, 8, 10];
    assert q == [8, 10, 10, 8, 10];
  }

  /** Counting a strength is taking its multiplicity among the cards. */
  lemma {:induction false} CountMultiset(cards: seq<nat>, v: nat)
    ensures Count(cards, v) == multiset(cards)[v]
    decreases |cards|
  {
    if cards != [] {
      var n := |cards| - 1;
      assert cards == cards[..n] + [cards[n]];
      CountMultiset(cards[..n], v);
    }
  }

  /**
   * The type follows from any strength `a` counted most often and any other strength
   * `b` counted most often among the rest, however ties between strengths fall.
   */
  lemma TypeFromCounts(cards: seq<nat>, a: nat, b: nat)
    requires ValidCards(cards) && a != b && a < NumDifferentCards && b < NumDifferentCards
    requires forall u :: 0 <= u < NumDifferentCards ==> Count(cards, u) <= Count(cards, a)
    requires forall u :: 0 <= u < NumDifferentCards && u != a ==> Count(cards, u) <= Count(cards, b)
    ensures Classify(Count(cards, a), Count(cards, b)) == Some(HandTypeOf(cards))
  {
    var v, w := HandTypeCounts(cards);
    var largest, second := Count(cards, v), Count(cards, w);
    assert second <= largest;
    assert Count(cards, a) == largest by {
      if a != v {
        assert Count(cards, a) <= second;
      }
    }
    assert Count(cards, b) == second by {
      if a == v {
        assert Count(cards, b) <= second;
        assert w != a;
      } else {
        assert Count(cards, b) >= Count(cards, v);
      }
    }
  }

  /** QTQTQ and TQQTQ are full houses. */
  lemma ExampleFullHouse(cards: seq<nat>)
    requires cards == [10, 8, 10, 8, 10] || cards == [8, 10, 10, 8, 10]
    ensures HandTypeOf(cards) == FullHouse
  {
    forall u: nat
      ensures Count(cards, u) == (if u == 10 then 3 else if u == 8 then 2 else 0)
    {
      CountMultiset(cards, u);
    }
    TypeFromCounts(cards, 10, 8);
  }

  /** QTQTQ ranks above TQQTQ, both being full houses, because its first card is higher. */
  lemma ExampleHighcard(a: seq<nat>, b: seq<nat>)
    requires a == [10, 8, 10, 8, 10] && b == [8, 10, 10, 8, 10]
    ensures HighcardRanking(a) > HighcardRanking(b)
    ensures Ranking(a) > Ranking(b)
  {
    ExampleFullHouse(a);
    ExampleFullHouse(b);
  }

  /** A bid of up to three digits reads as its decimal value. */
  lemma BidDigits(s: string)
    requires 1 <= |s| <= 3 && AllDigits(s)
    ensures ParseNat(s) == Some(DigitsValue(s))
    ensures |s| == 1 ==> DigitsValue(s) == DigitValue(s[0])
    ensures |s| == 2 ==> DigitsValue(s) == DigitValue(s[0]) * 10 + DigitValue(s[1])
    ensures |s| == 3 ==> DigitsValue(s) == DigitValue(s[0]) * 100 + DigitValue(s[1]) * 10 + DigitValue(s[2])
  {
    assert s[..1][..0] == [];
    if |s| >= 2 {
      assert s[..2][..1] == s[..1];
    }
    if |s| == 3 {
      assert s[..3] == s;
      assert s[..2] == s[..|s| - 1];
    } else if |s| == 2 {
      assert s[..1] == s[..|s| - 1];
    }
  }

  lemma JoinFive(lines: seq<string>)
    requires |lines| == 5
    ensures Join(lines, '\n')
      == lines[0] + "\n" + lines[1] + "\n" + lines[2] + "\n" + lines[3] + "\n" + lines[4]
  {
    var t1 := lines[1..];
    var t2 := t1[1..];
    var t3 := t2[1..];
    var t4 := t3[1..];
    assert Join(t4, '\n') == lines[4];
    assert Join(t3, '\n') == lines[3] + "\n" + Join(t4, '\n');
    assert Join(t2, '\n') == lines[2] + "\n" + Join(t3, '\n');
    assert Join(t1, '\n') == lines[1] + "\n" + Join(t2, '\n');
    assert Join(lines, '\n') == lines[0] + "\n" + Join(t1, '\n');
    Regroup(lines[0], lines[1], lines[2], lines[3], lines[4],
      Join(t1, '\n'), Join(t2, '\n'), Join(t3, '\n'), Join(lines, '\n'));
  }

  lemma Regroup(a: string, b: string, c: string, d: string, e: string,
                bs: string, cs: string, ds: string, all: string)
    requires ds == d + "\n" + e && cs == c + "\n" + ds && bs == b + "\n" + cs && all == a + "\n" + bs
    ensures all == a + "\n" + b + "\n" + c + "\n" + d + "\n" + e
  {
  }

  /** The five lines of the test input. */
  lemma ExampleLines(input: string, lines: seq<string>)
    requires input == "32T3K 765" + "\n" + "T55J5 684" + "\n" + "KK677 28" + "\n" + "KTJJT 220" + "\n" + "QQQJA 483"
    requires lines == ["32T3K 765", "T55J5 684", "KK677 28", "KTJJT 220", "QQQJA 483"]
    ensures Lines(input) == lines
  {
    JoinFive(lines);
    assert Join(lines, '\n') == input;
    LinesOfJoin(lines);
  }

  /** A test line read as its hand, once the type of its cards and the bid are known. */
  lemma ExampleHand(line: string, cards: seq<nat>, t: HandType, bidText: string, hand: Hand)
    requires ValidCards(cards) && HandTypeOf(cards) == t
    requires line == CardsText(cards) + " " + bidText
    requires ParseNat(bidText) == Some(hand.bid)
    requires hand.ranking == TypeRank(t) * 1000000 + HighcardRanking(cards)
    ensures ParseHand(line) == Some(hand)
  {
    assert Ranking(cards) == hand.ranking by {
      assert TypeRanking(cards) == TypeRank(t) * 1000000;
    }
    assert Hand(Ranking(cards), ParseNat(bidText).value) == hand;
    ParseHandLine(cards, bidText);
  }

  /**
   * The type of cards whose strengths are counted as a table: `ka` times `a`, `kb`
   * times `b`, `kc` times `c` and no other strength.
   */
  lemma TypeFromTable(cards: seq<nat>, a: nat, b: nat, c: nat, ka: nat, kb: nat, kc: nat)
    requires ValidCards(cards)
    requires a < NumDifferentCards && b < NumDifferentCards && a != b && a != c && b != c
    requires kc <= kb <= ka
    requires forall u: nat :: Count(cards, u) == (if u == a then ka else if u == b then kb else if u == c then kc else 0)
    ensures Classify(ka, kb) == Some(HandTypeOf(cards))
  {
    TypeFromCounts(cards, a, b);
  }

  /** 32T3K holds one pair. */
  lemma ExampleOnePair(cards: seq<nat>)
    requires cards == [1, 0, 8, 1, 11]
    ensures HandTypeOf(cards) == OnePair
  {
    forall u: nat
      ensures Count(cards, u) == (if u == 1 then 2 else if u == 0 then 1 else if u == 8 then 1 else if u == 11 then 1 else 0)
    {
      CountMultiset(cards, u);
    }
    TypeFromCounts(cards, 1, 0);
  }

  /** T55J5 holds three of a kind. */
  lemma ExampleThreeT55J5(cards: seq<nat>)
    requires cards == [8, 3, 3, 9, 3]
    ensures HandTypeOf(cards) == ThreeOfAKind
  {
    forall u: nat
      ensures Count(cards, u) == (if u == 3 then 3 else if u == 8 then 1 else if u == 9 then 1 else 0)
    {
      CountMultiset(cards, u);
    }
    TypeFromTable(cards, 3, 8, 9, 3, 1, 1);
  }

  /** QQQJA holds three of a kind. */
  lemma ExampleThreeQQQJA(cards: seq<nat>)
    requires cards == [10, 10, 10, 9, 12]
    ensures HandTypeOf(cards) == ThreeOfAKind
  {
    forall u: nat
      ensures Count(cards, u) == (if u == 10 then 3 else if u == 9 then 1 else if u == 12 then 1 else 0)
    {
      CountMultiset(cards, u);
    }
    TypeFromTable(cards, 10, 9, 12, 3, 1, 1);
  }

  /** KK677 holds two pairs. */
  lemma ExampleTwoPairKK677(cards: seq<nat>)
    requires cards == [11, 11, 4, 5, 5]
    ensures HandTypeOf(cards) == TwoPair
  {
    forall u: nat
      ensures Count(cards, u) == (if u == 11 then 2 else if u == 5 then 2 else if u == 4 then 1 else 0)
    {
      CountMultiset(cards, u);
    }
    TypeFromTable(cards, 11, 5, 4, 2, 2, 1);
  }

  /** KTJJT holds two pairs. */
  lemma ExampleTwoPairKTJJT(cards: seq<nat>)
    requires cards == [11, 8, 9, 9, 8]
    ensures HandTypeOf(cards) == TwoPair
  {
    forall u: nat
      ensures Count(cards, u) == (if u == 8 then 2 else if u == 9 then 2 else if u == 11 then 1 else 0)
    {
      CountMultiset(cards, u);
    }
    TypeFromTable(cards, 8, 9, 11, 2, 2, 1);
  }

  lemma ExampleLine0(line: string, cards: seq<nat>, bidText: string)
    requires line == "32T3K 765" && cards == [1, 0, 8, 1, 11] && bidText == "765"
    ensures ParseHand(line) == Some(Hand(1029937, 765))
  {
    ExampleOnePair(cards);
    assert CardsText(cards) == "32T3K";
    BidDigits(bidText);
    ExampleHand(line, cards, OnePair, bidText, Hand(1029937, 765));
  }

  lemma ExampleLine1(line: string, cards: seq<nat>, bidText: string)
    requires line == "T55J5 684" && cards == [8, 3, 3, 9, 3] && bidText == "684"
    ensures ParseHand(line) == Some(Hand(3235706, 684))
  {
    ExampleThreeT55J5(cards);
    assert CardsText(cards) == "T55J5";
    BidDigits(bidText);
    ExampleHand(line, cards, ThreeOfAKind, bidText, Hand(3235706, 684));
  }

  lemma ExampleLine2(line: string, cards: seq<nat>, bidText: string)
    requires line == "KK677 28" && cards == [11, 11, 4, 5, 5] && bidText == "28"
    ensures ParseHand(line) == Some(Hand(2339084, 28))
  {
    ExampleTwoPairKK677(cards);
    assert CardsText(cards) == "KK677";
    BidDigits(bidText);
    ExampleHand(line, cards, TwoPair, bidText, Hand(2339084, 28));
  }

  lemma ExampleLine3(line: string, cards: seq<nat>, bidText: string)
    requires line == "KTJJT 220" && cards == [11, 8, 9, 9, 8] && bidText == "220"
    ensures ParseHand(line) == Some(Hand(2333393, 220))
  {
    ExampleTwoPairKTJJT(cards);
    assert CardsText(cards) == "KTJJT";
    BidDigits(bidText);
    ExampleHand(line, cards, TwoPair, bidText, Hand(2333393, 220));
  }

  lemma ExampleLine4(line: string, cards: seq<nat>, bidText: string)
    requires line == "QQQJA 483" && cards == [10, 10, 10, 9, 12] && bidText == "483"
    ensures ParseHand(line) == Some(Hand(3309399, 483))
  {
    ExampleThreeQQQJA(cards);
    assert CardsText(cards) == "QQQJA";
    BidDigits(bidText);
    ExampleHand(line, cards, ThreeOfAKind, bidText, Hand(3309399, 483));
  }

  /** The hands of the test input: one pair, two three-of-a-kinds and two two-pairs. */
  lemma ExampleHands(lines: seq<string>, hands: seq<Hand>)
    requires lines == ["32T3K 765", "T55J5 684", "KK677 28", "KTJJT 220", "QQQJA 483"]
    requires hands == [Hand(1029937, 765), Hand(3235706, 684), Hand(2339084, 28),
                       Hand(2333393, 220), Hand(3309399, 483)]
    ensures ParseHands(lines) == Some(hands)
  {
    forall i | 0 <= i < 5
      ensures ParseHand(lines[i]) == Some(hands[i])
    {
      if i == 0 {
        ExampleLine0(lines[0], [1, 0, 8, 1, 11], "765");
      } else if i == 1 {
        ExampleLine1(lines[1], [8, 3, 3, 9, 3], "684");
      } else if i == 2 {
        ExampleLine2(lines[2], [11, 11, 4, 5, 5], "28");
      } else if i == 3 {
        ExampleLine3(lines[3], [11, 8, 9, 9, 8], "220");
      } else {
        ExampleLine4(lines[4], [10, 10, 10, 9, 12], "483");
      }
    }
    ParseHandsOf(lines, hands);
  }

  /** Lines that each read as the matching hand read as all those hands. */
  lemma ParseHandsOf(lines: seq<string>, hands: seq<Hand>)
    requires |lines| == |hands|
    requires forall i :: 0 <= i < |lines| ==> ParseHand(lines[i]) == Some(hands[i])
    ensures ParseHands(lines) == Some(hands)
  {
    assert ParseHands(lines).Some?;
    var parsed := ParseHands(lines).value;
    assert |parsed| == |hands|;
    assert forall i :: 0 <= i < |lines| ==> parsed[i] == hands[i];
    assert parsed == hands;
  }

  /** The test hands ordered by ranking, and what they win. */
  lemma ExampleWinnings(sorted: seq<Hand>)
    requires sorted == [Hand(1029937, 765), Hand(2333393, 220), Hand(2339084, 28),
                        Hand(3235706, 684), Hand(3309399, 483)]
    ensures Winnings(sorted) == 6440
  {
    assert sorted[..4][..3] == sorted[..3];
    assert sorted[..3][..2] == sorted[..2];
    assert sorted[..2][..1] == sorted[..1];
    assert sorted[..1][..0] == [];
    assert Winnings(sorted[..1]) == 765;
    assert Winnings(sorted[..2]) == 765 + 440;
    assert Winnings(sorted[..3]) == 765 + 440 + 84;
    assert Winnings(sorted[..4]) == 765 + 440 + 84 + 2736;
    assert sorted[..5] == sorted;
  }

  /** The test input wins 6440 in total. */
  lemma ExampleTotal(input: string)
    requires input == "32T3K 765" + "\n" + "T55J5 684" + "\n" + "KK677 28" + "\n" + "KTJJT 220" + "\n" + "QQQJA 483"
    ensures Part1(input) == Some(6440)
  {
    ExampleTotalOf(input,
      ["32T3K 765", "T55J5 684", "KK677 28", "KTJJT 220", "QQQJA 483"],
      [Hand(1029937, 765), Hand(3235706, 684), Hand(2339084, 28), Hand(2333393, 220), Hand(3309399, 483)]);
  }

  lemma ExampleTotalOf(input: string, lines: seq<string>, hands: seq<Hand>)
    requires input == "32T3K 765" + "\n" + "T55J5 684" + "\n" + "KK677 28" + "\n" + "KTJJT 220" + "\n" + "QQQJA 483"
    requires lines == ["32T3K 765", "T55J5 684", "KK677 28", "KTJJT 220", "QQQJA 483"]
    requires hands == [Hand(1029937, 765), Hand(3235706, 684), Hand(2339084, 28),
                       Hand(2333393, 220), Hand(3309399, 483)]
    ensures Part1(input) == Some(6440)
  {
    ExampleLines(input, lines);
    ExampleHands(lines, hands);
    var sorted := ExampleSorted(hands);
    Part1AnySort(input, sorted);
  }

  /** The test hands have distinct rankings, and ranked in order they win 6440. */
  lemma ExampleSorted(hands: seq<Hand>) returns (sorted: seq<Hand>)
    requires hands == [Hand(1029937, 765), Hand(3235706, 684), Hand(2339084, 28),
                       Hand(2333393, 220), Hand(3309399, 483)]
    ensures DistinctRankings(hands) && Sorted(sorted) && multiset(sorted) == multiset(hands)
    ensures Winnings(sorted) == 6440
  {
    sorted := [hands[0], hands[3], hands[2], hands[1], hands[4]];
    assert sorted == [hands[0]] + [hands[3]] + [hands[2]] + [hands[1]] + [hands[4]];
    assert hands == [hands[0]] + [hands[1]] + [hands[2]] + [hands[3]] + [hands[4]];
    ExampleWinnings(sorted);
  }
}
