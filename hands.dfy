/** Hand valuation with the simplified soft-ace rule, and the Hand object itself. */
module Hands {
  import opened Options
  import opened Cards

  /** Sum of the card costs (every ace counted as 1). */
  function Sum(cards: seq<Card>): (s: nat)
    ensures |cards| <= s <= 10 * |cards|
    ensures (forall k :: 0 <= k < |cards| ==> cards[k].rank != Ace) ==> 2 * |cards| <= s
  {
    if cards == [] then 0
    else Sum(cards[..|cards| - 1]) + Cost(cards[|cards| - 1])
  }

  /** The program's `is_aces`: some card of the hand is an ace. */
  predicate HasAce(cards: seq<Card>) {
    exists k :: 0 <= k < |cards| && cards[k].rank == Ace
  }

  /**
   * The value of the hand as if every card were face up: the sum of the costs,
   * raised once by 10 when that sum is below 12 and some card is an ace.
   */
  function Score(cards: seq<Card>): (t: int)
    ensures Sum(cards) <= t <= Sum(cards) + 10
    ensures t != Sum(cards) ==> HasAce(cards) && t <= 21
  {
    var total := Sum(cards);
    if total < 12 && HasAce(cards) then total + 10 else total
  }

  /** The program's `total_cost`: no number (the program's '?') while any card is face down. */
  function TotalCost(cards: seq<Card>): (r: Option<int>)
    ensures r.Some? <==> AllFaceUp(cards)
    ensures r.Some? ==> r.value == Score(cards)
  {
    if !AllFaceUp(cards) then None else Some(Score(cards))
  }

  /** The program's `is_went_over`; comparing '?' with 21 raises, so the hand must be revealed. */
  predicate IsWentOver(cards: seq<Card>): (over: bool)
    requires AllFaceUp(cards)
    ensures over <==> Sum(cards) > 21
  {
    TotalCost(cards).value > 21
  }

  /** The program's `Hand.__lt__`: compares the two totals. */
  predicate Less(a: seq<Card>, b: seq<Card>): (lt: bool)
    requires AllFaceUp(a) && AllFaceUp(b)
    ensures lt ==> a != b && Sum(a) < Sum(b) + 10
  {
    TotalCost(a).value < TotalCost(b).value
  }

  /** The program's `Hand.__gt__`: compares the two totals. */
  predicate Greater(a: seq<Card>, b: seq<Card>): (gt: bool)
    requires AllFaceUp(a) && AllFaceUp(b)
    ensures gt <==> Less(b, a)
  {
    TotalCost(a).value > TotalCost(b).value
  }

  /** Appending a card adds its cost to the sum. */
  lemma SumAppend(cards: seq<Card>, c: Card)
    ensures Sum(cards + [c]) == Sum(cards) + Cost(c)
  {
    assert (cards + [c])[..|cards|] == cards;
  }

  /** Appending a card keeps an ace that was there and adds one when the card is an ace. */
  lemma HasAceAppend(cards: seq<Card>, c: Card)
    ensures HasAce(cards + [c]) <==> HasAce(cards) || c.rank == Ace
  {
    var t := cards + [c];
    if HasAce(cards) {
      var k :| 0 <= k < |cards| && cards[k].rank == Ace;
      assert t[k] == cards[k];
    }
    if c.rank == Ace {
      assert t[|cards|] == c;
    }
    if HasAce(t) {
      var k :| 0 <= k < |t| && t[k].rank == Ace;
      if k < |cards| {
        assert cards[k] == t[k];
      }
    }
  }

  /**
   * The total is the sum of the costs, plus exactly 10 when that sum is below 12
   * and the hand holds an ace, whatever the number of aces; the extra 10 never
   * takes the total past 21.
   */
  lemma TotalCostRule(cards: seq<Card>)
    requires AllFaceUp(cards)
    ensures TotalCost(cards).Some?
    ensures var t := TotalCost(cards).value;
      (t == Sum(cards) + 10 <==> Sum(cards) < 12 && HasAce(cards)) &&
      (t == Sum(cards) <==> !(Sum(cards) < 12 && HasAce(cards)))
    ensures TotalCost(cards).value != Sum(cards) ==> TotalCost(cards).value <= 21
  {
  }

  /** Number of aces in the hand. */
  function Aces(cards: seq<Card>): (n: nat)
    ensures n <= |cards|
  {
    if cards == [] then 0
    else Aces(cards[..|cards| - 1]) + (if cards[|cards| - 1].rank == Ace then 1 else 0)
  }

  /** Every ace counts at least 1 in the sum, and a hand holds an ace exactly when it counts one. */
  lemma {:induction false} AcesCount(cards: seq<Card>)
    ensures Aces(cards) <= Sum(cards)
    ensures HasAce(cards) <==> Aces(cards) > 0
  {
    if cards != [] {
      var init, c := cards[..|cards| - 1], cards[|cards| - 1];
      AcesCount(init);
      assert cards == init + [c];
      HasAceAppend(init, c);
    }
  }

  /** The hand is worth `Sum + 10 * j` when `j` of its aces count 11 instead of 1. */
  function SoftValue(cards: seq<Card>, j: nat): int {
    Sum(cards) + 10 * j
  }

  /**
   * The usual reading of the ace rule: `t` counts some number j of the aces as 11,
   * stays at 21 or below unless no ace is counted as 11, and no other choice of
   * aces that stays at 21 or below is worth more.
   */
  ghost predicate BestTotal(cards: seq<Card>, t: int) {
    (exists j: nat :: j <= Aces(cards) && t == SoftValue(cards, j) && (t <= 21 || j == 0)) &&
    forall i: nat :: i <= Aces(cards) && SoftValue(cards, i) <= 21 ==> SoftValue(cards, i) <= t
  }

  /**
   * Adding 10 once, as the program does, gives the total of the usual rule: with two
   * or more aces, counting a second one as 11 would always take the hand past 21.
   */
  lemma ScoreIsBestTotal(cards: seq<Card>)
    ensures BestTotal(cards, Score(cards))
  {
    AcesCount(cards);
    var s := Sum(cards);
    if s < 12 && HasAce(cards) {
      assert SoftValue(cards, 1) == Score(cards);
      forall i: nat | i <= Aces(cards) && SoftValue(cards, i) <= 21
        ensures SoftValue(cards, i) <= Score(cards)
      {
      }
    } else {
      assert SoftValue(cards, 0) == Score(cards);
      forall i: nat | i <= Aces(cards) && SoftValue(cards, i) <= 21
        ensures SoftValue(cards, i) <= Score(cards)
      {
      }
    }
  }

  /** The usual rule determines the total: two totals that both meet it are equal. */
  lemma BestTotalUnique(cards: seq<Card>, t1: int, t2: int)
    requires BestTotal(cards, t1) && BestTotal(cards, t2)
    ensures t1 == t2
  {
    var j1: nat :| j1 <= Aces(cards) && t1 == SoftValue(cards, j1) && (t1 <= 21 || j1 == 0);
    var j2: nat :| j2 <= Aces(cards) && t2 == SoftValue(cards, j2) && (t2 <= 21 || j2 == 0);
    if t1 <= 21 && t2 <= 21 {
      assert SoftValue(cards, j1) <= t2 && SoftValue(cards, j2) <= t1;
    } else {
      assert j1 == 0 || j2 == 0;
    }
  }

  /** An ace and a nine are worth 20. */
  lemma AceNineIsTwenty(s1: SuitIndex, s2: SuitIndex)
    ensures TotalCost([Card(Ace, s1, true), Card(7, s2, true)]) == Some(20)
  {
    var a, nine := Card(Ace, s1, true), Card(7, s2, true);
    SumAppend([], a);
    SumAppend([a], nine);
    assert [] + [a] == [a] && [a] + [nine] == [a, nine];
    assert [a, nine][0].rank == Ace;
  }

  /** Two aces are worth 12: the 10 is added only once. */
  lemma TwoAcesAreTwelve(s1: SuitIndex, s2: SuitIndex)
    ensures TotalCost([Card(Ace, s1, true), Card(Ace, s2, true)]) == Some(12)
  {
    var a1, a2 := Card(Ace, s1, true), Card(Ace, s2, true);
    SumAppend([], a1);
    SumAppend([a1], a2);
    assert [] + [a1] == [a1] && [a1] + [a2] == [a1, a2];
    assert [a1, a2][0].rank == Ace;
  }

  /** Three aces and an eight are worth 21 (11 + 10), not 31. */
  lemma ThreeAcesAndEight(s: SuitIndex)
    ensures Score([Card(Ace, s, true), Card(Ace, s, true), Card(Ace, s, true), Card(6, s, true)]) == 21
  {
    var a := Card(Ace, s, true);
    var eight := Card(6, s, true);
    var one, two, three := [a], [a, a], [a, a, a];
    SumAppend([], a);
    assert [] + [a] == one;
    SumAppend(one, a);
    assert one + [a] == two;
    SumAppend(two, a);
    assert two + [a] == three;
    SumAppend(three, eight);
    assert three + [eight] == [a, a, a, eight];
    assert [a, a, a, eight][0].rank == Ace;
  }

  /** Every card adds at least one point to the sum, so a hand that only grows is bounded in draws. */
  lemma {:induction false} SumPrefix(cards: seq<Card>, n: nat)
    requires n <= |cards|
    ensures Sum(cards[..n]) + (|cards| - n) <= Sum(cards)
    decreases |cards| - n
  {
    if n < |cards| {
      SumPrefix(cards, n + 1);
      assert cards[..n + 1] == cards[..n] + [cards[n]];
      SumAppend(cards[..n], cards[n]);
    } else {
      assert cards[..n] == cards;
    }
  }

  /** `is_went_over` holds exactly when the total exceeds 21. */
  lemma WentOverIffAbove21(cards: seq<Card>)
    requires AllFaceUp(cards)
    ensures IsWentOver(cards) <==> Score(cards) > 21
    ensures IsWentOver(cards) ==> Sum(cards) > 21
  {
  }

  /** `<` compares the totals; the comparisons are strict and each is the other one reversed. */
  lemma LessGreaterDual(a: seq<Card>, b: seq<Card>)
    requires AllFaceUp(a) && AllFaceUp(b)
    ensures Less(a, b) <==> Score(a) < Score(b)
    ensures Greater(a, b) <==> Less(b, a)
    ensures !(Less(a, b) && Greater(a, b))
    ensures !Less(a, b) && !Greater(a, b) <==> Score(a) == Score(b)
  {
  }

  /** A hand: the ordered cards it holds. */
  class Hand {
    var cards: seq<Card>

    constructor ()
      ensures cards == []
    {
      cards := [];
    }

    /** The program's `get_card`: appends the card. */
    method GetCard(c: Card)
      modifies this
      ensures cards == old(cards) + [c]
    {
      cards := cards + [c];
    }

    /** The program's `clear`: drops every card. */
    method Clear()
      modifies this
      ensures cards == []
    {
      cards := [];
    }

    /** Turns the last card over; the program raises on an empty hand. */
    method FlipLast()
      requires cards != []
      modifies this
      ensures |cards| == |old(cards)|
      ensures cards[..|cards| - 1] == old(cards)[..|cards| - 1]
      ensures cards[|cards| - 1] == Flip(old(cards)[|cards| - 1])
    {
      var n := |cards|;
      cards := cards[..n - 1] + [Flip(cards[n - 1])];
    }
  }
}
