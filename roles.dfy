/** The two roles at the table: a player (hand, bankroll, bet) and the dealer (hand with a hole card). */
module Roles {
  import opened Options
  import opened Cards
  import opened Hands

  /** Every player sits down with this bankroll. */
  const StartingMoney: int := 50
  /** The dealer draws while the total is below this. */
  const DealerStand: int := 17

  /** Whether `ch` is one of the ASCII digits. */
  predicate IsDigit(ch: char) {
    '0' <= ch <= '9'
  }

  /** The number written by a string of ASCII digits, most significant digit first. */
  function DigitsValue(s: string): (n: nat)
    requires forall k :: 0 <= k < |s| ==> IsDigit(s[k])
    ensures n < Pow10(|s|)
  {
    if s == [] then 0
    else
      assert IsDigit(s[|s| - 1]);
      10 * DigitsValue(s[..|s| - 1]) + (s[|s| - 1] as int - '0' as int)
  }

  /** Ten to the power `k`. */
  function Pow10(k: nat): (p: nat)
    ensures p >= 1
  {
    if k == 0 then 1 else 10 * Pow10(k - 1)
  }

  /** The decimal numeral of `n`, without leading zeros. */
  function Decimal(n: nat): (s: string)
    ensures s != [] && forall k :: 0 <= k < |s| ==> IsDigit(s[k])
  {
    var last := ('0' as int + n % 10) as char;
    if n < 10 then [last] else Decimal(n / 10) + [last]
  }

  /**
   * One answer to the bet prompt: accepted when it is a non-empty string of digits
   * whose value does not exceed the bankroll. A bet of 0 is accepted.
   */
  function ParseBet(answer: string, money: int): (r: Option<nat>)
    ensures r.Some? ==> 0 <= r.value <= money
    ensures r.Some? ==> answer != [] && forall k :: 0 <= k < |answer| ==> IsDigit(answer[k])
  {
    if answer == [] || !(forall k :: 0 <= k < |answer| ==> IsDigit(answer[k])) then None
    else
      var bet := DigitsValue(answer);
      if bet > money then None else Some(bet)
  }

  /** Reading back a numeral gives the number. */
  lemma {:induction false} DigitsValueDecimal(n: nat)
    ensures DigitsValue(Decimal(n)) == n
  {
    var last := ('0' as int + n % 10) as char;
    if n >= 10 {
      DigitsValueDecimal(n / 10);
      var s := Decimal(n / 10) + [last];
      assert s[..|s| - 1] == Decimal(n / 10);
    }
  }

  /** Typing the numeral of a bet is accepted exactly when the bet does not exceed the bankroll. */
  lemma ParseBetDecimal(n: nat, money: int)
    ensures ParseBet(Decimal(n), money) == if n <= money then Some(n) else None
  {
    DigitsValueDecimal(n);
  }

  /** A bet of zero is accepted whenever the bankroll is not negative. */
  lemma ZeroBetAccepted(money: int)
    requires money >= 0
    ensures ParseBet("0", money) == Some(0)
  {
    assert DigitsValue("0"[..0]) == 0;
  }

  /** An empty answer or one with a non-digit is refused. */
  lemma NonDigitRefused(answer: string, money: int, k: int)
    requires 0 <= k < |answer| && !IsDigit(answer[k])
    ensures ParseBet(answer, money) == None
    ensures ParseBet("", money) == None
  {
  }

  /** Some answer of `answers` is an acceptable bet for a bankroll of `money`. */
  predicate SomeBetAccepted(answers: seq<string>, money: int) {
    exists k :: 0 <= k < |answers| && ParseBet(answers[k], money).Some?
  }

  /**
   * The bet prompt read the first `used` answers: every one before the last was refused,
   * and the last one was accepted as `bet`.
   */
  predicate BetTaken(answers: seq<string>, money: int, used: nat, bet: int) {
    1 <= used <= |answers| &&
    ParseBet(answers[used - 1], money).Some? && bet == ParseBet(answers[used - 1], money).value &&
    forall j :: 0 <= j < used - 1 ==> ParseBet(answers[j], money) == None
  }

  /** The prompt stops at the first accepted answer, so what it reads and the bet it takes are determined; the bet is covered. */
  lemma BetTakenUnique(answers: seq<string>, money: int, used1: nat, bet1: int, used2: nat, bet2: int)
    requires BetTaken(answers, money, used1, bet1) && BetTaken(answers, money, used2, bet2)
    ensures used1 == used2 && bet1 == bet2
    ensures 0 <= bet1 <= money
  {
  }

  /** The change of bankroll of a player who was not busted, given both totals and the bet. */
  function Payoff(player: int, dealer: int, bet: int): (d: int)
    ensures d == bet || d == 0 || d == -bet
    ensures dealer > 21 ==> d == bet
  {
    if dealer > 21 then bet
    else if player > dealer then bet
    else if player < dealer then -bet
    else 0
  }

  /**
   * Settling a round moves the bankroll by exactly the bet, up or down, or leaves it:
   * a dealer bust pays every player, and otherwise the strictly higher total wins.
   * A bankroll that covered the bet never becomes negative.
   */
  lemma PayoffRules(player: int, dealer: int, bet: int, money: int)
    requires 0 <= bet <= money
    ensures var d := Payoff(player, dealer, bet);
      (d == bet || d == 0 || d == -bet) && money + d >= 0
    ensures dealer > 21 ==> Payoff(player, dealer, bet) == bet
    ensures dealer <= 21 && player > dealer ==> Payoff(player, dealer, bet) == bet
    ensures dealer <= 21 && player < dealer ==> Payoff(player, dealer, bet) == -bet
    ensures dealer <= 21 && player == dealer ==> Payoff(player, dealer, bet) == 0
  {
  }

  /** A player: a hand, a bankroll and the bet of the current round. */
  class Player {
    const hand: Hand
    var money: int
    var bet: int

    /** A new player with the default bankroll and no bet. */
    constructor ()
      ensures fresh(hand) && hand.cards == []
      ensures money == StartingMoney && bet == 0
    {
      hand := new Hand();
      money := StartingMoney;
      bet := 0;
    }

    /**
     * The program's `place_the_bet`: reads answers until one is accepted and takes that
     * bet; refused answers change nothing. The program asks again forever, so an
     * accepted answer must come eventually. Returns how many answers were read.
     */
    method PlaceTheBet(answers: seq<string>) returns (used: nat)
      requires SomeBetAccepted(answers, money)
      modifies this`bet
      ensures BetTaken(answers, money, used, bet)
    {
      used := 0;
      while true
        invariant used <= |answers|
        invariant forall k :: 0 <= k < used ==> ParseBet(answers[k], money) == None
        decreases |answers| - used
      {
        var r := ParseBet(answers[used], money);
        used := used + 1;
        if r.Some? {
          bet := r.value;
          return;
        }
      }
    }

    /** The program's `won_the_round`: the bet is added to the bankroll. */
    method WonTheRound()
      modifies this`money
      ensures money == old(money) + bet
    {
      money := money + bet;
    }

    /** The program's `loose_the_round`: the bet is taken from the bankroll. */
    method LooseTheRound()
      modifies this`money
      ensures money == old(money) - bet
    {
      money := money - bet;
    }
  }

  /** The dealer: a hand whose last card of the first deal is kept face down. */
  class Dealer {
    const hand: Hand

    constructor ()
      ensures fresh(hand) && hand.cards == []
    {
      hand := new Hand();
    }

    /** The program's `is_shortfall`: the dealer must draw while the total is below 17. */
    predicate IsShortfall(): (short: bool)
      reads hand
      requires AllFaceUp(hand.cards)
      ensures short ==> Sum(hand.cards) < DealerStand && !IsWentOver(hand.cards)
    {
      TotalCost(hand.cards).value < DealerStand
    }

    /** The program's `flip_the_last_card`: turns over the last card; the program raises on an empty hand. */
    method FlipTheLastCard()
      requires hand.cards != []
      modifies hand
      ensures |hand.cards| == |old(hand.cards)|
      ensures hand.cards[..|hand.cards| - 1] == old(hand.cards)[..|hand.cards| - 1]
      ensures hand.cards[|hand.cards| - 1] == Flip(old(hand.cards)[|hand.cards| - 1])
    {
      hand.FlipLast();
    }
  }

  /**
   * The dealer's turn, from the hand `cards`, drew exactly `drawn`: every card was
   * drawn while the total was below 17, and the final total is 17 or more.
   */
  predicate DealerDraws(cards: seq<Card>, drawn: seq<Card>) {
    DrewBelowStand(cards, drawn) && Score(cards + drawn) >= DealerStand
  }

  /** Every card of `drawn` was drawn onto `cards` while the total was below 17. */
  predicate DrewBelowStand(cards: seq<Card>, drawn: seq<Card>) {
    forall n :: 0 <= n < |drawn| ==> Score(cards + drawn[..n]) < DealerStand
  }

  /** Drawing one more card on a total below 17 keeps every draw below 17. */
  lemma DrewBelowStandExtend(cards: seq<Card>, drawn: seq<Card>, c: Card)
    requires DrewBelowStand(cards, drawn) && Score(cards + drawn) < DealerStand
    ensures DrewBelowStand(cards, drawn + [c])
  {
    forall n | 0 <= n < |drawn| + 1
      ensures Score(cards + (drawn + [c])[..n]) < DealerStand
    {
      if n < |drawn| {
        assert (drawn + [c])[..n] == drawn[..n];
      } else {
        assert (drawn + [c])[..n] == drawn;
      }
    }
  }

  /** One card on a total below 17 gives at most 26. */
  lemma DrawBelowStand(cards: seq<Card>, c: Card)
    requires Score(cards) < DealerStand
    ensures Score(cards + [c]) <= 26
  {
    SumAppend(cards, c);
  }

  /**
   * The dealer's turn: a dealer already at 17 or more draws nothing, the drawn cards are
   * determined by the order of the shoe (a turn cannot stop earlier or later), and a
   * dealer who drew ends at 26 at most.
   */
  lemma DealerDrawsFacts(cards: seq<Card>, drawn: seq<Card>, other: seq<Card>)
    requires DealerDraws(cards, drawn)
    ensures Score(cards) >= DealerStand ==> drawn == []
    ensures drawn != [] ==> Score(cards + drawn) <= 26
    ensures DealerDraws(cards, other) && |other| <= |drawn| && other == drawn[..|other|] ==> other == drawn
  {
    if drawn != [] {
      var n := |drawn| - 1;
      assert cards + drawn[..n] + [drawn[n]] == cards + drawn;
      DrawBelowStand(cards + drawn[..n], drawn[n]);
      assert cards + drawn[..0] == cards;
    }
  }

  /** A hand of two cards is never over 21, so the first deal busts no one. */
  lemma TwoCardsNeverOver(a: Card, b: Card)
    ensures Score([a, b]) <= 21
  {
    SumAppend([], a);
    SumAppend([a], b);
    assert [] + [a] == [a] && [a] + [b] == [a, b];
  }
}
