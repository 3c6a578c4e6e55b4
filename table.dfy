/** The table: the shoe, the dealer and the seated players, and the round they play. */
module Table {
  import opened Options
  import opened Cards
  import opened Hands
  import opened Shoe
  import opened Roles
  import opened Rounds

  /** The hands of the players, in seat order. */
  function HandsOf(ps: seq<Player>): seq<Hand> {
    seq(|ps|, k requires 0 <= k < |ps| => ps[k].hand)
  }

  /** For each player in seat order, whether the bankroll is exactly 0. */
  function Bankrupt(ps: seq<Player>): (broke: seq<bool>)
    reads set p | p in ps
    ensures |broke| == |ps| && forall k :: 0 <= k < |ps| ==> broke[k] == (ps[k].money == 0)
  {
    seq(|ps|, k requires 0 <= k < |ps| reads set p | p in ps => ps[k].money == 0)
  }

  /** The cards of each player's hand, in seat order. */
  ghost function CardsOf(ps: seq<Player>): (r: seq<seq<Card>>)
    reads set p | p in ps, set p | p in ps :: p.hand
    ensures |r| == |ps| && forall k :: 0 <= k < |ps| ==> r[k] == ps[k].hand.cards
  {
    seq(|ps|, k requires 0 <= k < |ps| reads set p | p in ps, set p | p in ps :: p.hand => ps[k].hand.cards)
  }

  /** The cards of each hand of `hands`, in order. */
  ghost function CardsIn(hands: seq<Hand>): (r: seq<seq<Card>>)
    reads set h | h in hands
    ensures |r| == |hands| && forall k :: 0 <= k < |hands| ==> r[k] == hands[k].cards
  {
    seq(|hands|, k requires 0 <= k < |hands| reads set h | h in hands => hands[k].cards)
  }

  /** The bankroll and the bet of each player, in seat order. */
  ghost function StakesOf(ps: seq<Player>): (r: seq<(int, int)>)
    reads set p | p in ps
    ensures |r| == |ps| && forall k :: 0 <= k < |ps| ==> r[k] == (ps[k].money, ps[k].bet)
  {
    seq(|ps|, k requires 0 <= k < |ps| reads set p | p in ps => (ps[k].money, ps[k].bet))
  }

  /** The bankrolls of `ps`, seat by seat. */
  ghost function MoneyOf(ps: seq<Player>): (r: seq<int>)
    reads set p | p in ps
    ensures |r| == |ps| && forall k :: 0 <= k < |ps| ==> r[k] == ps[k].money
  {
    seq(|ps|, k requires 0 <= k < |ps| reads set p | p in ps => ps[k].money)
  }

  /**
   * A player took a turn that read `answers[from..to]`, starting from the hand `before`
   * and the bankroll `money0`, and ending with the face-up hand `after` and the bankroll `money`.
   */
  predicate TurnTaken(before: seq<Card>, after: seq<Card>, money0: int, money: int, bet: int,
                      answers: seq<Answer>, from: nat, to: nat)
  {
    from <= to <= |answers| && AllFaceUp(after) &&
    TurnOutcome(before, after, answers[from..], to - from, money0, money, bet)
  }

  /** For each player in seat order, whether the player is among `remaining`. */
  function InSeats(ps: seq<Player>, remaining: seq<Player>): (r: seq<bool>)
    ensures |r| == |ps| && forall k :: 0 <= k < |ps| ==> r[k] == (ps[k] in remaining)
  {
    seq(|ps|, k requires 0 <= k < |ps| => ps[k] in remaining)
  }

  /**
   * The turns of the seats before k are over: seat j read the answers from `starts[j]`
   * to `starts[j + 1]`, from the hand `cards0[j]` and the stakes `stakes0[j]` (bankroll,
   * bet) to the hand `cards[j]` and the stakes `stakes[j]`, and stays in (`stillIn[j]`)
   * exactly when it did not go over. The later seats are untouched and still in; no bet changed.
   */
  predicate SeatsDone(k: nat, answers: seq<Answer>, starts: seq<nat>, cards0: seq<seq<Card>>, stakes0: seq<(int, int)>,
                      cards: seq<seq<Card>>, stakes: seq<(int, int)>, stillIn: seq<bool>)
  {
    k <= |cards0| && |cards| == |stakes| == |stillIn| == |stakes0| == |cards0| &&
    |starts| == k + 1 && starts[0] == 0 && starts[k] <= |answers| &&
    (forall j :: 0 <= j < |cards0| ==> stakes[j].1 == stakes0[j].1) &&
    (forall j :: 0 <= j < k ==>
      TurnTaken(cards0[j], cards[j], stakes0[j].0, stakes[j].0, stakes[j].1, answers, starts[j], starts[j + 1]) &&
      (stillIn[j] <==> !Busted(cards0[j], cards[j]))) &&
    (forall j :: k <= j < |cards0| ==> cards[j] == cards0[j] && stakes[j] == stakes0[j] && stillIn[j])
  }

  /**
   * A turn below 21 after `used` answers: the hand grew from `cards0` by the cards `drawn`,
   * and the shoe's record grew from `log0` by the same cards.
   */
  predicate TurnSoFar(cards0: seq<Card>, answers: seq<Answer>, used: nat, drawn: seq<Card>,
                      log0: seq<Card>, log: seq<Card>, cards: seq<Card>)
  {
    used <= |answers| && log == log0 + drawn && cards == cards0 + drawn && AllFaceUp(cards) &&
    Ongoing(cards0, answers, used, drawn)
  }

  /**
   * The turns of the seats before k, as `SeatsDone` records them, with the shoe's record:
   * from `log0` it grew by what those seats drew, seat after seat, and the shoe `shoe0`
   * handed out exactly those cards.
   */
  predicate TurnsLogged(k: nat, answers: seq<Answer>, starts: seq<nat>, cards0: seq<seq<Card>>, stakes0: seq<(int, int)>,
                        shoe0: seq<Card>, log0: seq<Card>, cards: seq<seq<Card>>, stakes: seq<(int, int)>,
                        stillIn: seq<bool>, shoe: seq<Card>, log: seq<Card>)
  {
    SeatsDone(k, answers, starts, cards0, stakes0, cards, stakes, stillIn) &&
    HandedOut(shoe0, log0, shoe, log) && log == log0 + DrawnBySeats(cards0, cards, k)
  }

  /** The turn of seat k, taken from where seat k - 1 stopped, ends the turns of the seats up to k. */
  lemma SeatsDoneStep(k: nat, answers: seq<Answer>, starts: seq<nat>, cards0: seq<seq<Card>>, stakes0: seq<(int, int)>,
                      cards: seq<seq<Card>>, stakes: seq<(int, int)>, stillIn: seq<bool>,
                      next: nat, hand: seq<Card>, stake: (int, int), stays: bool)
    requires SeatsDone(k, answers, starts, cards0, stakes0, cards, stakes, stillIn) && k < |cards0|
    requires TurnTaken(cards0[k], hand, stakes0[k].0, stake.0, stake.1, answers, starts[k], next)
    requires stake.1 == stakes0[k].1 && (stays <==> !Busted(cards0[k], hand))
    ensures SeatsDone(k + 1, answers, starts + [next], cards0, stakes0, cards[k := hand], stakes[k := stake], stillIn[k := stays])
  {
    var s := starts + [next];
    assert forall j :: 0 <= j <= k ==> s[j] == starts[j];
  }

  /** The cards a hand gained: what `after` holds beyond `before`. */
  function Gained(before: seq<Card>, after: seq<Card>): (g: seq<Card>)
    ensures |before| <= |after| && after[..|before|] == before ==> after == before + g
  {
    if |before| <= |after| then after[|before|..] else []
  }

  /** The cards the seats before k drew in their turns, seat after seat. */
  function DrawnBySeats(cards0: seq<seq<Card>>, cards: seq<seq<Card>>, k: nat): seq<Card>
    requires k <= |cards0| && k <= |cards|
  {
    if k == 0 then [] else DrawnBySeats(cards0, cards, k - 1) + Gained(cards0[k - 1], cards[k - 1])
  }

  /** What the seats before k drew depends only on their own hands. */
  lemma {:induction false} DrawnBySeatsFrame(cards0: seq<seq<Card>>, a: seq<seq<Card>>, b: seq<seq<Card>>, k: nat)
    requires k <= |cards0| && k <= |a| && k <= |b|
    requires forall j :: 0 <= j < k ==> a[j] == b[j]
    ensures DrawnBySeats(cards0, a, k) == DrawnBySeats(cards0, b, k)
  {
    if k > 0 {
      DrawnBySeatsFrame(cards0, a, b, k - 1);
      assert a[k - 1] == b[k - 1];
    }
  }

  /** Seat k's turn appends what its hand gained to what the earlier seats drew. */
  lemma DrawnBySeatsStep(cards0: seq<seq<Card>>, cards: seq<seq<Card>>, k: nat, hand: seq<Card>)
    requires k < |cards0| && k < |cards|
    ensures DrawnBySeats(cards0, cards[k := hand], k + 1) == DrawnBySeats(cards0, cards, k) + Gained(cards0[k], hand)
  {
    DrawnBySeatsFrame(cards0, cards[k := hand], cards, k);
  }

  /**
   * The record of the shoe across seat k's turn: if it held `log0` and then what the
   * seats before k drew, and seat k's hand grew by exactly what was handed out next,
   * it now holds `log0` and what the seats up to k drew.
   */
  lemma DrawnBySeatsNext(cards0: seq<seq<Card>>, cards: seq<seq<Card>>, k: nat, hand: seq<Card>,
                         log0: seq<Card>, log: seq<Card>, next: seq<Card>)
    requires k < |cards0| && k < |cards| && cards[k] == cards0[k]
    requires log == log0 + DrawnBySeats(cards0, cards, k)
    requires |log| <= |next| && next[..|log|] == log && hand == cards[k] + next[|log|..]
    ensures next == log0 + DrawnBySeats(cards0, cards[k := hand], k + 1)
  {
    var gained, before := next[|log|..], DrawnBySeats(cards0, cards, k);
    assert hand[|cards0[k]|..] == gained;
    assert next == log + gained;
    DrawnBySeatsStep(cards0, cards, k, hand);
    assert log0 + (before + gained) == (log0 + before) + gained;
  }

  /**
   * How one seat's round ended: the turn read `answers[from..to]` and grew the hand
   * `before` to the face-up hand `after`; a player who went over lost the bet, and any
   * other player was paid the payoff of the final total against the dealer's final hand.
   */
  predicate SeatSettled(before: seq<Card>, after: seq<Card>, dealerFinal: seq<Card>, answers: seq<Answer>,
                        from: nat, to: nat, money0: int, money: int, bet: int)
  {
    from <= to <= |answers| && AllFaceUp(after) &&
    |before| <= |after| && after[..|before|] == before &&
    TurnRun(before, answers[from..], to - from, after[|before|..]) &&
    money == if Busted(before, after) then money0 - bet else money0 + Payoff(Score(after), Score(dealerFinal), bet)
  }

  /** A turn as the seat loop records it, followed by the settlement of a player who stayed in, settles the seat. */
  lemma SeatSettledFrom(before: seq<Card>, after: seq<Card>, dealerFinal: seq<Card>, answers: seq<Answer>,
                        from: nat, to: nat, money0: int, mid: int, money: int, bet: int, stays: bool)
    requires TurnTaken(before, after, money0, mid, bet, answers, from, to)
    requires stays <==> !Busted(before, after)
    requires money == mid + if stays then Payoff(Score(after), Score(dealerFinal), bet) else 0
    ensures SeatSettled(before, after, dealerFinal, answers, from, to, money0, money, bet)
  {
  }

  /**
   * A settled seat's bankroll moved by exactly the bet, up or down, or not at all, and
   * stays non-negative when the bankroll covered the bet. A player who went over lost
   * the bet even if the dealer went over too; a dealer who went over paid every other player.
   */
  lemma SeatSettledMoves(before: seq<Card>, after: seq<Card>, dealerFinal: seq<Card>, answers: seq<Answer>,
                         from: nat, to: nat, money0: int, money: int, bet: int)
    requires SeatSettled(before, after, dealerFinal, answers, from, to, money0, money, bet)
    requires 0 <= bet <= money0
    ensures money == money0 - bet || money == money0 || money == money0 + bet
    ensures money >= 0
    ensures Busted(before, after) ==> money == money0 - bet
    ensures !Busted(before, after) && Score(dealerFinal) > 21 ==> money == money0 + bet
  {
    PayoffRules(Score(after), Score(dealerFinal), bet, money0);
  }

  /** Some seat ended its turn without going over. */
  predicate AnyStanding(dealt: seq<seq<Card>>, final: seq<seq<Card>>) {
    exists k :: 0 <= k < |dealt| && k < |final| && !Busted(dealt[k], final[k])
  }

  /** Once every seat has taken its turn, every player's hand lies face up. */
  lemma SeatsDoneFaceUp(answers: seq<Answer>, starts: seq<nat>, cards0: seq<seq<Card>>, stakes0: seq<(int, int)>,
                        cards: seq<seq<Card>>, stakes: seq<(int, int)>, stillIn: seq<bool>)
    requires SeatsDone(|cards0|, answers, starts, cards0, stakes0, cards, stakes, stillIn)
    ensures forall k :: 0 <= k < |cards| ==> AllFaceUp(cards[k])
  {
    forall k | 0 <= k < |cards|
      ensures AllFaceUp(cards[k])
    {
      assert TurnTaken(cards0[k], cards[k], stakes0[k].0, stakes[k].0, stakes[k].1, answers, starts[k], starts[k + 1]);
    }
  }

  /** The stakes after the settlement: each player still in is paid the payoff of the hand against the dealer's. */
  function SettledStakes(stakes: seq<(int, int)>, stillIn: seq<bool>, cards: seq<seq<Card>>, dealerFinal: seq<Card>)
    : (r: seq<(int, int)>)
    requires |stillIn| == |stakes| && |cards| == |stakes|
    ensures |r| == |stakes|
  {
    seq(|stakes|, k requires 0 <= k < |stakes| =>
      (stakes[k].0 + (if stillIn[k] then Payoff(Score(cards[k]), Score(dealerFinal), stakes[k].1) else 0), stakes[k].1))
  }

  /**
   * Every seat of the round is settled, the first seat reading from the first answer
   * typed: seat k started from the hand `dealt[k]` and the
   * stakes `stakes0[k]` (bankroll, bet) and ended with the hand `final[k]` and the stakes
   * `stakes[k]`, its bet unchanged, as `SeatSettled` says.
   */
  predicate SeatsSettled(dealt: seq<seq<Card>>, final: seq<seq<Card>>, dealerFinal: seq<Card>, answers: seq<Answer>,
                         starts: seq<nat>, stakes0: seq<(int, int)>, stakes: seq<(int, int)>)
  {
    |final| == |dealt| && |stakes0| == |dealt| && |stakes| == |dealt| && |starts| == |dealt| + 1 && starts[0] == 0 &&
    forall k :: 0 <= k < |dealt| ==>
      stakes[k].1 == stakes0[k].1 &&
      SeatSettled(dealt[k], final[k], dealerFinal, answers, starts[k], starts[k + 1], stakes0[k].0, stakes[k].0, stakes[k].1)
  }

  /**
   * The turns of all seats, in seat order, followed by the settlement of the players
   * still in, settle every seat; somebody is still standing exactly when some seat is still in.
   */
  lemma SeatsSettledFrom(answers: seq<Answer>, starts: seq<nat>, cards0: seq<seq<Card>>, stakes0: seq<(int, int)>,
                         turned: seq<seq<Card>>, mid: seq<(int, int)>, stillIn: seq<bool>, dealerFinal: seq<Card>)
    requires SeatsDone(|cards0|, answers, starts, cards0, stakes0, turned, mid, stillIn)
    ensures SeatsSettled(cards0, turned, dealerFinal, answers, starts, stakes0, SettledStakes(mid, stillIn, turned, dealerFinal))
    ensures AnyStanding(cards0, turned) <==> true in stillIn
  {
    var stakes := SettledStakes(mid, stillIn, turned, dealerFinal);
    forall k | 0 <= k < |cards0|
      ensures SeatSettled(cards0[k], turned[k], dealerFinal, answers, starts[k], starts[k + 1], stakes0[k].0, stakes[k].0, stakes[k].1)
    {
      SeatSettledFrom(cards0[k], turned[k], dealerFinal, answers, starts[k], starts[k + 1],
                      stakes0[k].0, mid[k].0, stakes[k].0, stakes[k].1, stillIn[k]);
    }
    if true in stillIn {
      var k :| 0 <= k < |stillIn| && stillIn[k];
      assert !Busted(cards0[k], turned[k]);
    }
  }

  /** Two settled records of the same hands and answers agree on where seat k's turn began. */
  lemma {:induction false} SeatsReadAlike(dealt: seq<seq<Card>>, final: seq<seq<Card>>, dealerFinal: seq<Card>,
                                          answers: seq<Answer>, starts1: seq<nat>, starts2: seq<nat>,
                                          stakes0: seq<(int, int)>, stakes1: seq<(int, int)>, stakes2: seq<(int, int)>, k: nat)
    requires SeatsSettled(dealt, final, dealerFinal, answers, starts1, stakes0, stakes1)
    requires SeatsSettled(dealt, final, dealerFinal, answers, starts2, stakes0, stakes2)
    requires k <= |dealt|
    ensures starts1[k] == starts2[k]
    decreases k
  {
    if k > 0 {
      var j := k - 1;
      SeatsReadAlike(dealt, final, dealerFinal, answers, starts1, starts2, stakes0, stakes1, stakes2, j);
      assert SeatSettled(dealt[j], final[j], dealerFinal, answers, starts1[j], starts1[k], stakes0[j].0, stakes1[j].0, stakes1[j].1);
      assert SeatSettled(dealt[j], final[j], dealerFinal, answers, starts2[j], starts2[k], stakes0[j].0, stakes2[j].0, stakes2[j].1);
      TurnRunDeterministic(dealt[j], answers[starts1[j]..], starts1[k] - starts1[j], starts2[k] - starts2[j],
                           final[j][|dealt[j]|..]);
    }
  }

  /**
   * The answers typed fix how a settled round read them: with the same hands, the same
   * dealer's hand and the same answers, two settled records give every seat the same
   * stretch of answers and the same final stakes.
   */
  lemma SeatsSettledUnique(dealt: seq<seq<Card>>, final: seq<seq<Card>>, dealerFinal: seq<Card>, answers: seq<Answer>,
                           starts1: seq<nat>, starts2: seq<nat>,
                           stakes0: seq<(int, int)>, stakes1: seq<(int, int)>, stakes2: seq<(int, int)>)
    requires SeatsSettled(dealt, final, dealerFinal, answers, starts1, stakes0, stakes1)
    requires SeatsSettled(dealt, final, dealerFinal, answers, starts2, stakes0, stakes2)
    ensures starts1 == starts2 && stakes1 == stakes2
  {
    forall k | 0 <= k < |starts1|
      ensures starts1[k] == starts2[k]
    {
      SeatsReadAlike(dealt, final, dealerFinal, answers, starts1, starts2, stakes0, stakes1, stakes2, k);
    }
    forall k | 0 <= k < |stakes1|
      ensures stakes1[k] == stakes2[k]
    {
      assert SeatSettled(dealt[k], final[k], dealerFinal, answers, starts1[k], starts1[k + 1], stakes0[k].0, stakes1[k].0, stakes1[k].1);
      assert SeatSettled(dealt[k], final[k], dealerFinal, answers, starts2[k], starts2[k + 1], stakes0[k].0, stakes2[k].0, stakes2[k].1);
    }
  }

  /** The dealer's hand once the hole card, the last one, is turned over. */
  function Revealed(cards: seq<Card>): (r: seq<Card>)
    requires cards != []
    ensures |r| == |cards| && r[..|r| - 1] == cards[..|cards| - 1]
    ensures r[|r| - 1].rank == cards[|cards| - 1].rank && r[|r| - 1].suit == cards[|cards| - 1].suit
    ensures r[|r| - 1].faceUp == !cards[|cards| - 1].faceUp
  {
    cards[..|cards| - 1] + [Flip(cards[|cards| - 1])]
  }

  /**
   * The dealer's part of the round: the hole card, the last of `hole`, was turned over;
   * with some player still standing the dealer then drew to 17, otherwise nothing was drawn.
   */
  predicate DealerPlayed(hole: seq<Card>, final: seq<Card>, standing: bool) {
    hole != [] && |hole| <= |final| && final[..|hole|] == Revealed(hole) &&
    if standing then DealerDraws(Revealed(hole), final[|hole|..]) else |final| == |hole|
  }

  /** Revealing the hole card and then drawing `drawn` by the dealer's rule is the dealer's part of the round. */
  lemma DealerPlayedFrom(hole: seq<Card>, drawn: seq<Card>, standing: bool)
    requires hole != []
    requires standing ==> DealerDraws(Revealed(hole), drawn)
    requires !standing ==> drawn == []
    ensures DealerPlayed(hole, Revealed(hole) + drawn, standing)
  {
    var final := Revealed(hole) + drawn;
    assert final[..|hole|] == Revealed(hole) && final[|hole|..] == drawn;
  }

  /**
   * One round as the seats and the dealer play it. Seat k came in with the bankroll
   * `money0[k]`, bet what its answers `betAnswers[k]` at the prompt made it bet (reading
   * `betsRead[k]` of them), leaving the stakes `staked[k]`; was dealt the two face-up cards
   * `dealt[k]`; and was settled as `SeatsSettled` says, on its final hand `final[k]` and
   * the dealer's final hand, ending with the stakes `stakes[k]`. The dealer's first deal
   * `hole` ended on the face-down hole card, and the dealer then played out as
   * `DealerPlayed` says. Every card came from the shoe, whose record went from `log0`
   * to `log` as `RoundDealt` says.
   */
  predicate RoundPlayed(betAnswers: seq<seq<string>>, answers: seq<Answer>, money0: seq<int>, betsRead: seq<nat>,
                        starts: seq<nat>, dealt: seq<seq<Card>>, staked: seq<(int, int)>, hole: seq<Card>,
                        final: seq<seq<Card>>, dealerFinal: seq<Card>, stakes: seq<(int, int)>,
                        log0: seq<Card>, log: seq<Card>)
  {
    RoundDealt(log0, log, dealt, hole, final, dealerFinal) &&
    |betAnswers| == |dealt| && |money0| == |dealt| && |betsRead| == |dealt| && |staked| == |dealt| &&
    (forall k :: 0 <= k < |dealt| ==>
      staked[k].0 == money0[k] && BetTaken(betAnswers[k], staked[k].0, betsRead[k], staked[k].1) &&
      |dealt[k]| == 2 && AllFaceUp(dealt[k])) &&
    |hole| == 2 && hole[0].faceUp && !hole[1].faceUp &&
    SeatsSettled(dealt, final, dealerFinal, answers, starts, staked, stakes) &&
    DealerPlayed(hole, dealerFinal, AnyStanding(dealt, final))
  }

  /**
   * The opening of a round: seat k came in with the bankroll `money0[k]`, bet what its
   * answers `betAnswers[k]` made it bet (reading `betsRead[k]` of them), leaving the
   * stakes `staked[k]`, and was dealt the two face-up cards `dealt[k]`; the dealer's two
   * cards `hole` end on the face-down hole card; the shoe's record went from `log0` to
   * `log1` as `FirstDeal` says.
   */
  predicate RoundOpened(betAnswers: seq<seq<string>>, money0: seq<int>, betsRead: seq<nat>, dealt: seq<seq<Card>>,
                        staked: seq<(int, int)>, hole: seq<Card>, log0: seq<Card>, log1: seq<Card>)
  {
    FirstDeal(log0, log1, dealt, hole) &&
    |betAnswers| == |dealt| && |money0| == |dealt| && |betsRead| == |dealt| && |staked| == |dealt| &&
    (forall k :: 0 <= k < |dealt| ==>
      staked[k].0 == money0[k] && BetTaken(betAnswers[k], staked[k].0, betsRead[k], staked[k].1) &&
      |dealt[k]| == 2 && AllFaceUp(dealt[k])) &&
    |hole| == 2 && hole[0].faceUp && !hole[1].faceUp
  }

  /**
   * A round that opened as `RoundOpened` says, whose seats then played and were settled
   * as `SeatsSettled` says and whose dealer played as `DealerPlayed` says, drawing from
   * the shoe in that order, was played as `RoundPlayed` says.
   */
  lemma RoundPlayedFrom(betAnswers: seq<seq<string>>, answers: seq<Answer>, money0: seq<int>, betsRead: seq<nat>,
                        starts: seq<nat>, dealt: seq<seq<Card>>, staked: seq<(int, int)>, hole: seq<Card>,
                        final: seq<seq<Card>>, dealerFinal: seq<Card>, stakes: seq<(int, int)>,
                        log0: seq<Card>, log1: seq<Card>, log: seq<Card>)
    requires RoundOpened(betAnswers, money0, betsRead, dealt, staked, hole, log0, log1) && |final| == |dealt|
    requires log == log1 + DrawnBySeats(dealt, final, |dealt|) + Gained(hole, dealerFinal)
    requires SeatsSettled(dealt, final, dealerFinal, answers, starts, staked, stakes)
    requires DealerPlayed(hole, dealerFinal, AnyStanding(dealt, final))
    ensures RoundPlayed(betAnswers, answers, money0, betsRead, starts, dealt, staked, hole, final, dealerFinal,
                        stakes, log0, log)
  {
    RoundDealtFrom(log0, log1, log, dealt, hole, final, dealerFinal);
  }

  /** The record after the seats' turns, `log1`, followed by the dealer's draws on the revealed hole card. */
  lemma SeatsThenDealer(log0: seq<Card>, seats: seq<Card>, log1: seq<Card>, log: seq<Card>, hole: seq<Card>, dealerFinal: seq<Card>)
    requires hole != [] && log1 == log0 + seats
    requires |log1| <= |log| && log[..|log1|] == log1 && dealerFinal == Revealed(hole) + log[|log1|..]
    ensures log == log0 + seats + Gained(hole, dealerFinal)
  {
    assert Gained(hole, dealerFinal) == log[|log1|..];
    assert log == log1 + log[|log1|..];
  }

  /**
   * The first deal as the shoe's record `log1` shows it, after the cards recorded in `log0`:
   * one card to each seat in order, one to the dealer, a second to each seat, and the
   * dealer's second, which is the face-down hole card.
   */
  predicate FirstDeal(log0: seq<Card>, log1: seq<Card>, dealt: seq<seq<Card>>, hole: seq<Card>)
  {
    |log1| == |log0| + 2 * (|dealt| + 1) && log1[..|log0|] == log0 &&
    (forall i :: 0 <= i < |dealt| ==> dealt[i] == [log1[|log0| + i], log1[|log0| + |dealt| + 1 + i]]) &&
    hole == [log1[|log0| + |dealt|], Flip(log1[|log0| + 2 * |dealt| + 1])]
  }

  /**
   * The shoe's record of a round with n seats, from `log0` to `log`: the first deal
   * handed out 2(n + 1) cards, seat i getting the i-th and the (n + 1 + i)-th and the
   * dealer the n-th and, turned face down, the last one; then came the cards the seats
   * drew in their turns, seat after seat, and then the cards the dealer drew.
   */
  predicate RoundDealt(log0: seq<Card>, log: seq<Card>, dealt: seq<seq<Card>>, hole: seq<Card>,
                       final: seq<seq<Card>>, dealerFinal: seq<Card>)
  {
    var first := |log0| + 2 * (|dealt| + 1);
    first <= |log| && FirstDeal(log0, log[..first], dealt, hole) && |final| == |dealt| &&
    log[first..] == DrawnBySeats(dealt, final, |dealt|) + Gained(hole, dealerFinal)
  }

  /** The first deal read off the seats `ps` and the dealer's hand `hole`. */
  lemma FirstDealOf(ps: seq<Player>, hole: seq<Card>, log0: seq<Card>, log1: seq<Card>)
    requires |log1| == |log0| + 2 * (|ps| + 1) && log1[..|log0|] == log0
    requires forall i :: 0 <= i < |ps| ==> ps[i].hand.cards == [log1[|log0| + i], log1[|log0| + |ps| + 1 + i]]
    requires hole == [log1[|log0| + |ps|], Flip(log1[|log0| + 2 * |ps| + 1])]
    ensures FirstDeal(log0, log1, CardsOf(ps), hole)
  {
  }

  /** A record made of `front`, then `middle`, then `back` splits after `front`. */
  lemma SplitAt3(front: seq<Card>, middle: seq<Card>, back: seq<Card>, log: seq<Card>)
    requires log == front + middle + back
    ensures log[..|front|] == front && log[|front|..] == middle + back
  {
    assert log == front + (middle + back);
  }

  /** Face-up cards handed out after a face-up stretch of the record: everything since `base` is face up. */
  lemma FaceUpSince(log1: seq<Card>, log: seq<Card>, base: nat)
    requires base <= |log1| <= |log| && log[..|log1|] == log1
    requires AllFaceUp(log1[base..]) && AllFaceUp(log[|log1|..])
    ensures AllFaceUp(log[base..])
  {
    forall k | base <= k < |log|
      ensures log[k].faceUp
    {
      if k < |log1| {
        assert log[k] == log1[base..][k - base];
      } else {
        assert log[k] == log[|log1|..][k - |log1|];
      }
    }
  }

  /** Cards drawn after `drawn` extend the same record. */
  lemma DrawnMore(front: seq<Card>, drawn: seq<Card>, more: seq<Card>)
    ensures (front + drawn) + more == front + (drawn + more)
  {
  }

  /** The first deal, recorded as `log1`, followed by the turns and the dealer's draws, is the record of the round. */
  lemma RoundDealtFrom(log0: seq<Card>, log1: seq<Card>, log: seq<Card>, dealt: seq<seq<Card>>, hole: seq<Card>,
                       final: seq<seq<Card>>, dealerFinal: seq<Card>)
    requires FirstDeal(log0, log1, dealt, hole) && |final| == |dealt|
    requires log == log1 + DrawnBySeats(dealt, final, |dealt|) + Gained(hole, dealerFinal)
    ensures RoundDealt(log0, log, dealt, hole, final, dealerFinal)
  {
    SplitAt3(log1, DrawnBySeats(dealt, final, |dealt|), Gained(hole, dealerFinal), log);
    var first := |log0| + 2 * (|dealt| + 1);
    assert first == |log1| && log[..first] == log1;
  }

  /**
   * After a round every bet lay between 0 and the bankroll it was placed from, and every
   * bankroll moved by exactly its bet, up or down, or not at all, so none became negative.
   */
  lemma RoundPlayedMoves(betAnswers: seq<seq<string>>, answers: seq<Answer>, money0: seq<int>, betsRead: seq<nat>,
                         starts: seq<nat>, dealt: seq<seq<Card>>, staked: seq<(int, int)>, hole: seq<Card>,
                         final: seq<seq<Card>>, dealerFinal: seq<Card>, stakes: seq<(int, int)>,
                         log0: seq<Card>, log: seq<Card>)
    requires RoundPlayed(betAnswers, answers, money0, betsRead, starts, dealt, staked, hole, final, dealerFinal, stakes, log0, log)
    ensures |stakes| == |money0|
    ensures forall k :: 0 <= k < |money0| ==>
      stakes[k].1 == staked[k].1 && 0 <= stakes[k].1 <= money0[k] && stakes[k].0 >= 0 &&
      (stakes[k].0 == money0[k] - stakes[k].1 || stakes[k].0 == money0[k] || stakes[k].0 == money0[k] + stakes[k].1)
  {
    forall k | 0 <= k < |money0|
      ensures stakes[k].1 == staked[k].1 && 0 <= stakes[k].1 <= money0[k] && stakes[k].0 >= 0
      ensures stakes[k].0 == money0[k] - stakes[k].1 || stakes[k].0 == money0[k] || stakes[k].0 == money0[k] + stakes[k].1
    {
      BetTakenUnique(betAnswers[k], staked[k].0, betsRead[k], staked[k].1, betsRead[k], staked[k].1);
      SeatSettledMoves(dealt[k], final[k], dealerFinal, answers, starts[k], starts[k + 1],
                       staked[k].0, stakes[k].0, stakes[k].1);
    }
  }

  class Game {
    /** The seated players, in seat order. */
    var players: seq<Player>
    /** The players still contesting the current round (not busted). */
    var remaining: seq<Player>
    const deck: Deck
    const dealer: Dealer

    ghost function Seated(): set<Player>
      reads this
    {
      set p | p in players
    }

    ghost function SeatedHands(): set<Hand>
      reads this
    {
      set p | p in players :: p.hand
    }

    /** Players are seated once, hold their own hands, and no bankroll is negative. */
    ghost predicate Valid()
      reads this, deck, Seated()
    {
      deck.Valid() &&
      Distinct(players) &&
      (forall p, q :: p in players && q in players && p != q ==> p.hand != q.hand) &&
      (forall p :: p in players ==> p.hand != dealer.hand && p.money >= 0)
    }

    /** During a round: every remaining player is seated once and has a bet the bankroll covers. */
    ghost predicate InRound()
      reads this, Seated()
    {
      Distinct(remaining) &&
      (forall p :: p in remaining ==> p in players && p.bet <= p.money) &&
      (forall p :: p in players ==> p.bet >= 0)
    }

    /** Between rounds nobody holds a card. */
    ghost predicate HandsEmpty()
      reads this, dealer.hand, SeatedHands()
    {
      dealer.hand.cards == [] && forall p :: p in players ==> p.hand.cards == []
    }

    /**
     * The players' hands in seat order, then the dealer's: no hand occurs twice, and
     * every one of them is a seated player's hand or the dealer's.
     */
    lemma TableHands()
      requires Valid()
      ensures var hands := HandsOf(players) + [dealer.hand];
        Distinct(hands) && |hands| == |players| + 1 && hands[|players|] == dealer.hand &&
        (forall i :: 0 <= i < |players| ==> hands[i] == players[i].hand) &&
        (forall h :: h in hands ==> h == dealer.hand || h in SeatedHands())
    {
      var hands := HandsOf(players) + [dealer.hand];
      forall i, j | 0 <= i < j < |hands| ensures hands[i] != hands[j] {
        if j < |players| {
          assert players[i] != players[j];
        }
      }
      forall h | h in hands ensures h == dealer.hand || h in SeatedHands() {
        var i :| 0 <= i < |hands| && hands[i] == h;
        if i < |players| {
          assert players[i] in players;
        }
      }
    }

    /** Between rounds every hand at the table, seat by seat, is empty. */
    lemma EmptySeats()
      requires HandsEmpty()
      ensures forall i :: 0 <= i < |players| ==> players[i].hand.cards == []
    {
      forall i | 0 <= i < |players| ensures players[i].hand.cards == [] {
        assert players[i] in players;
      }
    }

    /** A new table: a shuffled shoe, the dealer, nobody seated yet. */
    constructor ()
      ensures Valid() && HandsEmpty()
      ensures players == [] && remaining == []
      ensures fresh(deck) && fresh(dealer) && fresh(dealer.hand)
      ensures multiset(deck.cards) == multiset(FullDeck())
    {
      players := [];
      remaining := [];
      deck := new Deck();
      dealer := new Dealer();
    }

    /** Seats one more player, with the default bankroll (the name is display only). */
    method AddPlayer() returns (p: Player)
      requires Valid()
      modifies this`players
      ensures Valid()
      ensures fresh(p) && fresh(p.hand) && players == old(players) + [p]
      ensures p.money == StartingMoney && p.bet == 0 && p.hand.cards == []
    {
      p := new Player();
      players := players + [p];
    }

    /**
     * The start of a round: every seated player is still in, then every player places a
     * bet, in seat order; `betAnswers[k]` is what player k types at the bet prompt, of
     * which the first `used[k]` answers are read.
     */
    method PlaceBets(betAnswers: seq<seq<string>>) returns (used: seq<nat>)
      requires Valid()
      requires |betAnswers| == |players|
      requires forall k :: 0 <= k < |players| ==> SomeBetAccepted(betAnswers[k], players[k].money)
      modifies this`remaining, Seated()
      ensures Valid() && InRound() && remaining == players
      ensures |used| == |players|
      ensures forall k :: 0 <= k < |players| ==>
        players[k].money == old(players[k].money) && BetTaken(betAnswers[k], players[k].money, used[k], players[k].bet)
    {
      remaining := players;
      used := [];
      for k := 0 to |players|
        invariant Valid() && remaining == players && |used| == k
        invariant forall p :: p in players ==> p.money == old(p.money)
        invariant forall i :: 0 <= i < k ==> BetTaken(betAnswers[i], players[i].money, used[i], players[i].bet)
      {
        var n := players[k].PlaceTheBet(betAnswers[k]);
        used := used + [n];
      }
      forall p | p in players
        ensures 0 <= p.bet <= p.money
      {
        var k :| 0 <= k < |players| && players[k] == p;
        BetTakenUnique(betAnswers[k], p.money, used[k], p.bet, used[k], p.bet);
      }
    }

    /** The inner loop of the program's `hand_over_cards`: one card to each hand, in the order of `hands`. */
    method DealOnePass(hands: seq<Hand>)
      requires deck.Valid() && Distinct(hands)
      modifies deck, set h | h in hands
      ensures deck.Valid() && HandedOut(old(deck.cards), old(deck.log), deck.cards, deck.log)
      ensures |deck.log| == |old(deck.log)| + |hands| && deck.log[..|old(deck.log)|] == old(deck.log)
      ensures AllFaceUp(deck.log[|old(deck.log)|..])
      ensures forall i :: 0 <= i < |hands| ==> hands[i].cards == old(hands[i].cards) + [deck.log[|old(deck.log)| + i]]
    {
      ghost var base := |deck.log|;
      for i := 0 to |hands|
        invariant deck.Valid() && HandedOut(old(deck.cards), old(deck.log), deck.cards, deck.log)
        invariant |deck.log| == base + i && deck.log[..base] == old(deck.log)
        invariant AllFaceUp(deck.log[base..])
        invariant forall j :: 0 <= j < i ==> hands[j].cards == old(hands[j].cards) + [deck.log[base + j]]
        invariant forall j :: i <= j < |hands| ==> hands[j].cards == old(hands[j].cards)
      {
        ghost var shoe, before := deck.cards, deck.log;
        deck.GiveCard(hands[i]);
        HandedOutTrans(old(deck.cards), old(deck.log), shoe, before, deck.cards, deck.log);
        assert deck.log[base..] == before[base..] + [deck.log[|before|]];
      }
    }

    /**
     * The program's `hand_over_cards`: `perHand` passes over `hands`, one card to each
     * hand per pass, in the order of `hands`.
     */
    method HandOverCards(hands: seq<Hand>, perHand: nat)
      requires deck.Valid() && Distinct(hands)
      modifies deck, set h | h in hands
      ensures deck.Valid() && HandedOut(old(deck.cards), old(deck.log), deck.cards, deck.log)
      ensures AllFaceUp(deck.log[|old(deck.log)|..])
      ensures DealtSoFar(old(CardsIn(hands)), CardsIn(hands), deck.log, |old(deck.log)|, perHand)
    {
      ghost var base := |deck.log|;
      ghost var cards0 := CardsIn(hands);
      var n := |hands|;
      for pass := 0 to perHand
        invariant deck.Valid() && HandedOut(old(deck.cards), old(deck.log), deck.cards, deck.log)
        invariant AllFaceUp(deck.log[base..])
        invariant DealtSoFar(cards0, CardsIn(hands), deck.log, base, pass)
      {
        ghost var shoe, passStart, before := deck.cards, deck.log, CardsIn(hands);
        DealOnePass(hands);
        HandedOutTrans(old(deck.cards), old(deck.log), shoe, passStart, deck.cards, deck.log);
        FaceUpSince(passStart, deck.log, base);
        DealtPassStep(cards0, before, CardsIn(hands), passStart, deck.log, base, pass);
      }
    }

    /** Two passes of `hand_over_cards` over empty hands: hand i gets the i-th and the (n+i)-th card drawn. */
    method DealTwoEach(hands: seq<Hand>)
      requires deck.Valid() && Distinct(hands)
      requires forall i :: 0 <= i < |hands| ==> hands[i].cards == []
      modifies deck, set h | h in hands
      ensures deck.Valid() && HandedOut(old(deck.cards), old(deck.log), deck.cards, deck.log)
      ensures |deck.log| == |old(deck.log)| + 2 * |hands|
      ensures forall i :: 0 <= i < |hands| ==>
        var base, n := |old(deck.log)|, |hands|;
        hands[i].cards == [deck.log[base + i], deck.log[base + n + i]] && AllFaceUp(hands[i].cards)
    {
      ghost var base, cards0 := |deck.log|, CardsIn(hands);
      var n := |hands|;
      HandOverCards(hands, 2);
      DealtTwoFromEmpty(cards0, CardsIn(hands), deck.log, base);
    }

    /**
     * The call `hand_over_cards(hands=(*players, dealer), per_hand=2)`: with n hands at
     * the table, seat i gets the i-th and the (n+i)-th card handed out, the dealer
     * coming last.
     */
    method DealFirstTwo()
      requires Valid() && HandsEmpty()
      modifies deck, dealer.hand, SeatedHands()
      ensures Valid() && HandedOut(old(deck.cards), old(deck.log), deck.cards, deck.log)
      ensures |deck.log| == |old(deck.log)| + 2 * (|players| + 1)
      ensures forall i :: 0 <= i < |players| ==>
        players[i].hand.cards == [deck.log[|old(deck.log)| + i], deck.log[|old(deck.log)| + |players| + 1 + i]] &&
        AllFaceUp(players[i].hand.cards)
      ensures dealer.hand.cards == [deck.log[|old(deck.log)| + |players|], deck.log[|old(deck.log)| + 2 * |players| + 1]]
      ensures AllFaceUp(dealer.hand.cards)
    {
      var hands := HandsOf(players) + [dealer.hand];
      TableHands();
      EmptySeats();
      DealTwoEach(hands);
    }

    /**
     * The program's `first_distribution`: two passes over the players in seat order and
     * then the dealer, after which the dealer's last card is turned face down.
     */
    method FirstDistribution()
      requires Valid() && HandsEmpty()
      modifies deck, dealer.hand, SeatedHands()
      ensures Valid() && HandedOut(old(deck.cards), old(deck.log), deck.cards, deck.log)
      ensures |deck.log| == |old(deck.log)| + 2 * (|players| + 1)
      ensures forall i :: 0 <= i < |players| ==>
        players[i].hand.cards == [deck.log[|old(deck.log)| + i], deck.log[|old(deck.log)| + |players| + 1 + i]] &&
        AllFaceUp(players[i].hand.cards)
      ensures dealer.hand.cards == [deck.log[|old(deck.log)| + |players|], Flip(deck.log[|old(deck.log)| + 2 * |players| + 1])]
      ensures dealer.hand.cards[0].faceUp && !dealer.hand.cards[1].faceUp
      ensures forall k :: 0 <= k < |players| ==> players[k].money == old(players[k].money) && players[k].bet == old(players[k].bet)
    {
      DealFirstTwo();
      ghost var up := dealer.hand.cards;
      forall i | 0 <= i < |players| ensures players[i].hand != dealer.hand {
        SeatsApart(i, i);
      }
      dealer.FlipTheLastCard();
      assert dealer.hand.cards[..1] == up[..1];
      assert dealer.hand.cards == [up[0], Flip(up[1])];
    }

    /**
     * The "y" branch of the program's `player_turn`: one card from the shoe; going over 21
     * costs the bet and takes the player out of the remaining ones.
     */
    method Hit(p: Player) returns (ghost c: Card)
      requires deck.Valid() && AllFaceUp(p.hand.cards)
      requires p in remaining
      modifies deck, p.hand, p`money, this`remaining
      ensures deck.Valid() && HandedOut(old(deck.cards), old(deck.log), deck.cards, deck.log)
      ensures deck.log == old(deck.log) + [c] && p.hand.cards == old(p.hand.cards) + [c]
      ensures AllFaceUp(p.hand.cards)
      ensures p.money == if Score(p.hand.cards) > 21 then old(p.money) - p.bet else old(p.money)
      ensures remaining == if Score(p.hand.cards) > 21 then RemoveFirst(old(remaining), p) else old(remaining)
    {
      deck.GiveCard(p.hand);
      c := p.hand.cards[|p.hand.cards| - 1];
      if IsWentOver(p.hand.cards) {
        p.LooseTheRound();
        remaining := RemoveFirst(remaining, p);
      }
    }

    /** One answer read during a turn below 21 that is not "n": a "y" draws a card, anything else draws none. */
    method TakeAnswer(p: Player, answers: seq<Answer>, used: nat, ghost cards0: seq<Card>, ghost drawn: seq<Card>,
                      ghost log0: seq<Card>, ghost money0: int, ghost in0: seq<Player>, ghost out: seq<Player>)
      returns (ghost extra: seq<Card>)
      requires deck.Valid() && p in remaining
      requires used < |answers| && answers[used] != No && Score(p.hand.cards) < 21
      requires TurnSoFar(cards0, answers, used, drawn, log0, deck.log, p.hand.cards)
      requires p.money == money0 && remaining == in0 && out == RemoveFirst(in0, p)
      modifies deck, p.hand, p`money, this`remaining
      ensures deck.Valid() && HandedOut(old(deck.cards), old(deck.log), deck.cards, deck.log)
      ensures deck.log == old(deck.log) + extra
      ensures TurnSoFar(cards0, answers, used + 1, drawn + extra, log0, deck.log, p.hand.cards)
      ensures p.money == (if Busted(cards0, p.hand.cards) then money0 - p.bet else money0)
      ensures remaining == if Busted(cards0, p.hand.cards) then out else in0
    {
      if answers[used] == Yes {
        ghost var c := Hit(p);
        OngoingExtend(cards0, answers, used, drawn, c);
        DrawnMore(cards0, drawn, [c]);
        DrawnMore(log0, drawn, [c]);
        extra := [c];
        assert Busted(cards0, p.hand.cards) == (Score(p.hand.cards) > 21);
      } else {
        OngoingExtend(cards0, answers, used, drawn, Card(0, 0, true));
        extra := [];
        assert drawn + [] == drawn && old(deck.log) + [] == old(deck.log);
        assert !Busted(cards0, p.hand.cards);
      }
    }

    /**
     * The loop of the program's `player_turn`: while answers are left, the total is below
     * 21 and the answer is not "n", a "y" draws a card and anything else asks again.
     */
    method AskWhileBelow21(p: Player, answers: seq<Answer>) returns (used: nat, ghost drawn: seq<Card>)
      requires deck.Valid() && AllFaceUp(p.hand.cards)
      requires p in remaining
      modifies deck, p.hand, p`money, this`remaining
      ensures deck.Valid() && HandedOut(old(deck.cards), old(deck.log), deck.cards, deck.log)
      ensures TurnSoFar(old(p.hand.cards), answers, used, drawn, old(deck.log), deck.log, p.hand.cards)
      ensures !(used < |answers| && Score(p.hand.cards) < 21 && answers[used] != No)
      ensures var busted := Busted(old(p.hand.cards), p.hand.cards);
        p.money == (if busted then old(p.money) - p.bet else old(p.money)) &&
        remaining == if busted then RemoveFirst(old(remaining), p) else old(remaining)
    {
      ghost var cards0 := p.hand.cards;
      ghost var out := RemoveFirst(remaining, p);
      drawn := [];
      used := 0;
      assert old(deck.log) + [] == deck.log && cards0 + [] == cards0;
      while used < |answers| && TotalCost(p.hand.cards).value < 21 && answers[used] != No
        invariant deck.Valid() && HandedOut(old(deck.cards), old(deck.log), deck.cards, deck.log)
        invariant TurnSoFar(cards0, answers, used, drawn, old(deck.log), deck.log, p.hand.cards)
        invariant p.money == (if Busted(cards0, p.hand.cards) then old(p.money) - p.bet else old(p.money))
        invariant remaining == if Busted(cards0, p.hand.cards) then out else old(remaining)
        decreases |answers| - used
      {
        ghost var shoe, log := deck.cards, deck.log;
        ghost var extra := TakeAnswer(p, answers, used, cards0, drawn, old(deck.log), old(p.money), old(remaining), out);
        HandedOutTrans(old(deck.cards), old(deck.log), shoe, log, deck.cards, deck.log);
        drawn := drawn + extra;
        used := used + 1;
      }
    }

    /**
     * The program's `player_turn`: while the total is below 21 the player is asked; "n"
     * ends the turn, "y" draws a card, anything else asks again. A draw that takes the
     * total over 21 costs the bet and removes the player from the remaining ones.
     * When no answer is left the player stands.
     */
    method PlayerTurn(p: Player, answers: seq<Answer>) returns (used: nat)
      requires deck.Valid() && AllFaceUp(p.hand.cards)
      requires p in remaining && Distinct(remaining)
      modifies deck, p.hand, p`money, this`remaining
      ensures deck.Valid() && used <= |answers| && HandedOut(old(deck.cards), old(deck.log), deck.cards, deck.log)
      ensures p.hand.cards == old(p.hand.cards) + deck.log[|old(deck.log)|..]
      ensures AllFaceUp(p.hand.cards)
      ensures TurnOutcome(old(p.hand.cards), p.hand.cards, answers, used, old(p.money), p.money, p.bet)
      ensures remaining == if Busted(old(p.hand.cards), p.hand.cards) then RemoveFirst(old(remaining), p) else old(remaining)
      ensures Distinct(remaining) && forall q :: q in remaining <==> q in old(remaining) && (q != p || !Busted(old(p.hand.cards), p.hand.cards))
      ensures 0 <= p.bet <= old(p.money) ==> 0 <= p.money
      ensures !Busted(old(p.hand.cards), p.hand.cards) ==> p.money == old(p.money)
    {
      ghost var cards0 := p.hand.cards;
      ghost var drawn;
      used, drawn := AskWhileBelow21(p, answers);
      FinishTurn(cards0, answers, used, drawn);
      if used < |answers| && TotalCost(p.hand.cards).value < 21 {
        // the "n" that ended the loop was read too
        used := used + 1;
      }
      assert p.hand.cards[..|cards0|] == cards0 && p.hand.cards[|cards0|..] == drawn;
      assert deck.log[|old(deck.log)|..] == drawn;
      if Busted(cards0, p.hand.cards) {
        RemoveFirstDistinct(old(remaining), p);
      }
    }

    /** Two seats hold two different players with two different hands, neither of them the dealer's. */
    lemma SeatsApart(j: int, k: int)
      requires Valid() && 0 <= j < |players| && 0 <= k < |players|
      ensures players[j].hand != dealer.hand
      ensures j != k ==> players[j] != players[k] && players[j].hand != players[k].hand
    {
    }

    /** Every other seat holds another player, with another hand. */
    lemma OthersApart(k: int)
      requires Valid() && 0 <= k < |players|
      ensures forall j :: 0 <= j < |players| && j != k ==> players[j] != players[k] && players[j].hand != players[k].hand
    {
      forall j | 0 <= j < |players| && j != k
        ensures players[j] != players[k] && players[j].hand != players[k].hand
      {
        SeatsApart(j, k);
      }
    }

    /** The turn of the player in seat k, reading the answers from position `pos` on; the other seats are untouched. */
    method PlayerTurnAt(k: nat, answers: seq<Answer>, pos: nat) returns (next: nat)
      requires Valid() && InRound() && 0 <= k < |players| && pos <= |answers|
      requires players[k] in remaining && AllFaceUp(players[k].hand.cards)
      modifies deck, players[k].hand, players[k], this`remaining
      ensures Valid() && InRound() && pos <= next <= |answers| && players[k].bet == old(players[k].bet)
      ensures HandedOut(old(deck.cards), old(deck.log), deck.cards, deck.log)
      ensures players[k].hand.cards == old(players[k].hand.cards) + deck.log[|old(deck.log)|..]
      ensures TurnTaken(old(players[k].hand.cards), players[k].hand.cards, old(players[k].money), players[k].money, players[k].bet, answers, pos, next)
      ensures forall q :: q in remaining <==> q in old(remaining) && (q != players[k] || !Busted(old(players[k].hand.cards), players[k].hand.cards))
      ensures forall j :: 0 <= j < |players| && j != k ==>
        players[j].hand.cards == old(players[j].hand.cards) && players[j].money == old(players[j].money)
    {
      var p := players[k];
      OthersApart(k);
      var used := PlayerTurn(p, answers[pos..]);
      next := pos + used;
      forall j | 0 <= j < |players| && j != k
        ensures players[j].hand.cards == old(players[j].hand.cards) && players[j].money == old(players[j].money)
      {
        assert players[j] != p && players[j].hand != p.hand;
      }
      TurnKeepsTable(p);
    }

    /** A turn that changes only the money of `p` and shrinks the remaining players keeps the table valid and in round. */
    twostate lemma TurnKeepsTable(p: Player)
      requires old(Valid()) && old(InRound()) && players == old(players) && p in players && p in old(remaining)
      requires deck.Valid() && p.bet == old(p.bet) && (0 <= p.bet <= old(p.money) ==> 0 <= p.money)
      requires forall q :: q in players && q != p ==> q.money == old(q.money) && q.bet == old(q.bet)
      requires Distinct(remaining) && forall q :: q in remaining ==> q in old(remaining) && (q == p ==> p.money == old(p.money))
      ensures Valid() && InRound()
    {
    }

    /** The same turn, seen as an update of seat k in the snapshots of hands, stakes and who is still in. */
    method SeatTurn(k: nat, answers: seq<Answer>, pos: nat) returns (next: nat)
      requires Valid() && InRound() && 0 <= k < |players| && pos <= |answers|
      requires players[k] in remaining && AllFaceUp(players[k].hand.cards)
      modifies deck, players[k].hand, players[k], this`remaining
      ensures Valid() && InRound() && pos <= next <= |answers| && players[k].bet == old(players[k].bet)
      ensures HandedOut(old(deck.cards), old(deck.log), deck.cards, deck.log)
      ensures players[k].hand.cards == old(players[k].hand.cards) + deck.log[|old(deck.log)|..]
      ensures TurnTaken(old(players[k].hand.cards), players[k].hand.cards, old(players[k].money), players[k].money, players[k].bet, answers, pos, next)
      ensures CardsOf(players) == old(CardsOf(players))[k := players[k].hand.cards]
      ensures StakesOf(players) == old(StakesOf(players))[k := (players[k].money, players[k].bet)]
      ensures InSeats(players, remaining) == old(InSeats(players, remaining))[k := !Busted(old(players[k].hand.cards), players[k].hand.cards)]
    {
      next := PlayerTurnAt(k, answers, pos);
      forall j | 0 <= j < |players| && j != k
        ensures players[j].bet == old(players[j].bet)
        ensures players[j] in remaining <==> players[j] in old(remaining)
      {
      }
    }

    /** The loop over the seats that runs the players' turns, one after the other. */
    method TurnsInSeatOrder(answers: seq<Answer>) returns (starts: seq<nat>)
      requires Valid() && InRound() && remaining == players
      requires forall k :: 0 <= k < |players| ==> AllFaceUp(players[k].hand.cards)
      modifies deck, SeatedHands(), Seated(), this`remaining
      ensures Valid() && InRound() && HandedOut(old(deck.cards), old(deck.log), deck.cards, deck.log)
      ensures deck.log == old(deck.log) + DrawnBySeats(old(CardsOf(players)), CardsOf(players), |players|)
      ensures SeatsDone(|players|, answers, starts, old(CardsOf(players)), old(StakesOf(players)),
                        CardsOf(players), StakesOf(players), InSeats(players, remaining))
    {
      ghost var cards0, stakes0 := CardsOf(players), StakesOf(players);
      starts := [0];
      var pos := 0;
      for k := 0 to |players|
        invariant Valid() && InRound()
        invariant TurnsLogged(k, answers, starts, cards0, stakes0, old(deck.cards), old(deck.log),
                              CardsOf(players), StakesOf(players), InSeats(players, remaining), deck.cards, deck.log)
        invariant pos == starts[k]
      {
        pos := SeatTurnLogged(k, answers, pos, starts, cards0, stakes0, old(deck.cards), old(deck.log));
        starts := starts + [pos];
      }
    }

    /**
     * Seat k's turn as a step of the loop over the seats: the turns of the seats before k
     * were taken from the hands `cards0` and stakes `stakes0` and grew the shoe's record
     * `log0` by what those seats drew; afterwards the same holds of the seats up to k.
     */
    method SeatTurnLogged(k: nat, answers: seq<Answer>, pos: nat, ghost starts: seq<nat>, ghost cards0: seq<seq<Card>>,
                          ghost stakes0: seq<(int, int)>, ghost shoe0: seq<Card>, ghost log0: seq<Card>)
      returns (next: nat)
      requires Valid() && InRound() && k < |players| && |cards0| == |players| && AllFaceUp(cards0[k])
      requires TurnsLogged(k, answers, starts, cards0, stakes0, shoe0, log0,
                           CardsOf(players), StakesOf(players), InSeats(players, remaining), deck.cards, deck.log)
      requires pos == starts[k]
      modifies deck, players[k].hand, players[k], this`remaining
      ensures Valid() && InRound()
      ensures TurnsLogged(k + 1, answers, starts + [next], cards0, stakes0, shoe0, log0,
                          CardsOf(players), StakesOf(players), InSeats(players, remaining), deck.cards, deck.log)
    {
      ghost var cards, stakes, stillIn := CardsOf(players), StakesOf(players), InSeats(players, remaining);
      ghost var shoe, log := deck.cards, deck.log;
      next := SeatTurn(k, answers, pos);
      HandedOutTrans(shoe0, log0, shoe, log, deck.cards, deck.log);
      DrawnBySeatsNext(cards0, cards, k, players[k].hand.cards, log0, log, deck.log);
      SeatsDoneStep(k, answers, starts, cards0, stakes0, cards, stakes, stillIn,
                    next, players[k].hand.cards, (players[k].money, players[k].bet), players[k] in remaining);
    }

    /**
     * The players' turns, in seat order, all reading from the same console: player k
     * reads the answers from position `starts[k]` up to `starts[k + 1]`. A player who
     * went over 21 has paid the bet and left the remaining ones; the others kept their
     * bankroll.
     */
    method PlayerTurns(answers: seq<Answer>) returns (starts: seq<nat>)
      requires Valid() && InRound() && remaining == players
      requires forall k :: 0 <= k < |players| ==> AllFaceUp(players[k].hand.cards)
      modifies deck, SeatedHands(), Seated(), this`remaining
      ensures Valid() && InRound() && HandedOut(old(deck.cards), old(deck.log), deck.cards, deck.log)
      ensures deck.log == old(deck.log) + DrawnBySeats(old(CardsOf(players)), CardsOf(players), |players|)
      ensures |starts| == |players| + 1 && starts[0] == 0 && starts[|players|] <= |answers|
      ensures forall k :: 0 <= k < |players| ==> players[k].bet == old(players[k].bet)
      ensures forall k :: 0 <= k < |players| ==>
        TurnTaken(old(players[k].hand.cards), players[k].hand.cards, old(players[k].money), players[k].money, players[k].bet, answers, starts[k], starts[k + 1])
      ensures forall k :: 0 <= k < |players| ==>
        (players[k] in remaining <==> !Busted(old(players[k].hand.cards), players[k].hand.cards))
      ensures forall p :: p in remaining ==> AllFaceUp(p.hand.cards) && p.money == old(p.money)
      ensures forall p :: p in players && p !in remaining ==> p.money == old(p.money) - p.bet
    {
      starts := TurnsInSeatOrder(answers);
      ghost var cards0, stakes0 := old(CardsOf(players)), old(StakesOf(players));
      ghost var cards, stakes, stillIn := CardsOf(players), StakesOf(players), InSeats(players, remaining);
      forall k | 0 <= k < |players|
        ensures players[k].bet == old(players[k].bet)
        ensures TurnTaken(old(players[k].hand.cards), players[k].hand.cards, old(players[k].money), players[k].money, players[k].bet, answers, starts[k], starts[k + 1])
        ensures players[k] in remaining <==> !Busted(old(players[k].hand.cards), players[k].hand.cards)
      {
        assert cards0[k] == old(players[k].hand.cards) && stakes0[k] == (old(players[k].money), old(players[k].bet));
        assert cards[k] == players[k].hand.cards && stakes[k] == (players[k].money, players[k].bet);
        assert stillIn[k] == (players[k] in remaining);
      }
      forall p | p in players
        ensures p in remaining ==> AllFaceUp(p.hand.cards) && p.money == old(p.money)
        ensures p !in remaining ==> p.money == old(p.money) - p.bet
      {
        var k :| 0 <= k < |players| && players[k] == p;
        assert TurnTaken(old(p.hand.cards), p.hand.cards, old(p.money), p.money, p.bet, answers, starts[k], starts[k + 1]);
      }
    }

    /** Somebody remains in the round exactly when some seat is still in. */
    lemma RemainingIffStillIn()
      requires InRound()
      ensures remaining != [] <==> true in InSeats(players, remaining)
    {
      if remaining != [] {
        assert remaining[0] in remaining;
        var k :| 0 <= k < |players| && players[k] == remaining[0];
        assert InSeats(players, remaining)[k];
      }
    }

    /** One card for the dealer, drawn on a total below 17. */
    method DealerDraw(ghost cards0: seq<Card>, ghost drawn: seq<Card>) returns (ghost c: Card)
      requires deck.Valid() && dealer.hand.cards == cards0 + drawn && AllFaceUp(dealer.hand.cards)
      requires DrewBelowStand(cards0, drawn) && Score(cards0 + drawn) < DealerStand
      modifies deck, dealer.hand
      ensures deck.Valid() && deck.log == old(deck.log) + [c] && HandedOut(old(deck.cards), old(deck.log), deck.cards, deck.log)
      ensures dealer.hand.cards == cards0 + (drawn + [c]) && AllFaceUp(dealer.hand.cards)
      ensures DrewBelowStand(cards0, drawn + [c])
      ensures Sum(dealer.hand.cards) > Sum(old(dealer.hand.cards))
    {
      ghost var before := cards0 + drawn;
      deck.GiveCard(dealer.hand);
      c := dealer.hand.cards[|before|];
      assert dealer.hand.cards == before + [c];
      SumAppend(before, c);
      DrawnMore(cards0, drawn, [c]);
      DrewBelowStandExtend(cards0, drawn, c);
    }

    /** The program's `dealer_turn`: the dealer draws while the total is below 17. */
    method DealerTurn()
      requires deck.Valid() && AllFaceUp(dealer.hand.cards)
      modifies deck, dealer.hand
      ensures deck.Valid() && HandedOut(old(deck.cards), old(deck.log), deck.cards, deck.log)
      ensures dealer.hand.cards == old(dealer.hand.cards) + deck.log[|old(deck.log)|..]
      ensures AllFaceUp(dealer.hand.cards)
      ensures DealerDraws(old(dealer.hand.cards), deck.log[|old(deck.log)|..])
    {
      ghost var cards0 := dealer.hand.cards;
      ghost var drawn: seq<Card> := [];
      while dealer.IsShortfall()
        invariant deck.Valid() && HandedOut(old(deck.cards), old(deck.log), deck.cards, deck.log)
        invariant deck.log == old(deck.log) + drawn && dealer.hand.cards == cards0 + drawn
        invariant AllFaceUp(dealer.hand.cards)
        invariant DrewBelowStand(cards0, drawn)
        decreases DealerStand - Sum(dealer.hand.cards)
      {
        ghost var shoe, log := deck.cards, deck.log;
        ghost var c := DealerDraw(cards0, drawn);
        HandedOutTrans(old(deck.cards), old(deck.log), shoe, log, deck.cards, deck.log);
        DrawnMore(old(deck.log), drawn, [c]);
        drawn := drawn + [c];
      }
      assert deck.log[|old(deck.log)|..] == drawn;
    }

    /** The settlement of one remaining player against the dealer's final hand. */
    method SettleOne(p: Player)
      requires AllFaceUp(p.hand.cards) && AllFaceUp(dealer.hand.cards)
      modifies p`money
      ensures p.money == old(p.money) + Payoff(Score(p.hand.cards), Score(dealer.hand.cards), p.bet)
    {
      if IsWentOver(dealer.hand.cards) {
        p.WonTheRound();
      } else if Greater(p.hand.cards, dealer.hand.cards) {
        p.WonTheRound();
      } else if Less(p.hand.cards, dealer.hand.cards) {
        p.LooseTheRound();
      }
    }

    /**
     * The settlement of the program's round for the remaining players: all of them win
     * when the dealer went over 21; otherwise a higher total wins, a lower one loses and
     * a tie changes nothing.
     */
    method Settle()
      requires Valid() && InRound() && AllFaceUp(dealer.hand.cards)
      requires forall p :: p in remaining ==> AllFaceUp(p.hand.cards)
      modifies Seated()
      ensures Valid()
      ensures forall p :: p in players ==> p.bet == old(p.bet)
      ensures forall p :: p in players ==>
        p.money == old(p.money) + (if p in remaining then Payoff(Score(p.hand.cards), Score(dealer.hand.cards), p.bet) else 0)
    {
      for k := 0 to |remaining|
        invariant forall p :: p in players ==> p.money >= 0 && p.bet == old(p.bet)
        invariant forall p :: p in remaining ==> p in players && 0 <= p.bet <= old(p.money)
        invariant forall p :: p in players ==>
          p.money == old(p.money) + (if p in remaining[..k] then Payoff(Score(p.hand.cards), Score(dealer.hand.cards), p.bet) else 0)
      {
        var p := remaining[k];
        PayoffRules(Score(p.hand.cards), Score(dealer.hand.cards), p.bet, p.money);
        assert p !in remaining[..k] by {
          DistinctSuffix(remaining, k);
        }
        SettleOne(p);
        assert remaining[..k + 1] == remaining[..k] + [p];
      }
      assert remaining[..|remaining|] == remaining;
    }

    /**
     * The end of the program's round: the hole card is turned over; with nobody left the
     * dealer wins outright, otherwise the dealer plays and the remaining players are settled.
     */
    method Resolve()
      requires Valid() && InRound()
      requires dealer.hand.cards != [] && !dealer.hand.cards[|dealer.hand.cards| - 1].faceUp
      requires AllFaceUp(dealer.hand.cards[..|dealer.hand.cards| - 1])
      requires forall p :: p in remaining ==> AllFaceUp(p.hand.cards)
      modifies deck, dealer.hand, Seated()
      ensures Valid() && HandedOut(old(deck.cards), old(deck.log), deck.cards, deck.log)
      ensures dealer.hand.cards == Revealed(old(dealer.hand.cards)) + deck.log[|old(deck.log)|..]
      ensures remaining == [] ==> deck.log == old(deck.log)
      ensures remaining != [] ==> DealerDraws(Revealed(old(dealer.hand.cards)), deck.log[|old(deck.log)|..])
      ensures forall p :: p in players ==> p.bet == old(p.bet)
      ensures forall p :: p in players ==>
        p.money == old(p.money) + (if p in remaining then Payoff(Score(p.hand.cards), Score(dealer.hand.cards), p.bet) else 0)
    {
      ghost var hole := dealer.hand.cards;
      dealer.FlipTheLastCard();
      assert dealer.hand.cards == Revealed(hole);
      assert AllFaceUp(dealer.hand.cards) by {
        forall k | 0 <= k < |hole| ensures dealer.hand.cards[k].faceUp {
          if k < |hole| - 1 {
            assert dealer.hand.cards[k] == hole[..|hole| - 1][k];
          }
        }
      }
      if remaining != [] {
        DealerTurn();
        Settle();
      } else {
        assert deck.log[|old(deck.log)|..] == [];
      }
    }

    /**
     * The end of the round seen on the seats: the players' hands and who is still in stay
     * as they are, the stakes are settled against the dealer's final hand, and the dealer
     * played out the hole card.
     */
    method ResolveSeats(ghost shoe0: seq<Card>, ghost log0: seq<Card>, ghost seats: seq<Card>)
      requires Valid() && InRound()
      requires dealer.hand.cards != [] && !dealer.hand.cards[|dealer.hand.cards| - 1].faceUp
      requires AllFaceUp(dealer.hand.cards[..|dealer.hand.cards| - 1])
      requires forall p :: p in remaining ==> AllFaceUp(p.hand.cards)
      requires HandedOut(shoe0, log0, deck.cards, deck.log) && deck.log == log0 + seats
      modifies deck, dealer.hand, Seated()
      ensures Valid() && HandedOut(shoe0, log0, deck.cards, deck.log)
      ensures deck.log == log0 + seats + Gained(old(dealer.hand.cards), dealer.hand.cards)
      ensures CardsOf(players) == old(CardsOf(players))
      ensures StakesOf(players) == SettledStakes(old(StakesOf(players)), InSeats(players, remaining), CardsOf(players), dealer.hand.cards)
      ensures DealerPlayed(old(dealer.hand.cards), dealer.hand.cards, remaining != [])
    {
      ghost var hole, shoe, logBefore := dealer.hand.cards, deck.cards, deck.log;
      Resolve();
      HandedOutTrans(shoe0, log0, shoe, logBefore, deck.cards, deck.log);
      SeatsThenDealer(log0, seats, logBefore, deck.log, hole, dealer.hand.cards);
      DealerPlayedFrom(hole, deck.log[|logBefore|..], remaining != []);
      assert forall p :: p in players ==> p.hand.cards == old(p.hand.cards);
      SeatsResolved();
    }

    /** After `Resolve`, seat by seat: every hand is as it was and every stake is settled against the dealer. */
    twostate lemma SeatsResolved()
      requires players == old(players) && remaining == old(remaining)
      requires forall p :: p in players ==> p.hand.cards == old(p.hand.cards) && p.bet == old(p.bet)
      requires forall p :: p in players ==>
        p.money == old(p.money) + (if p in remaining then Payoff(Score(p.hand.cards), Score(dealer.hand.cards), p.bet) else 0)
      ensures CardsOf(players) == old(CardsOf(players))
      ensures StakesOf(players) == SettledStakes(old(StakesOf(players)), InSeats(players, remaining), CardsOf(players), dealer.hand.cards)
    {
      forall k | 0 <= k < |players|
        ensures players[k].hand.cards == old(players[k].hand.cards)
      {
        assert players[k] in players;
      }
      ghost var settled := SettledStakes(old(StakesOf(players)), InSeats(players, remaining), CardsOf(players), dealer.hand.cards);
      forall k | 0 <= k < |players|
        ensures StakesOf(players)[k] == settled[k]
      {
        assert players[k] in players;
      }
    }

    /** The program's `for hand in (*players, dealer): hand.clear()`. */
    method ClearHands()
      requires Valid()
      modifies dealer.hand, SeatedHands()
      ensures Valid() && HandsEmpty()
    {
      var hands := HandsOf(players) + [dealer.hand];
      TableHands();
      for k := 0 to |hands|
        invariant forall j :: 0 <= j < k ==> hands[j].cards == []
      {
        hands[k].Clear();
      }
      forall p | p in players
        ensures p.hand.cards == []
      {
        var i :| 0 <= i < |players| && players[i] == p;
        assert hands[i] == p.hand;
      }
    }

    /**
     * The program's `check_balance_player`: a `for` loop over the seated players that
     * removes each player it finds with a bankroll of 0 from the very list it walks.
     */
    method CheckBalancePlayer()
      requires Valid()
      modifies this`players
      ensures Valid()
      ensures players == Sweep(old(players), Bankrupt(old(players)))
    {
      var list := WalkSeats(players);
      SweepDistinct(players, Bankrupt(players));
      players := list;
    }

    /**
     * The middle of the program's round: the players' turns, then the dealer and the
     * settlement. Seat k's turn reads `answers[starts[k]..starts[k + 1]]`; a player who went
     * over lost the bet, every other player is paid by the payoff rule against the
     * dealer's final hand, and the dealer drew to 17 only if some player was still standing.
     */
    method Play(answers: seq<Answer>) returns (starts: seq<nat>)
      requires Valid() && InRound() && remaining == players
      requires forall k :: 0 <= k < |players| ==> AllFaceUp(players[k].hand.cards)
      requires dealer.hand.cards != [] && !dealer.hand.cards[|dealer.hand.cards| - 1].faceUp
      requires AllFaceUp(dealer.hand.cards[..|dealer.hand.cards| - 1])
      modifies deck, dealer.hand, SeatedHands(), Seated(), this`remaining
      ensures Valid() && HandedOut(old(deck.cards), old(deck.log), deck.cards, deck.log)
      ensures deck.log == old(deck.log) + DrawnBySeats(old(CardsOf(players)), CardsOf(players), |players|) +
                          Gained(old(dealer.hand.cards), dealer.hand.cards)
      ensures SeatsSettled(old(CardsOf(players)), CardsOf(players), dealer.hand.cards, answers, starts,
                           old(StakesOf(players)), StakesOf(players))
      ensures DealerPlayed(old(dealer.hand.cards), dealer.hand.cards, AnyStanding(old(CardsOf(players)), CardsOf(players)))
    {
      ghost var cards0, stakes0, hole := CardsOf(players), StakesOf(players), dealer.hand.cards;
      starts := TurnsInSeatOrder(answers);
      Showdown(answers, starts, cards0, stakes0, old(deck.cards), old(deck.log), hole);
    }

    /**
     * Everything after the last player's turn, given the record of the turns: the dealer
     * plays out the hole card, drawing only if somebody is still standing, the shoe's log
     * grows by the dealer's draws, and every seat is settled against the dealer's final hand.
     */
    method Showdown(ghost answers: seq<Answer>, ghost starts: seq<nat>, ghost cards0: seq<seq<Card>>,
                    ghost stakes0: seq<(int, int)>, ghost shoe0: seq<Card>, ghost log0: seq<Card>, ghost hole: seq<Card>)
      requires Valid() && InRound() && |cards0| == |players|
      requires dealer.hand.cards == hole && hole != [] && !hole[|hole| - 1].faceUp && AllFaceUp(hole[..|hole| - 1])
      requires HandedOut(shoe0, log0, deck.cards, deck.log)
      requires deck.log == log0 + DrawnBySeats(cards0, CardsOf(players), |players|)
      requires SeatsDone(|players|, answers, starts, cards0, stakes0, CardsOf(players), StakesOf(players),
                         InSeats(players, remaining))
      modifies deck, dealer.hand, Seated()
      ensures Valid() && CardsOf(players) == old(CardsOf(players)) && HandedOut(shoe0, log0, deck.cards, deck.log)
      ensures deck.log == log0 + DrawnBySeats(cards0, CardsOf(players), |players|) + Gained(hole, dealer.hand.cards)
      ensures SeatsSettled(cards0, CardsOf(players), dealer.hand.cards, answers, starts, stakes0, StakesOf(players))
      ensures DealerPlayed(hole, dealer.hand.cards, AnyStanding(cards0, CardsOf(players)))
    {
      ghost var turned, mid, stillIn := CardsOf(players), StakesOf(players), InSeats(players, remaining);
      SeatsDoneFaceUp(answers, starts, cards0, stakes0, turned, mid, stillIn);
      forall p | p in remaining
        ensures AllFaceUp(p.hand.cards)
      {
        var k :| 0 <= k < |players| && players[k] == p;
        assert turned[k] == p.hand.cards;
      }
      RemainingIffStillIn();
      ResolveSeats(shoe0, log0, DrawnBySeats(cards0, turned, |players|));
      SeatsSettledFrom(answers, starts, cards0, stakes0, turned, mid, stillIn, dealer.hand.cards);
    }

    /**
     * The opening of the program's round: the bets, in seat order, then the first deal.
     * Bankrolls are untouched; with n players, seat i holds the i-th and the (n+1+i)-th
     * card handed out, face up, and the dealer holds the n-th card face up and the last
     * one face down.
     */
    method BeginRound(betAnswers: seq<seq<string>>) returns (betsRead: seq<nat>)
      requires Valid() && HandsEmpty()
      requires |betAnswers| == |players|
      requires forall k :: 0 <= k < |players| ==> SomeBetAccepted(betAnswers[k], players[k].money)
      modifies this`remaining, Seated(), deck, dealer.hand, SeatedHands()
      ensures Valid() && InRound() && remaining == players
      ensures |betsRead| == |players|
      ensures forall k :: 0 <= k < |players| ==>
        players[k].money == old(players[k].money) &&
        BetTaken(betAnswers[k], players[k].money, betsRead[k], players[k].bet)
      ensures HandedOut(old(deck.cards), old(deck.log), deck.cards, deck.log) && |deck.log| == |old(deck.log)| + 2 * (|players| + 1)
      ensures forall i :: 0 <= i < |players| ==>
        players[i].hand.cards == [deck.log[|old(deck.log)| + i], deck.log[|old(deck.log)| + |players| + 1 + i]] &&
        AllFaceUp(players[i].hand.cards)
      ensures dealer.hand.cards == [deck.log[|old(deck.log)| + |players|], Flip(deck.log[|old(deck.log)| + 2 * |players| + 1])]
      ensures dealer.hand.cards[0].faceUp && !dealer.hand.cards[1].faceUp
    {
      betsRead := PlaceBets(betAnswers);
      FirstDistribution();
    }

    /** The close of the program's round: every hand is cleared, then bankrupt players are swept out. */
    method EndRound()
      requires Valid()
      modifies dealer.hand, SeatedHands(), this`players
      ensures Valid() && HandsEmpty()
      ensures players == Sweep(old(players), Bankrupt(old(players)))
      ensures StakesOf(old(players)) == old(StakesOf(players))
    {
      ClearHands();
      CheckBalancePlayer();
    }

    /**
     * `BeginRound`, with what it did recorded as values: the hands dealt, the stakes
     * after the bets and the dealer's two cards are returned as `dealt`, `staked` and
     * `hole`, and they open the round as `RoundOpened` says.
     */
    method OpenRound(betAnswers: seq<seq<string>>)
      returns (betsRead: seq<nat>, ghost dealt: seq<seq<Card>>, ghost staked: seq<(int, int)>, ghost hole: seq<Card>)
      requires Valid() && HandsEmpty()
      requires |betAnswers| == |players|
      requires forall k :: 0 <= k < |players| ==> SomeBetAccepted(betAnswers[k], players[k].money)
      modifies this`remaining, Seated(), deck, dealer.hand, SeatedHands()
      ensures Valid() && InRound() && remaining == players && HandedOut(old(deck.cards), old(deck.log), deck.cards, deck.log)
      ensures dealt == CardsOf(players) && staked == StakesOf(players) && hole == dealer.hand.cards
      ensures RoundOpened(betAnswers, old(MoneyOf(players)), betsRead, dealt, staked, hole, old(deck.log), deck.log)
      ensures forall k :: 0 <= k < |players| ==> AllFaceUp(players[k].hand.cards)
    {
      betsRead := BeginRound(betAnswers);
      FirstDealOf(players, dealer.hand.cards, old(deck.log), deck.log);
      dealt, staked, hole := CardsOf(players), StakesOf(players), dealer.hand.cards;
    }

    /**
     * The round up to the settlement. Player k bet what the prompt accepted, leaving the
     * stakes `staked[k]` (bankroll, bet); was dealt the two face-up cards `dealt[k]`; took
     * the turn that read `answers[starts[k]..starts[k + 1]]`; and was settled against the
     * dealer, whose first deal `hole` ended on the face-down hole card.
     */
    method BetAndPlay(betAnswers: seq<seq<string>>, answers: seq<Answer>)
      returns (betsRead: seq<nat>, starts: seq<nat>, ghost dealt: seq<seq<Card>>, ghost staked: seq<(int, int)>,
               ghost hole: seq<Card>)
      requires Valid() && HandsEmpty()
      requires |betAnswers| == |players|
      requires forall k :: 0 <= k < |players| ==> SomeBetAccepted(betAnswers[k], players[k].money)
      modifies this`remaining, deck, dealer.hand, Seated(), SeatedHands()
      ensures Valid() && players == old(players) && HandedOut(old(deck.cards), old(deck.log), deck.cards, deck.log)
      ensures RoundPlayed(betAnswers, answers, old(MoneyOf(players)), betsRead, starts, dealt, staked, hole,
                          CardsOf(players), dealer.hand.cards, StakesOf(players), old(deck.log), deck.log)
    {
      betsRead, dealt, staked, hole := OpenRound(betAnswers);
      ghost var shoe, log := deck.cards, deck.log;
      starts := Play(answers);
      RoundPlayedFrom(betAnswers, answers, old(MoneyOf(players)), betsRead, starts, dealt, staked, hole,
                      CardsOf(players), dealer.hand.cards, StakesOf(players), old(deck.log), log, deck.log);
      HandedOutTrans(old(deck.cards), old(deck.log), shoe, log, deck.cards, deck.log);
    }

    /**
     * One pass of the program's `loop`: bets, the first deal, the players' turns, the
     * dealer and the settlement, clearing the hands, and the sweep of bankrupt players.
     * `betAnswers[k]` is what player k types at the bet prompt and `answers` is what the
     * players type at the card prompt, in turn order. The hands the seats and the dealer
     * held before the clearing are returned as `final` and `dealerFinal`; every seat of
     * the round, swept out or not, is settled on them.
     */
    method PlayRound(betAnswers: seq<seq<string>>, answers: seq<Answer>)
      returns (betsRead: seq<nat>, starts: seq<nat>, ghost dealt: seq<seq<Card>>, ghost staked: seq<(int, int)>,
               ghost hole: seq<Card>, ghost final: seq<seq<Card>>, ghost dealerFinal: seq<Card>)
      requires Valid() && HandsEmpty()
      requires |betAnswers| == |players|
      requires forall k :: 0 <= k < |players| ==> SomeBetAccepted(betAnswers[k], players[k].money)
      modifies this, deck, dealer.hand, Seated(), SeatedHands()
      ensures Valid() && HandsEmpty()
      ensures players == Sweep(old(players), Bankrupt(old(players)))
      ensures HandedOut(old(deck.cards), old(deck.log), deck.cards, deck.log)
      ensures RoundPlayed(betAnswers, answers, old(MoneyOf(players)), betsRead, starts, dealt, staked, hole,
                          final, dealerFinal, StakesOf(old(players)), old(deck.log), deck.log)
    {
      betsRead, starts, dealt, staked, hole := BetAndPlay(betAnswers, answers);
      final, dealerFinal := CardsOf(players), dealer.hand.cards;
      EndRound();
    }
  }

  /**
   * The loop of `check_balance_player` over the list `seats` it shrinks: the index moves
   * on after every player it looks at, and a bankrupt player is removed from the list.
   */
  method WalkSeats(seats: seq<Player>) returns (list: seq<Player>)
    requires Distinct(seats)
    ensures list == Sweep(seats, Bankrupt(seats))
  {
    list := seats;
    ghost var broke := Bankrupt(seats);
    ghost var done: seq<Player> := [];
    ghost var j: nat := 0;
    var i: nat := 0;
    assert seats[j..] == seats && broke[j..] == broke;
    while i < |list|
      invariant Walking(seats, broke, done, j, i, list)
      decreases |list| - i
    {
      var p := list[i];
      WalkAt(seats, broke, done, j, i, list);
      if p.money == 0 {
        done, j := WalkDrop(seats, broke, done, j, i, list);
        list := RemoveFirst(list, p);
      } else {
        WalkKeep(seats, broke, done, j, i, list);
        done, j := done + [p], j + 1;
      }
      i := i + 1;
    }
    WalkDone(seats, broke, done, j, i, list);
  }
}
