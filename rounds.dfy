/**
 * Pure rules of a round: how a player's turn consumes answers and draws cards,
 * how `list.remove` and the bankrupt sweep over the seated players behave.
 */
module Rounds {
  import opened Cards
  import opened Hands

  /** An answer to "do you want a card, y/n?", after lower-casing: "y", "n" or anything else. */
  datatype Answer = Yes | No | Other

  /** No element occurs twice. */
  predicate Distinct<T(==)>(s: seq<T>) {
    forall i, j :: 0 <= i < j < |s| ==> s[i] != s[j]
  }

  /** A suffix of a list without repetitions has none either. */
  lemma DistinctSuffix<T>(s: seq<T>, n: int)
    requires Distinct(s) && 0 <= n <= |s|
    ensures Distinct(s[n..])
    ensures forall i :: 0 <= i < n ==> s[i] !in s[n..]
  {
    forall i, j | 0 <= i < j < |s| - n ensures s[n..][i] != s[n..][j] {
      assert s[n..][i] == s[i + n] && s[n..][j] == s[j + n];
    }
    forall i | 0 <= i < n ensures s[i] !in s[n..] {
      forall j | 0 <= j < |s| - n ensures s[n..][j] != s[i] {
        assert s[n..][j] == s[j + n];
      }
    }
  }

  /** Number of "y" answers. */
  function CountYes(answers: seq<Answer>): (n: nat)
    ensures n <= |answers|
  {
    if answers == [] then 0
    else (if answers[0] == Yes then 1 else 0) + CountYes(answers[1..])
  }

  /**
   * A complete player turn: starting from `cards` and reading the console `answers`,
   * the turn reads the first `used` answers and draws `drawn`, in order. While the
   * total is below 21 an answer is read: "n" ends the turn, "y" draws a card, anything
   * else is ignored. The turn also ends once the total reaches 21 or when no answer is left.
   */
  predicate TurnRun(cards: seq<Card>, answers: seq<Answer>, used: nat, drawn: seq<Card>)
    decreases |answers|
  {
    if Score(cards) >= 21 || answers == [] then used == 0 && drawn == []
    else if answers[0] == No then used == 1 && drawn == []
    else if answers[0] == Yes then
      used >= 1 && drawn != [] && TurnRun(cards + [drawn[0]], answers[1..], used - 1, drawn[1..])
    else
      used >= 1 && TurnRun(cards, answers[1..], used - 1, drawn)
  }

  /** The first `used` answers were read, none of them "n", and drew `drawn`: a turn still going on. */
  predicate Ongoing(cards: seq<Card>, answers: seq<Answer>, used: nat, drawn: seq<Card>)
    decreases used
  {
    if used == 0 then drawn == []
    else
      answers != [] && Score(cards) < 21 && answers[0] != No &&
      if answers[0] == Yes then
        drawn != [] && Ongoing(cards + [drawn[0]], answers[1..], used - 1, drawn[1..])
      else
        Ongoing(cards, answers[1..], used - 1, drawn)
  }

  /** The first card drawn moves from `drawn` to the hand; more cards after `drawn` stay behind it. */
  lemma DrawnHead(cards: seq<Card>, drawn: seq<Card>, extra: seq<Card>)
    requires drawn != []
    ensures (cards + [drawn[0]]) + drawn[1..] == cards + drawn
    ensures (drawn + extra)[0] == drawn[0] && (drawn + extra)[1..] == drawn[1..] + extra
  {
    assert drawn == [drawn[0]] + drawn[1..];
  }

  /** The first answer read, when it is not "n" and the total is below 21, starts a turn. */
  lemma OngoingFirst(cards: seq<Card>, answers: seq<Answer>, c: Card)
    requires answers != [] && answers[0] != No && Score(cards) < 21
    ensures Ongoing(cards, answers, 1, if answers[0] == Yes then [c] else [])
  {
    if answers[0] == Yes {
      assert [c][1..] == [];
    }
  }

  /** Reading one more answer that is not "n" while below 21 keeps the turn going. */
  lemma {:induction false} OngoingExtend(cards: seq<Card>, answers: seq<Answer>, used: nat, drawn: seq<Card>, c: Card)
    requires Ongoing(cards, answers, used, drawn)
    requires used < |answers| && answers[used] != No && Score(cards + drawn) < 21
    ensures Ongoing(cards, answers, used + 1, drawn + if answers[used] == Yes then [c] else [])
    decreases used
  {
    var extra := if answers[used] == Yes then [c] else [];
    if used == 0 {
      assert cards + drawn == cards && drawn + extra == extra;
      OngoingFirst(cards, answers, c);
    } else if answers[0] == Yes {
      DrawnHead(cards, drawn, extra);
      assert answers[1..][used - 1] == answers[used];
      OngoingExtend(cards + [drawn[0]], answers[1..], used - 1, drawn[1..], c);
    } else {
      assert answers[1..][used - 1] == answers[used];
      OngoingExtend(cards, answers[1..], used - 1, drawn, c);
    }
  }

  /** A turn that went on for `used` answers and then ran as `rest` is a complete turn. */
  lemma {:induction false} OngoingThenRun(cards: seq<Card>, answers: seq<Answer>, used: nat, drawn: seq<Card>,
                                          restUsed: nat, restDrawn: seq<Card>)
    requires Ongoing(cards, answers, used, drawn) && used <= |answers|
    requires TurnRun(cards + drawn, answers[used..], restUsed, restDrawn)
    ensures TurnRun(cards, answers, used + restUsed, drawn + restDrawn)
    decreases used
  {
    if used == 0 {
      assert cards + drawn == cards && answers[used..] == answers && drawn + restDrawn == restDrawn;
    } else if answers[0] == Yes {
      DrawnHead(cards, drawn, restDrawn);
      assert answers[1..][used - 1..] == answers[used..];
      OngoingThenRun(cards + [drawn[0]], answers[1..], used - 1, drawn[1..], restUsed, restDrawn);
    } else {
      assert answers[1..][used - 1..] == answers[used..];
      OngoingThenRun(cards, answers[1..], used - 1, drawn, restUsed, restDrawn);
    }
  }

  /**
   * Where a turn still going on stops: at 21 or more or when the answers run out it
   * ends where it stands; otherwise the answer that stops it is an "n", read as the last one.
   */
  lemma FinishTurn(cards: seq<Card>, answers: seq<Answer>, used: nat, drawn: seq<Card>)
    requires Ongoing(cards, answers, used, drawn) && used <= |answers|
    requires !(used < |answers| && Score(cards + drawn) < 21 && answers[used] != No)
    ensures var stop := if used < |answers| && Score(cards + drawn) < 21 then used + 1 else used;
      TurnRun(cards, answers, stop, drawn)
  {
    var rest := answers[used..];
    assert drawn + [] == drawn;
    if used < |answers| && Score(cards + drawn) < 21 {
      assert rest != [] && rest[0] == No;
      assert TurnRun(cards + drawn, rest, 1, []);
      OngoingThenRun(cards, answers, used, drawn, 1, []);
    } else {
      assert Score(cards + drawn) >= 21 || rest == [];
      assert TurnRun(cards + drawn, rest, 0, []);
      OngoingThenRun(cards, answers, used, drawn, 0, []);
    }
  }

  /**
   * What a turn reads and draws: at most the answers there are, exactly one card per
   * "y" it read, and nothing at all from a hand already at 21 or more.
   */
  lemma {:induction false} TurnRunCounts(cards: seq<Card>, answers: seq<Answer>, used: nat, drawn: seq<Card>)
    requires TurnRun(cards, answers, used, drawn)
    ensures used <= |answers|
    ensures |drawn| == CountYes(answers[..used])
    ensures Score(cards) >= 21 ==> used == 0 && drawn == []
    decreases |answers|
  {
    if Score(cards) >= 21 || answers == [] {
      assert answers[..used] == [];
    } else if answers[0] == No {
      assert answers[..used] == [No];
      assert CountYes([No]) == CountYes([No][1..]);
    } else {
      var next := if answers[0] == Yes then cards + [drawn[0]] else cards;
      var rest := if answers[0] == Yes then drawn[1..] else drawn;
      TurnRunCounts(next, answers[1..], used - 1, rest);
      assert answers[..used][1..] == answers[1..][..used - 1];
    }
  }

  /** A turn reads no "n" except possibly as its last answer. */
  lemma {:induction false} TurnRunNoEarlyNo(cards: seq<Card>, answers: seq<Answer>, used: nat, drawn: seq<Card>)
    requires TurnRun(cards, answers, used, drawn)
    ensures used <= |answers|
    ensures forall k :: 0 <= k < used - 1 ==> answers[k] != No
    decreases |answers|
  {
    if Score(cards) >= 21 || answers == [] || answers[0] == No {
    } else {
      var next := if answers[0] == Yes then cards + [drawn[0]] else cards;
      var rest := if answers[0] == Yes then drawn[1..] else drawn;
      TurnRunNoEarlyNo(next, answers[1..], used - 1, rest);
      forall k | 0 < k < used - 1
        ensures answers[k] != No
      {
        assert answers[k] == answers[1..][k - 1];
      }
    }
  }

  /** A turn ends only at a total of 21 or more, on an "n", or when the answers run out. */
  lemma {:induction false} TurnRunStops(cards: seq<Card>, answers: seq<Answer>, used: nat, drawn: seq<Card>)
    requires TurnRun(cards, answers, used, drawn)
    ensures Score(cards + drawn) >= 21 || used == |answers| || (0 < used <= |answers| && answers[used - 1] == No)
    decreases |answers|
  {
    if Score(cards) >= 21 || answers == [] {
      assert cards + drawn == cards;
    } else if answers[0] == No {
    } else if answers[0] == Yes {
      var next := cards + [drawn[0]];
      DrawnHead(cards, drawn, []);
      TurnRunStops(next, answers[1..], used - 1, drawn[1..]);
      TurnRunCounts(next, answers[1..], used - 1, drawn[1..]);
      if used > 1 {
        assert answers[1..][used - 2] == answers[used - 1];
      }
    } else {
      TurnRunStops(cards, answers[1..], used - 1, drawn);
      TurnRunCounts(cards, answers[1..], used - 1, drawn);
      if used > 1 {
        assert answers[1..][used - 2] == answers[used - 1];
      }
    }
  }

  /** The same answers and the same cards lead to the same number of answers read. */
  lemma {:induction false} TurnRunDeterministic(cards: seq<Card>, answers: seq<Answer>, used1: nat, used2: nat, drawn: seq<Card>)
    requires TurnRun(cards, answers, used1, drawn) && TurnRun(cards, answers, used2, drawn)
    ensures used1 == used2
    decreases |answers|
  {
    if Score(cards) >= 21 || answers == [] || answers[0] == No {
    } else if answers[0] == Yes {
      TurnRunDeterministic(cards + [drawn[0]], answers[1..], used1 - 1, used2 - 1, drawn[1..]);
    } else {
      TurnRunDeterministic(cards, answers[1..], used1 - 1, used2 - 1, drawn);
    }
  }

  /** Every card of a turn is drawn while the hand is below 21. */
  lemma {:induction false} TurnDrawsBelow21(cards: seq<Card>, answers: seq<Answer>, used: nat, drawn: seq<Card>)
    requires TurnRun(cards, answers, used, drawn)
    ensures forall n :: 0 <= n < |drawn| ==> Score(cards + drawn[..n]) < 21
    decreases |answers|
  {
    if Score(cards) >= 21 || answers == [] || answers[0] == No {
    } else if answers[0] == Yes {
      var next := cards + [drawn[0]];
      TurnDrawsBelow21(next, answers[1..], used - 1, drawn[1..]);
      forall n | 0 <= n < |drawn| ensures Score(cards + drawn[..n]) < 21 {
        if n == 0 {
          assert cards + drawn[..n] == cards;
        } else {
          assert cards + drawn[..n] == next + drawn[1..][..n - 1];
        }
      }
    } else {
      TurnDrawsBelow21(cards, answers[1..], used - 1, drawn);
    }
  }

  /** A player went over 21 during the turn: the hand grew and its total is above 21. */
  predicate Busted(before: seq<Card>, after: seq<Card>) {
    |after| > |before| && Score(after) > 21
  }

  /**
   * The outcome of one player's turn: the hand `before` grew to `after` by the cards of
   * a turn that read the first `used` answers, and the bankroll lost the bet exactly
   * when the player went over 21.
   */
  predicate TurnOutcome(before: seq<Card>, after: seq<Card>, answers: seq<Answer>, used: nat,
                        money0: int, money: int, bet: int) {
    |before| <= |after| && after[..|before|] == before &&
    TurnRun(before, answers, used, after[|before|..]) &&
    money == (if Busted(before, after) then money0 - bet else money0)
  }

  /** Successor step of multiplication, used for the positions of a deal. */
  lemma MulSucc(a: nat, n: nat)
    ensures (a + 1) * n == a * n + n
  {
  }

  /**
   * The cards the hand in seat `i` of `n` receives when `passes` passes of one card
   * per hand are dealt from the cards handed out after position `base` of `log`.
   */
  function Dealt(log: seq<Card>, base: nat, n: nat, i: nat, passes: nat): (d: seq<Card>)
    requires i < n && (passes > 0 ==> base + (passes - 1) * n + i < |log|)
    ensures |d| == passes
    decreases passes
  {
    if passes == 0 then []
    else
      assert passes > 1 ==> (passes - 2) * n + n == (passes - 1) * n;
      Dealt(log, base, n, i, passes - 1) + [log[base + (passes - 1) * n + i]]
  }

  /** Cards handed out later do not change what an earlier deal gave. */
  lemma {:induction false} DealtPrefix(log: seq<Card>, longer: seq<Card>, base: nat, n: nat, i: nat, passes: nat)
    requires i < n && (passes > 0 ==> base + (passes - 1) * n + i < |log|)
    requires |log| <= |longer| && longer[..|log|] == log
    ensures Dealt(longer, base, n, i, passes) == Dealt(log, base, n, i, passes)
    decreases passes
  {
    if passes > 1 {
      MulSucc(passes - 2, n);
      DealtPrefix(log, longer, base, n, i, passes - 1);
    }
    if passes > 0 {
      var at := base + (passes - 1) * n + i;
      assert longer[at] == longer[..|log|][at];
    }
  }

  /** One more pass gives seat i the i-th card of that pass. */
  lemma DealtStep(log: seq<Card>, longer: seq<Card>, base: nat, n: nat, i: nat, passes: nat)
    requires i < n && |log| == base + passes * n && |longer| == |log| + n
    requires longer[..|log|] == log
    ensures base + passes * n + i < |longer|
    ensures Dealt(longer, base, n, i, passes + 1) == Dealt(log, base, n, i, passes) + [longer[|log| + i]]
  {
    MulSucc(passes, n);
    if passes > 0 {
      MulSucc(passes - 1, n);
    }
    DealtPrefix(log, longer, base, n, i, passes);
  }

  /**
   * After `passes` passes over n = |cards0| hands, dealt from position `base` of `log`,
   * which has grown by exactly one card per hand and pass, each hand holds what it had
   * plus what the deal gave its seat.
   */
  predicate DealtSoFar(cards0: seq<seq<Card>>, cards: seq<seq<Card>>, log: seq<Card>, base: nat, passes: nat) {
    var n := |cards0|;
    |cards| == n && |log| == base + passes * n &&
    assert passes > 0 ==> (passes - 1) * n + n == passes * n by {
      if passes > 0 { MulSucc(passes - 1, n); }
    }
    forall i :: 0 <= i < n ==> cards[i] == cards0[i] + Dealt(log, base, n, i, passes)
  }

  /** One more pass, one card to each hand in seat order, keeps the deal accounted for. */
  lemma DealtPassStep(cards0: seq<seq<Card>>, before: seq<seq<Card>>, after: seq<seq<Card>>,
                      log: seq<Card>, longer: seq<Card>, base: nat, passes: nat)
    requires DealtSoFar(cards0, before, log, base, passes)
    requires |longer| == |log| + |cards0| && longer[..|log|] == log
    requires |after| == |cards0| && forall i :: 0 <= i < |cards0| ==> after[i] == before[i] + [longer[|log| + i]]
    ensures DealtSoFar(cards0, after, longer, base, passes + 1)
  {
    var n := |cards0|;
    MulSucc(passes, n);
    forall i | 0 <= i < n
      ensures after[i] == cards0[i] + Dealt(longer, base, n, i, passes + 1)
    {
      DealtStep(log, longer, base, n, i, passes);
    }
  }

  /** Two passes give seat i the i-th card of each pass. */
  lemma DealtTwice(log: seq<Card>, base: nat, n: nat, i: nat)
    requires i < n && base + 2 * n <= |log|
    ensures base + n + i < |log|
    ensures Dealt(log, base, n, i, 2) == [log[base + i], log[base + n + i]]
  {
    MulSucc(0, n);
  }

  /** Two passes over empty hands: hand i holds the i-th and the (n+i)-th card dealt. */
  lemma DealtTwoFromEmpty(cards0: seq<seq<Card>>, cards: seq<seq<Card>>, log: seq<Card>, base: nat)
    requires DealtSoFar(cards0, cards, log, base, 2)
    requires forall i :: 0 <= i < |cards0| ==> cards0[i] == []
    requires AllFaceUp(log[base..])
    ensures |log| == base + 2 * |cards0|
    ensures forall i :: 0 <= i < |cards0| ==>
      cards[i] == [log[base + i], log[base + |cards0| + i]] && AllFaceUp(cards[i])
  {
    forall i | 0 <= i < |cards0|
      ensures cards[i] == [log[base + i], log[base + |cards0| + i]] && AllFaceUp(cards[i])
    {
      DealtTwice(log, base, |cards0|, i);
      assert [] + Dealt(log, base, |cards0|, i, 2) == Dealt(log, base, |cards0|, i, 2);
      assert log[base + i] == log[base..][i] && log[base + |cards0| + i] == log[base..][|cards0| + i];
    }
  }

  /** Python's `list.remove`: drops the first occurrence of `x`; an absent `x` raises, so it must be present. */
  function RemoveFirst<T(==)>(s: seq<T>, x: T): (r: seq<T>)
    requires x in s
    ensures |r| == |s| - 1 && multiset(r) == multiset(s) - multiset{x}
  {
    assert s == [s[0]] + s[1..];
    if s[0] == x then s[1..] else [s[0]] + RemoveFirst(s[1..], x)
  }

  /** Removing from a list without repetitions removes exactly that element and keeps the rest. */
  lemma {:induction false} RemoveFirstDistinct<T>(s: seq<T>, x: T)
    requires Distinct(s) && x in s
    ensures Distinct(RemoveFirst(s, x))
    ensures forall y :: y in RemoveFirst(s, x) <==> y in s && y != x
  {
    if s != [] {
      DistinctSuffix(s, 1);
      if s[0] != x {
        RemoveFirstDistinct(s[1..], x);
        var r := RemoveFirst(s[1..], x);
        assert s[0] !in r;
        forall i, j | 0 <= i < j < |[s[0]] + r| ensures ([s[0]] + r)[i] != ([s[0]] + r)[j] {
          if i > 0 {
            assert ([s[0]] + r)[i] == r[i - 1] && ([s[0]] + r)[j] == r[j - 1];
          } else {
            assert ([s[0]] + r)[j] == r[j - 1];
          }
        }
      }
    }
  }

  /** Removing an element whose first occurrence is at position k cuts that position out. */
  lemma {:induction false} RemoveFirstAt<T>(s: seq<T>, k: int)
    requires 0 <= k < |s| && s[k] !in s[..k]
    ensures RemoveFirst(s, s[k]) == s[..k] + s[k + 1..]
    decreases k
  {
    if k > 0 {
      var x, t := s[k], s[1..];
      assert t[k - 1] == x && s[0] == s[..k][0];
      assert t[..k - 1] == s[..k][1..];
      RemoveFirstAt(t, k - 1);
      assert [s[0]] + t[..k - 1] == s[..k] && t[k..] == s[k + 1..];
    }
  }

  /**
   * The program's `check_balance_player`, written as Python runs it: a `for` loop over
   * the list that removes every bankrupt player it looks at; each removal shifts the
   * next player into the slot just visited, so that player is never looked at.
   */
  function Sweep<T>(s: seq<T>, broke: seq<bool>): (r: seq<T>)
    requires |broke| == |s|
    ensures |r| <= |s|
    ensures forall y :: y in r ==> y in s
    decreases |s|
  {
    if s == [] then []
    else if !broke[0] then [s[0]] + Sweep(s[1..], broke[1..])
    else if |s| == 1 then []
    else [s[1]] + Sweep(s[2..], broke[2..])
  }

  /** One step of the sweep over a player who is not bankrupt: the player stays. */
  lemma SweepStepKeep<T>(s: seq<T>, broke: seq<bool>, done: seq<T>, j: nat)
    requires |broke| == |s| && j < |s| && !broke[j]
    requires Sweep(s, broke) == done + Sweep(s[j..], broke[j..])
    ensures Sweep(s, broke) == (done + [s[j]]) + Sweep(s[j + 1..], broke[j + 1..])
  {
    assert s[j..][1..] == s[j + 1..] && broke[j..][1..] == broke[j + 1..];
  }

  /** One step of the sweep over a bankrupt player: the player leaves and the next one is kept unseen. */
  lemma SweepStepDrop<T>(s: seq<T>, broke: seq<bool>, done: seq<T>, j: nat)
    requires |broke| == |s| && j < |s| && broke[j]
    requires Sweep(s, broke) == done + Sweep(s[j..], broke[j..])
    ensures j + 1 < |s| ==> Sweep(s, broke) == (done + [s[j + 1]]) + Sweep(s[j + 2..], broke[j + 2..])
    ensures j + 1 == |s| ==> Sweep(s, broke) == done
  {
    if j + 1 < |s| {
      assert s[j..][2..] == s[j + 2..] && broke[j..][2..] == broke[j + 2..];
      assert s[j..][1] == s[j + 1];
    } else {
      assert done + [] == done;
    }
  }

  /** Moving the seam between `done` and the rest of `s` one place on. */
  lemma SeamShift<T>(done: seq<T>, s: seq<T>, j: nat)
    requires j < |s|
    ensures done + s[j..] == (done + [s[j]]) + s[j + 1..]
  {
    assert s[j..] == [s[j]] + s[j + 1..];
  }

  /**
   * Removing the element at position |done| of `done + s[j..]`, a list without
   * repetitions: the next element of `s`, if any, moves to that position.
   */
  lemma RemoveAtSeam<T>(done: seq<T>, s: seq<T>, j: nat)
    requires j < |s| && Distinct(done + s[j..])
    ensures s[j] in done + s[j..]
    ensures RemoveFirst(done + s[j..], s[j]) == done + s[j + 1..] && Distinct(done + s[j + 1..])
    ensures j + 1 < |s| ==> RemoveFirst(done + s[j..], s[j]) == (done + [s[j + 1]]) + s[j + 2..]
    ensures j + 1 == |s| ==> RemoveFirst(done + s[j..], s[j]) == done
  {
    var l := done + s[j..];
    assert l[|done|] == s[j];
    assert l[..|done|] == done;
    assert s[j] !in done by {
      forall i | 0 <= i < |done| ensures done[i] != s[j] {
        assert l[i] == done[i];
      }
    }
    RemoveFirstAt(l, |done|);
    RemoveFirstDistinct(l, s[j]);
    assert l[..|done|] == done && l[|done| + 1..] == s[j + 1..];
    if j + 1 < |s| {
      SeamShift(done, s, j + 1);
    } else {
      assert done + s[j + 1..] == done;
    }
  }

  /**
   * Where the walk over the shrinking list stands: the list is the players kept so far,
   * `done`, followed by the seats not yet looked at, `s[j..]`, without repetitions; the
   * index `i` points just past `done`, or one further once the walk ran past the end;
   * and sweeping the seats not yet looked at finishes the sweep of `s`.
   */
  predicate Walking<T(==)>(s: seq<T>, broke: seq<bool>, done: seq<T>, j: nat, i: nat, list: seq<T>)
  {
    j <= |s| && |broke| == |s| && list == done + s[j..] && Distinct(list) &&
    Sweep(s, broke) == done + Sweep(s[j..], broke[j..]) &&
    (i == |done| || (i == |done| + 1 && j == |s|))
  }

  /** The player the walk looks at next, at index i, is seat j. */
  lemma WalkAt<T>(s: seq<T>, broke: seq<bool>, done: seq<T>, j: nat, i: nat, list: seq<T>)
    requires Walking(s, broke, done, j, i, list) && i < |list|
    ensures j < |s| && i == |done| && list[i] == s[j]
  {
    assert (done + s[j..])[|done|] == s[j..][0];
  }

  /** Looking at a solvent player keeps the player where it is. */
  lemma WalkKeep<T>(s: seq<T>, broke: seq<bool>, done: seq<T>, j: nat, i: nat, list: seq<T>)
    requires Walking(s, broke, done, j, i, list) && i < |list| && j < |s| && !broke[j]
    ensures Walking(s, broke, done + [s[j]], j + 1, i + 1, list)
  {
    WalkAt(s, broke, done, j, i, list);
    SweepStepKeep(s, broke, done, j);
    SeamShift(done, s, j);
  }

  /**
   * Removing the bankrupt player at index i shifts the next seat into that slot, so
   * the index, moving on, passes over it: that seat is kept without being looked at.
   */
  lemma WalkDrop<T>(s: seq<T>, broke: seq<bool>, done: seq<T>, j: nat, i: nat, list: seq<T>)
    returns (done': seq<T>, j': nat)
    requires Walking(s, broke, done, j, i, list) && i < |list| && j < |s| && broke[j]
    ensures s[j] in list && Walking(s, broke, done', j', i + 1, RemoveFirst(list, s[j]))
  {
    WalkAt(s, broke, done, j, i, list);
    SweepStepDrop(s, broke, done, j);
    RemoveAtSeam(done, s, j);
    if j + 1 < |s| {
      done', j' := done + [s[j + 1]], j + 2;
    } else {
      done', j' := done, j + 1;
    }
  }

  /** Once the index is past the end of the list, the list is the sweep of `s`. */
  lemma WalkDone<T>(s: seq<T>, broke: seq<bool>, done: seq<T>, j: nat, i: nat, list: seq<T>)
    requires Walking(s, broke, done, j, i, list) && |list| <= i
    ensures list == Sweep(s, broke)
  {
    assert j == |s| && s[j..] == [] && broke[j..] == [];
  }

  /** Keeping exactly the players that are not bankrupt: what the sweep is evidently meant to do. */
  function KeepSolvent<T>(s: seq<T>, broke: seq<bool>): (r: seq<T>)
    requires |broke| == |s|
    ensures |r| <= |s|
  {
    if s == [] then []
    else (if broke[0] then [] else [s[0]]) + KeepSolvent(s[1..], broke[1..])
  }

  /** `r` is `s` with some elements left out, the others in their order. */
  predicate Subsequence<T(==)>(r: seq<T>, s: seq<T>)
    decreases |s|
  {
    if r == [] then true
    else if s == [] then false
    else if r[0] == s[0] then Subsequence(r[1..], s[1..])
    else Subsequence(r, s[1..])
  }

  lemma {:induction false} SubsequenceTail<T>(r: seq<T>, s: seq<T>)
    requires r != [] && Subsequence(r, s)
    ensures Subsequence(r[1..], s)
    decreases |s|, 0
  {
    if r[0] == s[0] {
      SubsequenceCons(r[1..], s[1..], s[0]);
      assert [s[0]] + s[1..] == s;
    } else {
      SubsequenceTail(r, s[1..]);
      SubsequenceCons(r[1..], s[1..], s[0]);
      assert [s[0]] + s[1..] == s;
    }
  }

  lemma {:induction false} SubsequenceCons<T>(r: seq<T>, s: seq<T>, x: T)
    requires Subsequence(r, s)
    ensures Subsequence(r, [x] + s)
    decreases |s|, 1
  {
    assert ([x] + s)[1..] == s;
    if r != [] && r[0] == x {
      if s != [] {
        SubsequenceTail(r, s);
      }
    }
  }

  /** The sweep keeps the survivors in their original order. */
  lemma {:induction false} SweepSubsequence<T>(s: seq<T>, broke: seq<bool>)
    requires |broke| == |s|
    ensures Subsequence(Sweep(s, broke), s)
    decreases |s|
  {
    if s == [] {
    } else if !broke[0] {
      SweepSubsequence(s[1..], broke[1..]);
      assert ([s[0]] + Sweep(s[1..], broke[1..]))[1..] == Sweep(s[1..], broke[1..]);
    } else if |s| > 1 {
      var r := [s[1]] + Sweep(s[2..], broke[2..]);
      SweepSubsequence(s[2..], broke[2..]);
      assert r[1..] == Sweep(s[2..], broke[2..]);
      assert s[1..][1..] == s[2..];
      assert Subsequence(r, s[1..]);
      SubsequenceCons(r, s[1..], s[0]);
      assert [s[0]] + s[1..] == s;
    }
  }

  /** Every player that is not bankrupt stays seated. */
  lemma {:induction false} SweepKeepsSolvent<T>(s: seq<T>, broke: seq<bool>, k: int)
    requires |broke| == |s| && 0 <= k < |s| && !broke[k]
    ensures s[k] in Sweep(s, broke)
    decreases |s|
  {
    if k == 0 {
    } else if !broke[0] {
      SweepKeepsSolvent(s[1..], broke[1..], k - 1);
    } else if k > 1 {
      SweepKeepsSolvent(s[2..], broke[2..], k - 2);
    }
  }

  /** Without repetitions to start with, the sweep leaves none. */
  lemma {:induction false} SweepDistinct<T>(s: seq<T>, broke: seq<bool>)
    requires |broke| == |s| && Distinct(s)
    ensures Distinct(Sweep(s, broke))
    decreases |s|
  {
    if s == [] || (broke[0] && |s| == 1) {
    } else {
      var skip := if !broke[0] then 1 else 2;
      var head := s[skip - 1];
      DistinctSuffix(s, skip);
      SweepDistinct(s[skip..], broke[skip..]);
      var rest := Sweep(s[skip..], broke[skip..]);
      assert head !in rest;
      DistinctCons(head, rest);
    }
  }

  lemma DistinctCons<T>(x: T, s: seq<T>)
    requires Distinct(s) && x !in s
    ensures Distinct([x] + s)
  {
    var r := [x] + s;
    forall i, j | 0 <= i < j < |r| ensures r[i] != r[j] {
      assert r[j] == s[j - 1];
      if i > 0 {
        assert r[i] == s[i - 1];
      }
    }
  }

  /** With no two bankrupt players side by side, the sweep removes exactly the bankrupt ones. */
  lemma {:induction false} SweepExactWithoutNeighbours<T>(s: seq<T>, broke: seq<bool>)
    requires |broke| == |s|
    requires forall k :: 0 <= k < |s| - 1 ==> !(broke[k] && broke[k + 1])
    ensures Sweep(s, broke) == KeepSolvent(s, broke)
    decreases |s|
  {
    if s == [] {
    } else if !broke[0] {
      SweepExactWithoutNeighbours(s[1..], broke[1..]);
    } else if |s| > 1 {
      assert !broke[1];
      SweepExactWithoutNeighbours(s[2..], broke[2..]);
      assert s[1..][1..] == s[2..] && broke[1..][1..] == broke[2..];
    }
  }

  /** Two bankrupt players side by side: only the first one leaves the table. */
  lemma SweepSkipsNeighbour<T>(a: T, b: T)
    ensures Sweep([a, b], [true, true]) == [b]
    ensures KeepSolvent([a, b], [true, true]) == []
  {
    assert [a, b][2..] == [];
    assert [a, b][1..] == [b] && [true, true][1..] == [true];
  }
}
