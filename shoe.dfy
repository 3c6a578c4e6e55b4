/** The shoe: one deck that regenerates itself when it runs out. */
module Shoe {
  import opened Cards
  import opened Hands

  /** The cards still in the shoe never hold more of any card than one fresh deck does. */
  ghost predicate SubDeck(cards: seq<Card>) {
    multiset(cards) <= multiset(FullDeck())
  }

  /** What the shoe invariant gives: at most 52 cards, every one face up. */
  lemma SubDeckFacts(cards: seq<Card>)
    requires SubDeck(cards)
    ensures |cards| <= DeckSize
    ensures AllFaceUp(cards)
  {
    var full := multiset(FullDeck());
    assert full == multiset(cards) + (full - multiset(cards));
    forall k | 0 <= k < |cards|
      ensures cards[k].faceUp
    {
      assert cards[k] in multiset(cards);
      FullDeckFaceUp(cards[k]);
    }
  }

  /** The shoe never holds the same card twice. */
  lemma SubDeckDistinct(cards: seq<Card>)
    requires SubDeck(cards)
    ensures forall i, j :: 0 <= i < j < |cards| ==> cards[i] != cards[j]
  {
    forall i, j | 0 <= i < j < |cards|
      ensures cards[i] != cards[j]
    {
      if cards[i] == cards[j] {
        var c := cards[i];
        assert cards == cards[..i] + [c] + cards[i + 1..j] + [c] + cards[j + 1..];
        assert multiset(cards)[c] >= 2;
        assert c in multiset(cards);
        FullDeckFaceUp(c);
        FullDeckCovers(c);
        assert false;
      }
    }
  }

  /** A shoe just taken out of its box is a sub-deck; so is what remains after a draw. */
  lemma SubDeckTail(cards: seq<Card>)
    requires SubDeck(cards) && cards != []
    ensures SubDeck(cards[1..])
  {
    assert cards == [cards[0]] + cards[1..];
  }

  /**
   * The shoe went from the cards `cards0`, having handed out `log0`, to the cards `cards`,
   * having handed out `log`: the record only grew, and when the shoe did not run out
   * on the way, the cards handed out were its front cards, in order, and the rest is
   * what it still holds.
   */
  predicate HandedOut(cards0: seq<Card>, log0: seq<Card>, cards: seq<Card>, log: seq<Card>) {
    |log0| <= |log| && log[..|log0|] == log0 &&
    (|log| - |log0| <= |cards0| ==> cards0 == log[|log0|..] + cards)
  }

  /** Handing out cards twice in a row is handing them out once. */
  lemma HandedOutTrans(c0: seq<Card>, l0: seq<Card>, c1: seq<Card>, l1: seq<Card>, c2: seq<Card>, l2: seq<Card>)
    requires HandedOut(c0, l0, c1, l1) && HandedOut(c1, l1, c2, l2)
    ensures HandedOut(c0, l0, c2, l2)
  {
    assert l2[..|l0|] == l2[..|l1|][..|l0|];
    assert l2[|l0|..] == l1[|l0|..] + l2[|l1|..];
    if |l2| - |l0| <= |c0| {
      assert c0 == l1[|l0|..] + c1;
      assert c1 == l2[|l1|..] + c2;
      assert c0 == l2[|l0|..] + c2;
    }
  }

  /** The shoe: its cards (front first) and, as a ghost, every card it has handed out. */
  class Deck {
    var cards: seq<Card>
    ghost var log: seq<Card>

    ghost predicate Valid()
      reads this
    {
      SubDeck(cards)
    }

    /** A new shoe is created and shuffled at once. */
    constructor ()
      ensures Valid() && log == []
      ensures multiset(cards) == multiset(FullDeck())
    {
      cards := [];
      log := [];
      new;
      Deal();
    }

    /** The program's `deal`: a fresh deck, shuffled. */
    method Deal()
      modifies this`cards
      ensures Valid()
      ensures multiset(cards) == multiset(FullDeck()) && |cards| == DeckSize
    {
      Create();
      Shuffle();
    }

    /** The program's `create`: the 52 cards, suit by suit, all face up. */
    method Create()
      modifies this`cards
      ensures cards == FullDeck()
    {
      cards := FullDeck();
    }

    /** The program's `shuffle`: some permutation of the cards, chosen by a source of randomness not modelled here. */
    method Shuffle()
      modifies this`cards
      ensures multiset(cards) == old(multiset(cards))
    {
      assert multiset(cards) == multiset(cards);
      var shuffled :| multiset(shuffled) == multiset(cards);
      cards := shuffled;
    }

    /**
     * The program's `give_card`: regenerates the shoe when it is empty, then moves
     * the front card to the end of `hand`. It never fails.
     */
    method GiveCard(hand: Hand)
      requires Valid()
      modifies this, hand
      ensures Valid()
      ensures |hand.cards| == |old(hand.cards)| + 1
      ensures hand.cards[..|old(hand.cards)|] == old(hand.cards)
      ensures hand.cards == old(hand.cards) + [hand.cards[|old(hand.cards)|]]
      ensures hand.cards[|old(hand.cards)|].faceUp
      ensures log == old(log) + [hand.cards[|old(hand.cards)|]]
      ensures HandedOut(old(cards), old(log), cards, log)
      ensures old(cards) != [] ==>
        cards == old(cards)[1..] && hand.cards[|old(hand.cards)|] == old(cards)[0]
      ensures old(cards) == [] ==>
        |cards| == DeckSize - 1 &&
        multiset(cards) + multiset{hand.cards[|old(hand.cards)|]} == multiset(FullDeck())
    {
      if cards == [] {
        Deal();
      }
      var c := cards[0];
      SubDeckFacts(cards);
      assert cards == [c] + cards[1..];
      cards := cards[1..];
      log := log + [c];
      hand.GetCard(c);
    }
  }
}
