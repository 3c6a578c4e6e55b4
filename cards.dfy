/** Cards of a single 52-card French deck and their point values. */
module Cards {

  /** Index into RANKS = ["2", ..., "10", "J", "Q", "K", "A"]. */
  type RankIndex = r: int | 0 <= r < 13
  /** Index into SUITS = [spades, hearts, diamonds, clubs]. */
  type SuitIndex = s: int | 0 <= s < 4

  const RankCount: nat := 13
  const SuitCount: nat := 4
  const DeckSize: nat := 52
  /** Position of "A" in RANKS (the last rank). */
  const Ace: RankIndex := 12

  /** A card; `faceUp` is the program's `is_flipped` flag (true when the card shows its face). */
  datatype Card = Card(rank: RankIndex, suit: SuitIndex, faceUp: bool)

  /** Point value of a card: "2".."9" by face value, "10"/"J"/"Q"/"K" are 10, "A" is 1. */
  function Cost(c: Card): (v: nat)
    ensures 1 <= v <= 10
    ensures v == 1 <==> c.rank == Ace
    ensures c.rank < 8 ==> v == c.rank + 2
    ensures 8 <= c.rank < Ace ==> v == 10
  {
    var i := c.rank;
    if i <= 7 then i + 2
    else if i < RankCount - 1 then 10
    else 1
  }

  /** The same card turned over. */
  function Flip(c: Card): (d: Card)
    ensures d.rank == c.rank && d.suit == c.suit && d.faceUp == !c.faceUp
  {
    c.(faceUp := !c.faceUp)
  }

  /** Whether every card of `cards` shows its face. */
  predicate AllFaceUp(cards: seq<Card>) {
    forall k :: 0 <= k < |cards| ==> cards[k].faceUp
  }

  /**
   * The freshly created deck: suits in the outer loop, ranks in the inner one,
   * every card face up.
   */
  function FullDeck(): (d: seq<Card>)
    ensures |d| == DeckSize && AllFaceUp(d)
  {
    seq(DeckSize, k requires 0 <= k < DeckSize => Card(k % RankCount, k / RankCount, true))
  }

  /** The fresh deck has 52 face-up cards, with card (r, s) at position 13 * s + r. */
  lemma FullDeckLayout(r: RankIndex, s: SuitIndex)
    ensures |FullDeck()| == 52 && AllFaceUp(FullDeck())
    ensures 0 <= RankCount * s + r < DeckSize
    ensures FullDeck()[RankCount * s + r] == Card(r, s, true)
  {
    var k := RankCount * s + r;
    assert k % RankCount == r && k / RankCount == s;
  }

  /** No (rank, suit) pair occurs twice in the fresh deck. */
  lemma FullDeckDistinct(i: int, j: int)
    requires 0 <= i < DeckSize && 0 <= j < DeckSize && i != j
    ensures FullDeck()[i] != FullDeck()[j]
  {
  }

  /** Every face-up card is in the fresh deck: the deck covers all 13 x 4 pairs. */
  lemma FullDeckCovers(c: Card)
    requires c.faceUp
    ensures c in FullDeck()
    ensures multiset(FullDeck())[c] == 1
  {
    FullDeckLayout(c.rank, c.suit);
    var k := RankCount * c.suit + c.rank;
    assert FullDeck()[k] == c;
    FullDeckCountOne(FullDeck(), k);
  }

  /** In a sequence without repeated elements each element occurs once. */
  lemma {:induction false} FullDeckCountOne(d: seq<Card>, k: int)
    requires d == FullDeck() && 0 <= k < |d|
    ensures multiset(d)[d[k]] == 1
  {
    var c := d[k];
    forall i | 0 <= i < |d| && i != k
      ensures d[i] != c
    {
      FullDeckDistinct(i, k);
    }
    CountOfUnique(d, k);
  }

  lemma {:induction false} CountOfUnique(d: seq<Card>, k: int)
    requires 0 <= k < |d|
    requires forall i :: 0 <= i < |d| && i != k ==> d[i] != d[k]
    ensures multiset(d)[d[k]] == 1
  {
    var c := d[k];
    assert d == d[..k] + [c] + d[k + 1..];
    assert c !in d[..k];
    assert c !in d[k + 1..];
    assert multiset(d) == multiset(d[..k]) + multiset{c} + multiset(d[k + 1..]);
  }

  /** A face-down card is never part of a fresh deck. */
  lemma FullDeckFaceUp(c: Card)
    requires c in FullDeck()
    ensures c.faceUp
  {
  }
}
