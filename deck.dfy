/**
 * The deck: a sequence of cards dealt from the front.  A fresh deck holds
 * the 52 cards rank by rank (Ace first, then Two up to King), each rank in
 * suit order Clubs, Spades, Hearts, Diamonds.
 */
module Decks {
  import opened Wrappers
  import opened Ranks
  import opened Suits
  import opened Cards

  /** The values a Go loop `for x := lo; x <= hi; x++` visits. */
  function Range(lo: int, hi: int): (r: seq<int>)
    ensures |r| == if lo <= hi then hi - lo + 1 else 0
    ensures forall k :: 0 <= k < |r| ==> r[k] == lo + k
    decreases hi - lo
  {
    if lo > hi then [] else [lo] + Range(lo + 1, hi)
  }

  /** The four cards of one rank, in suit order. */
  function RankRow(r: Rank): (row: seq<Card>)
    ensures |row| == 4
    ensures forall k :: 0 <= k < 4 ==> row[k] == Card(r, Clubs + k)
  {
    seq(4, k => Card(r, Clubs + k))
  }

  /** The cards a rank loop over `rs` with an inner suit loop appends, row by row. */
  function DeckOf(rs: seq<Rank>): seq<Card> {
    if rs == [] then [] else DeckOf(rs[..|rs| - 1]) + RankRow(rs[|rs| - 1])
  }

  /** Ace first, then Two up to King: the rank order a fresh deck is meant to have. */
  function DeckRanks(): seq<Rank> {
    [Ace] + Range(Two, King)
  }

  function FullDeck(): seq<Card> {
    DeckOf(DeckRanks())
  }

  /** The cards the source's constructor loop appends: ranks from Ace up to King. */
  function AsWrittenDeck(): seq<Card> {
    DeckOf(Range(Ace, King))
  }

  /** Ace is the highest rank, so the loop from Ace up to King never runs: the deck is empty. */
  lemma AsWrittenDeckIsEmpty()
    ensures AsWrittenDeck() == []
    ensures |FullDeck()| == 52
  {
    DeckOfAt(DeckRanks());
  }

  /** Card `i` of `DeckOf(rs)` has rank `rs[i / 4]` and the `i % 4`-th suit. */
  lemma {:induction false} DeckOfAt(rs: seq<Rank>)
    ensures |DeckOf(rs)| == 4 * |rs|
    ensures forall i :: 0 <= i < |DeckOf(rs)| ==> DeckOf(rs)[i] == Card(rs[i / 4], Clubs + i % 4)
  {
    if rs != [] {
      var init := rs[..|rs| - 1];
      DeckOfAt(init);
      forall i | 0 <= i < |DeckOf(rs)|
        ensures DeckOf(rs)[i] == Card(rs[i / 4], Clubs + i % 4)
      {
        if i < 4 * |init| {
          assert rs[i / 4] == init[i / 4];
        } else {
          assert i / 4 == |init|;
        }
      }
    }
  }

  lemma DeckRanksFacts()
    ensures |DeckRanks()| == 13
    ensures DeckRanks()[0] == Ace && DeckRanks()[12] == King
    ensures forall k :: 1 <= k < 13 ==> DeckRanks()[k] == k
  {
    var rs := DeckRanks();
    assert forall k :: 1 <= k < 13 ==> rs[k] == Range(Two, King)[k - 1];
  }

  /**
   * A fresh deck holds 52 cards, every valid card exactly once, starting with
   * the Ace of Clubs and ending with the King of Diamonds.
   */
  lemma FullDeckIsComplete()
    ensures |FullDeck()| == 52
    ensures forall i :: 0 <= i < 52 ==> Cards.IsValid(FullDeck()[i])
    ensures forall i, j :: 0 <= i < j < 52 ==> FullDeck()[i] != FullDeck()[j]
    ensures forall c :: Cards.IsValid(c) ==> c in FullDeck()
    ensures FullDeck()[0] == Card(Ace, Clubs) && FullDeck()[51] == Card(King, Diamonds)
  {
    var rs := DeckRanks();
    DeckRanksFacts();
    DeckOfAt(rs);
    var d := FullDeck();
    forall i, j | 0 <= i < j < 52
      ensures d[i] != d[j]
    {
      if i / 4 == j / 4 {
        assert i % 4 != j % 4;
      } else {
        assert rs[i / 4] != rs[j / 4];
      }
    }
    forall c | Cards.IsValid(c)
      ensures c in d
    {
      var k := if c.rank == Ace then 0 else c.rank;
      var i := 4 * k + (c.suit - Clubs);
      assert i / 4 == k && i % 4 == c.suit - Clubs;
      assert d[i] == c;
    }
  }

  class Deck {
    var cards: seq<Card>

    /** Builds the 52 cards with a rank loop and a suit loop. */
    constructor ()
      ensures cards == FullDeck()
    {
      var order := DeckRanks();
      var built: seq<Card> := [];
      for i := 0 to |order|
        invariant built == DeckOf(order[..i])
      {
        var row: seq<Card> := [];
        for s := Clubs to Diamonds + 1
          invariant row == RankRow(order[i])[..s - Clubs]
        {
          row := row + [Cards.New(order[i], s)];
        }
        assert order[..i + 1][..i] == order[..i];
        built := built + row;
      }
      assert order[..|order|] == order;
      cards := built;
    }

    function Len(): (n: int)
      reads this
      ensures n == |cards| && n >= 0
    {
      |cards|
    }

    /** Takes the top card; an empty deck yields nothing and stays empty. */
    method Pop() returns (c: Option<Card>)
      modifies this
      ensures old(cards) == [] ==> c == None && cards == []
      ensures old(cards) != [] ==> c == Some(old(cards)[0]) && cards == old(cards)[1..]
      ensures old(cards) == (if c.Some? then [c.value] else []) + cards
    {
      if |cards| == 0 {
        return None;
      }
      var top := cards[0];
      if |cards| > 1 {
        cards := cards[1..];
      } else {
        cards := [];
      }
      return Some(top);
    }

    /** Exchanges two cards; an index out of range leaves the deck alone. */
    method Swap(i: int, j: int)
      modifies this
      ensures !(0 <= i < |old(cards)| && 0 <= j < |old(cards)|) ==> cards == old(cards)
      ensures 0 <= i < |old(cards)| && 0 <= j < |old(cards)| ==>
        cards == old(cards)[i := old(cards)[j]][j := old(cards)[i]]
      ensures multiset(cards) == multiset(old(cards))
    {
      if i < 0 || i >= |cards| || j < 0 || j >= |cards| {
        return;
      }
      cards := cards[i := cards[j]][j := cards[i]];
    }
  }
}
