/**
 * The dealer: owns a deck, shuffles it and deals hole cards, the flop, the
 * turn, the river and burn cards from its top.
 */
module Dealers {
  import opened Wrappers
  import opened Cards
  import opened Decks

  /** The deck with the cards at `i` and `j` exchanged. */
  function SwapAt(s: seq<Card>, i: int, j: int): (r: seq<Card>)
    requires 0 <= i < |s| && 0 <= j < |s|
    ensures |r| == |s| && r[i] == s[j] && r[j] == s[i]
    ensures forall k :: 0 <= k < |s| && k != i && k != j ==> r[k] == s[k]
  {
    s[i := s[j]][j := s[i]]
  }

  /**
   * Fisher-Yates from position `i` down to 1: position `i` is exchanged
   * with `draws[i] % (i + 1)`, the random index in [0, i] drawn for it.
   */
  function ShuffleFrom(s: seq<Card>, draws: seq<int>, i: int): (r: seq<Card>)
    requires i < |s| && i < |draws|
    ensures |r| == |s|
    decreases i
  {
    if i <= 0 then s else ShuffleFrom(SwapAt(s, i, draws[i] % (i + 1)), draws, i - 1)
  }

  /** The whole shuffle of `s`, one draw per position. */
  function Shuffled(s: seq<Card>, draws: seq<int>): (r: seq<Card>)
    requires |s| <= |draws|
    ensures |r| == |s|
  {
    if |s| == 0 then s else ShuffleFrom(s, draws, |s| - 1)
  }

  /** A shuffle only reorders the deck: the same cards, as many of each. */
  lemma {:induction false} ShuffleFromPermutes(s: seq<Card>, draws: seq<int>, i: int)
    requires i < |s| && i < |draws|
    ensures |ShuffleFrom(s, draws, i)| == |s|
    ensures multiset(ShuffleFrom(s, draws, i)) == multiset(s)
    decreases i
  {
    if i > 0 {
      var j := draws[i] % (i + 1);
      var t := SwapAt(s, i, j);
      assert t == s[i := s[j]][j := s[i]];
      ShuffleFromPermutes(t, draws, i - 1);
    }
  }

  lemma ShuffledPermutes(s: seq<Card>, draws: seq<int>)
    requires |s| <= |draws|
    ensures |Shuffled(s, draws)| == |s|
    ensures multiset(Shuffled(s, draws)) == multiset(s)
  {
    if |s| > 0 {
      ShuffleFromPermutes(s, draws, |s| - 1);
    }
  }

  /** Draws that always pick the position itself leave the deck as it was. */
  lemma {:induction false} ShuffleFromIdentity(s: seq<Card>, draws: seq<int>, i: int)
    requires i < |s| && i < |draws|
    requires forall k :: 0 <= k <= i ==> draws[k] == k
    ensures ShuffleFrom(s, draws, i) == s
    decreases i
  {
    if i > 0 {
      assert draws[i] % (i + 1) == i;
      assert SwapAt(s, i, i) == s;
      ShuffleFromIdentity(s, draws, i - 1);
    }
  }

  /** The top card moves to the bottom when the last position draws 0 and every other keeps its place. */
  lemma ShuffleMovesTopToBottom(s: seq<Card>, draws: seq<int>)
    requires 2 <= |s| <= |draws|
    requires draws[|s| - 1] == 0
    requires forall k :: 0 <= k < |s| - 1 ==> draws[k] == k
    ensures Shuffled(s, draws)[|s| - 1] == s[0]
    ensures Shuffled(s, draws)[0] == s[|s| - 1]
  {
    var n := |s|;
    var t := SwapAt(s, n - 1, 0);
    ShuffleFromIdentity(t, draws, n - 2);
  }

  /** Cell [i][j] exists in a table of n rows of pairs. */
  predicate CellInBounds(i: int, j: int, n: int) {
    i < n && j < 2
  }

  /**
   * The hole cards of the source's dealing loop: for i < 2 and j < n, cell
   * [i][j] of an n-row table of pairs gets the (i * n + j)-th card.  That
   * indexing stays in bounds only when n is 0 or 2; any other count panics
   * (None), and for n == 2 each player gets two consecutive cards.
   */
  function AsWrittenHoleCards(cards: seq<Card>, n: int): Option<seq<(Card, Card)>>
    requires 0 <= n && 2 * n <= |cards|
  {
    if n != 0 && n != 2 then None
    else if n == 0 then Some([])
    else Some([(cards[0], cards[1]), (cards[2], cards[3])])
  }

  /** The as-written loop fails exactly when one of the cells it writes is out of bounds: for every count but 0 and 2. */
  lemma AsWrittenHoleCardsPanics(cards: seq<Card>, n: int)
    requires 0 <= n && 2 * n <= |cards|
    ensures AsWrittenHoleCards(cards, n).None? <==>
      exists i, j :: 0 <= i < 2 && 0 <= j < n && !CellInBounds(i, j, n)
    ensures AsWrittenHoleCards(cards, n).None? <==> n != 0 && n != 2
  {
    if n == 1 {
      assert !CellInBounds(1, 0, n);
    } else if n > 2 {
      assert !CellInBounds(0, 2, n);
    }
  }

  /** With two players, the as-written loop hands the first player the first two cards off the deck. */
  lemma AsWrittenHoleCardsConsecutive(cards: seq<Card>)
    requires 4 <= |cards|
    requires cards[1] != cards[2]
    ensures AsWrittenHoleCards(cards, 2) == Some([(cards[0], cards[1]), (cards[2], cards[3])])
    ensures AsWrittenHoleCards(cards, 2).value[0] != RoundRobinHoleCards(cards, 2)[0]
  {
  }

  /** Dealing one card per player per round: player j gets cards j and n + j. */
  function RoundRobinHoleCards(cards: seq<Card>, n: int): (r: seq<(Card, Card)>)
    requires 0 <= n && 2 * n <= |cards|
    ensures |r| == n
  {
    seq(n, j requires 0 <= j < n => (cards[j], cards[n + j]))
  }

  /** No card is dealt twice: distinct deck cards give n players 2n distinct hole cards. */
  lemma RoundRobinDistinct(cards: seq<Card>, n: int)
    requires 0 <= n && 2 * n <= |cards|
    requires forall a, b :: 0 <= a < b < |cards| ==> cards[a] != cards[b]
    ensures forall j, k :: 0 <= j < k < n ==>
      RoundRobinHoleCards(cards, n)[j].0 != RoundRobinHoleCards(cards, n)[k].0 &&
      RoundRobinHoleCards(cards, n)[j].1 != RoundRobinHoleCards(cards, n)[k].1
    ensures forall j, k :: 0 <= j < n && 0 <= k < n ==>
      RoundRobinHoleCards(cards, n)[j].0 != RoundRobinHoleCards(cards, n)[k].1
  {
  }

  class Dealer {
    var deck: Deck

    /** Uses the given deck, or a fresh one when none is given. */
    constructor (given: Deck?)
      ensures given != null ==> deck == given
      ensures given == null ==> fresh(deck) && deck.cards == FullDeck()
    {
      if given != null {
        deck := given;
      } else {
        deck := new Deck();
      }
    }

    /** Replaces the deck by a fresh, ordered one. */
    method Reset()
      modifies this
      ensures fresh(deck) && deck.cards == FullDeck()
    {
      deck := new Deck();
    }

    /**
     * Shuffles the deck in place with Fisher-Yates: for i from the last
     * position down to 1, swaps position i with the random index
     * `draws[i] % (i + 1)`.
     */
    method Shuffle(draws: seq<int>)
      requires |deck.cards| <= |draws|
      modifies deck
      ensures deck.cards == Shuffled(old(deck.cards), draws)
      ensures multiset(deck.cards) == multiset(old(deck.cards)) && |deck.cards| == |old(deck.cards)|
    {
      ShuffledPermutes(deck.cards, draws);
      var n := deck.Len();
      if n == 0 {
        return;
      }
      var i := n - 1;
      while i > 0
        invariant 0 <= i < n && |deck.cards| == n
        invariant ShuffleFrom(deck.cards, draws, i) == Shuffled(old(deck.cards), draws)
        decreases i
      {
        deck.Swap(i, draws[i] % (i + 1));
        i := i - 1;
      }
    }

    /** Takes the top card, or nothing from an empty deck. */
    method Deal() returns (c: Option<Card>)
      modifies deck
      ensures old(deck.cards) == [] ==> c == None && deck.cards == []
      ensures old(deck.cards) != [] ==> c == Some(old(deck.cards)[0]) && deck.cards == old(deck.cards)[1..]
    {
      c := deck.Pop();
    }

    /** Deals one card; the deck must not be empty (the source panics). */
    method DealOne() returns (c: Card)
      requires |deck.cards| >= 1
      modifies deck
      ensures c == old(deck.cards)[0] && deck.cards == old(deck.cards)[1..]
    {
      var top := deck.Pop();
      c := top.value;
    }

    /**
     * Deals two rounds of one card to each of `n` players: player j gets
     * the j-th and the (n + j)-th card off the top.
     */
    method DealHoleCards(n: int) returns (hole: seq<(Card, Card)>)
      requires 0 <= n && 2 * n <= |deck.cards|
      modifies deck
      ensures hole == RoundRobinHoleCards(old(deck.cards), n)
      ensures deck.cards == old(deck.cards)[2 * n..]
    {
      ghost var start := deck.cards;
      var first: seq<Card> := [];
      for j := 0 to n
        invariant first == start[..j] && deck.cards == start[j..]
      {
        var c := DealOne();
        first := first + [c];
      }
      hole := [];
      for j := 0 to n
        invariant |hole| == j && deck.cards == start[n + j..]
        invariant forall k :: 0 <= k < j ==> hole[k] == (start[k], start[n + k])
      {
        var c := DealOne();
        hole := hole + [(first[j], c)];
      }
    }

    /** Deals the three flop cards off the top. */
    method DealFlopCards() returns (flop: seq<Card>)
      requires |deck.cards| >= 3
      modifies deck
      ensures flop == old(deck.cards)[..3] && deck.cards == old(deck.cards)[3..]
    {
      ghost var start := deck.cards;
      flop := [];
      for k := 0 to 3
        invariant flop == start[..k] && deck.cards == start[k..]
      {
        var c := DealOne();
        flop := flop + [c];
      }
    }

    method DealTurnCard() returns (c: Card)
      requires |deck.cards| >= 1
      modifies deck
      ensures c == old(deck.cards)[0] && deck.cards == old(deck.cards)[1..]
    {
      c := DealOne();
    }

    method DealRiverCard() returns (c: Card)
      requires |deck.cards| >= 1
      modifies deck
      ensures c == old(deck.cards)[0] && deck.cards == old(deck.cards)[1..]
    {
      c := DealOne();
    }

    method BurnCard() returns (c: Card)
      requires |deck.cards| >= 1
      modifies deck
      ensures c == old(deck.cards)[0] && deck.cards == old(deck.cards)[1..]
    {
      c := DealOne();
    }
  }
}
