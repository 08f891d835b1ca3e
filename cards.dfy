/** A playing card: an immutable (rank, suit) value. */
module Cards {
  import Ranks
  import Suits

  datatype Card = Card(rank: Ranks.Rank, suit: Suits.Suit)

  predicate IsValid(c: Card) {
    Ranks.IsValid(c.rank) && Suits.IsValid(c.suit)
  }

  /** The constructor keeps what it is given: the rank and suit read back unchanged. */
  function New(r: Ranks.Rank, s: Suits.Suit): (c: Card)
    ensures c.rank == r && c.suit == s
    ensures forall d: Card :: d.rank == r && d.suit == s ==> d == c
  {
    Card(r, s)
  }

  /** Cards are equal exactly when their ranks and their suits are. */
  lemma EqualIffFieldsEqual(a: Card, b: Card)
    ensures a == b <==> a.rank == b.rank && a.suit == b.suit
  {
  }

  /** "<rank name> of <suit name>". */
  function String(c: Card): (s: string)
    ensures |s| == |Ranks.Name(c.rank)| + 4 + |Suits.Name(c.suit)|
    ensures s[..|Ranks.Name(c.rank)|] == Ranks.Name(c.rank)
    ensures s[|Ranks.Name(c.rank)|..|Ranks.Name(c.rank)| + 4] == " of "
    ensures s[|Ranks.Name(c.rank)| + 4..] == Suits.Name(c.suit)
  {
    Ranks.Name(c.rank) + " of " + Suits.Name(c.suit)
  }

  /** Distinct valid cards print differently. */
  lemma StringInjective(a: Card, b: Card)
    requires IsValid(a) && IsValid(b) && String(a) == String(b)
    ensures a == b
  {
    var na, nb := Ranks.Name(a.rank), Ranks.Name(b.rank);
    var s := String(a);
    Ranks.NameHasNoSpace(a.rank);
    Ranks.NameHasNoSpace(b.rank);
    assert s[|na|] == ' ';
    assert String(b)[|nb|] == ' ';
    assert na == s[..|na|] == nb;
    Ranks.NameInjective(a.rank, b.rank);
    Suits.NameInjective(a.suit, b.suit);
  }
}
