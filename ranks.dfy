/**
 * Card ranks and suits. Both are plain integers in the source, with named
 * constants for the valid values; any other integer is representable and
 * prints as "Invalid".
 */
module Ranks {

  type Rank = int

  const Two: Rank := 1
  const Three: Rank := 2
  const Four: Rank := 3
  const Five: Rank := 4
  const Six: Rank := 5
  const Seven: Rank := 6
  const Eight: Rank := 7
  const Nine: Rank := 8
  const Ten: Rank := 9
  const Jack: Rank := 10
  const Queen: Rank := 11
  const King: Rank := 12
  const Ace: Rank := 13

  predicate IsValid(r: Rank) {
    Two <= r <= Ace
  }

  /** The rank's English name; every value outside Two..Ace is "Invalid". */
  function Name(r: Rank): (s: string)
    ensures IsValid(r) <==> s != "Invalid"
    ensures IsValid(r) ==> NameToRank(s) == r
  {
    if r == Two then "Two"
    else if r == Three then "Three"
    else if r == Four then "Four"
    else if r == Five then "Five"
    else if r == Six then "Six"
    else if r == Seven then "Seven"
    else if r == Eight then "Eight"
    else if r == Nine then "Nine"
    else if r == Ten then "Ten"
    else if r == Jack then "Jack"
    else if r == Queen then "Queen"
    else if r == King then "King"
    else if r == Ace then "Ace"
    else "Invalid"
  }

  /** Reads a rank back from its name (0 for anything that is not a name). */
  function NameToRank(s: string): Rank {
    if s == "Two" then Two
    else if s == "Three" then Three
    else if s == "Four" then Four
    else if s == "Five" then Five
    else if s == "Six" then Six
    else if s == "Seven" then Seven
    else if s == "Eight" then Eight
    else if s == "Nine" then Nine
    else if s == "Ten" then Ten
    else if s == "Jack" then Jack
    else if s == "Queen" then Queen
    else if s == "King" then King
    else if s == "Ace" then Ace
    else 0
  }

  /** Distinct valid ranks have distinct names. */
  lemma NameInjective(a: Rank, b: Rank)
    requires IsValid(a) && IsValid(b) && Name(a) == Name(b)
    ensures a == b
  {
    assert NameToRank(Name(a)) == a && NameToRank(Name(b)) == b;
  }

  /** No rank name contains a space, so a name ends where a card's text has its first space. */
  lemma NameHasNoSpace(r: Rank)
    ensures forall i :: 0 <= i < |Name(r)| ==> Name(r)[i] != ' '
  {
  }

  function Greater(r: Rank, rr: Rank): bool { r > rr }
  function Less(r: Rank, rr: Rank): bool { r < rr }
  function Equal(r: Rank, rr: Rank): bool { r == rr }

  /** Exactly one of Greater, Less and Equal holds for any pair of ranks. */
  lemma Trichotomy(r: Rank, rr: Rank)
    ensures Greater(r, rr) || Less(r, rr) || Equal(r, rr)
    ensures !(Greater(r, rr) && Less(r, rr))
    ensures Equal(r, rr) ==> !Greater(r, rr) && !Less(r, rr)
    ensures Greater(r, rr) <==> Less(rr, r)
  {
  }

  /** Two is the least and Ace the greatest valid rank; Ace and Ten are four apart. */
  lemma Extremes(r: Rank)
    requires IsValid(r)
    ensures !Less(r, Two) && !Greater(r, Ace)
    ensures Ace - Ten == 4
  {
  }
}

/** The four suits, encoded Clubs = 1 .. Diamonds = 4. */
module Suits {

  type Suit = int

  const Clubs: Suit := 1
  const Spades: Suit := 2
  const Hearts: Suit := 3
  const Diamonds: Suit := 4

  predicate IsValid(s: Suit) {
    Clubs <= s <= Diamonds
  }

  function Name(s: Suit): (n: string)
    ensures IsValid(s) <==> n != "Invalid"
  {
    if s == Clubs then "Clubs"
    else if s == Spades then "Spades"
    else if s == Hearts then "Hearts"
    else if s == Diamonds then "Diamonds"
    else "Invalid"
  }

  lemma NameInjective(a: Suit, b: Suit)
    requires IsValid(a) && IsValid(b) && Name(a) == Name(b)
    ensures a == b
  {
  }
}
