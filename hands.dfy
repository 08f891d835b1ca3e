/**
 * The five-card hand evaluator: classifies exactly five distinct cards into
 * one of ten categories, from the product of the per-rank card counts, the
 * flush flag and the straight flag (with the ace-low wheel A-2-3-4-5).
 */
module Hands {
  import opened Wrappers
  import opened Ranks
  import Suits
  import opened Cards
  import Sets

  datatype HandValue =
    | Unknown
    | HighCard
    | Pair
    | TwoPairs
    | ThreeOfAKind
    | Straight
    | Flush
    | FullHouse
    | FourOfAKind
    | StraightFlush
    | RoyalFlush

  datatype HandError = ErrInvalidHandSize | ErrExistSameCards | ErrUnknownHandValue

  /** The category's display name; only Unknown prints as "Unknown". */
  function String(hv: HandValue): (s: string)
    ensures hv == Unknown <==> s == "Unknown"
  {
    match hv
    case HighCard => "High Card"
    case Pair => "Pair"
    case TwoPairs => "Two Pairs"
    case ThreeOfAKind => "Three of a Kind"
    case Straight => "Straight"
    case Flush => "Flush"
    case FullHouse => "Full House"
    case FourOfAKind => "Four of a Kind"
    case StraightFlush => "Straight Flush"
    case RoyalFlush => "Royal Flush"
    case Unknown => "Unknown"
  }

  // ---------------------------------------------------------------------
  // Specification
  // ---------------------------------------------------------------------

  /** Some card occurs twice (same rank and same suit). */
  predicate HasDuplicate(s: seq<Card>) {
    exists i, j :: 0 <= i < j < |s| && s[i] == s[j]
  }

  /** How many cards of `s` have rank `r`. */
  function Count(s: seq<Card>, r: Rank): nat {
    if s == [] then 0
    else Count(s[..|s| - 1], r) + (if s[|s| - 1].rank == r then 1 else 0)
  }

  /** The ranks occurring in `s`, each once, in order of first occurrence. */
  function DistinctRanks(s: seq<Card>): seq<Rank> {
    if s == [] then []
    else
      var d := DistinctRanks(s[..|s| - 1]);
      if s[|s| - 1].rank in d then d else d + [s[|s| - 1].rank]
  }

  /** The card count of each rank in `ks`. */
  function CountsOf(s: seq<Card>, ks: seq<Rank>): seq<int> {
    if ks == [] then [] else [Count(s, ks[0])] + CountsOf(s, ks[1..])
  }

  /** One count per distinct rank of the hand: the hand's "shape". */
  function RankCounts(s: seq<Card>): seq<int> {
    CountsOf(s, DistinctRanks(s))
  }

  function Prod(vs: seq<int>): int {
    if vs == [] then 1 else vs[0] * Prod(vs[1..])
  }

  function Sum(vs: seq<int>): int {
    if vs == [] then 0 else vs[0] + Sum(vs[1..])
  }

  /** How many entries of `vs` equal `x`. */
  function NumOf(vs: seq<int>, x: int): nat {
    if vs == [] then 0 else (if vs[0] == x then 1 else 0) + NumOf(vs[1..], x)
  }

  predicate SameSuit(s: seq<Card>)
    requires |s| > 0
  {
    forall i :: 0 <= i < |s| ==> s[i].suit == s[0].suit
  }

  function MaxRank(s: seq<Card>): Rank
    requires |s| > 0
  {
    if |s| == 1 then s[0].rank
    else
      var m := MaxRank(s[..|s| - 1]);
      if s[|s| - 1].rank > m then s[|s| - 1].rank else m
  }

  function MinRank(s: seq<Card>): Rank
    requires |s| > 0
  {
    if |s| == 1 then s[0].rank
    else
      var m := MinRank(s[..|s| - 1]);
      if s[|s| - 1].rank < m then s[|s| - 1].rank else m
  }

  /** Ace, Two, Three, Four and Five all occur. */
  predicate HasWheel(s: seq<Card>) {
    Count(s, Ace) > 0 && Count(s, Two) > 0 && Count(s, Three) > 0 && Count(s, Four) > 0 && Count(s, Five) > 0
  }

  predicate IsStraight(s: seq<Card>)
    requires |s| > 0
  {
    MaxRank(s) - MinRank(s) == 4 || HasWheel(s)
  }

  /** The category of five cards of five distinct ranks. */
  function DistinctRankCategory(straight: bool, flush: bool, maxRank: Rank, minRank: Rank): HandValue {
    if straight && flush then
      if maxRank == Ace && minRank == Ten then RoyalFlush else StraightFlush
    else if straight then Straight
    else if flush then Flush
    else HighCard
  }

  /** What the evaluator returns: a category and an optional error. */
  function Evaluate(c: seq<Card>): (HandValue, Option<HandError>) {
    if |c| != 5 then (Unknown, Some(ErrInvalidHandSize))
    else if HasDuplicate(c) then (Unknown, Some(ErrExistSameCards))
    else
      var vs := RankCounts(c);
      var p := Prod(vs);
      if |vs| < 2 then (Unknown, None)
      else if p == 6 then (FullHouse, None)
      else if p == 4 && |vs| == 2 then (FourOfAKind, None)
      else if p == 4 && |vs| == 3 then (TwoPairs, None)
      else if p == 3 then (ThreeOfAKind, None)
      else if p == 2 then (Pair, None)
      else if p == 1 then (DistinctRankCategory(IsStraight(c), SameSuit(c), MaxRank(c), MinRank(c)), None)
      else (Unknown, Some(ErrUnknownHandValue))
  }

  /** Some rank occurs exactly `n` times. */
  predicate HasKind(c: seq<Card>, n: int) {
    exists i :: 0 <= i < |c| && Count(c, c[i].rank) == n
  }

  /** Two different ranks occur exactly twice each. */
  predicate HasTwoPairs(c: seq<Card>) {
    exists i, j :: 0 <= i < |c| && 0 <= j < |c| && c[i].rank != c[j].rank &&
      Count(c, c[i].rank) == 2 && Count(c, c[j].rank) == 2
  }

  /** The poker definition of the categories, stated on rank multiplicities. */
  function PokerCategory(c: seq<Card>): HandValue
    requires |c| == 5
  {
    if HasKind(c, 4) then FourOfAKind
    else if HasKind(c, 3) && HasKind(c, 2) then FullHouse
    else if HasKind(c, 3) then ThreeOfAKind
    else if HasTwoPairs(c) then TwoPairs
    else if HasKind(c, 2) then Pair
    else DistinctRankCategory(IsStraight(c), SameSuit(c), MaxRank(c), MinRank(c))
  }

  // ---------------------------------------------------------------------
  // Facts about counts
  // ---------------------------------------------------------------------

  lemma {:induction false} CountOccurs(s: seq<Card>, r: Rank)
    ensures Count(s, r) > 0 <==> r in DistinctRanks(s)
    ensures Count(s, r) > 0 <==> exists i :: 0 <= i < |s| && s[i].rank == r
    ensures Count(s, r) <= |s|
  {
    if s != [] {
      var s' := s[..|s| - 1];
      CountOccurs(s', r);
      if exists i :: 0 <= i < |s| && s[i].rank == r {
        var i :| 0 <= i < |s| && s[i].rank == r;
        if i < |s| - 1 {
          assert s'[i].rank == r;
        }
      }
      if exists i :: 0 <= i < |s'| && s'[i].rank == r {
        var i :| 0 <= i < |s'| && s'[i].rank == r;
        assert s[i].rank == r;
      }
    }
  }

  /** A rank that accounts for every card is the rank of every card. */
  lemma {:induction false} CountAll(s: seq<Card>, r: Rank)
    requires Count(s, r) == |s|
    ensures forall i :: 0 <= i < |s| ==> s[i].rank == r
  {
    if s != [] {
      var s' := s[..|s| - 1];
      CountOccurs(s', r);
      CountAll(s', r);
      assert forall i :: 0 <= i < |s'| ==> s[i] == s'[i];
    }
  }

  lemma {:induction false} DistinctRanksUnique(s: seq<Card>)
    ensures forall i, j :: 0 <= i < j < |DistinctRanks(s)| ==> DistinctRanks(s)[i] != DistinctRanks(s)[j]
  {
    if s != [] {
      DistinctRanksUnique(s[..|s| - 1]);
    }
  }

  lemma {:induction false} CountsOfAt(s: seq<Card>, ks: seq<Rank>)
    ensures |CountsOf(s, ks)| == |ks|
    ensures forall i :: 0 <= i < |ks| ==> CountsOf(s, ks)[i] == Count(s, ks[i])
  {
    if ks != [] {
      CountsOfAt(s, ks[1..]);
    }
  }

  /** Appending a card adds one to the counts of its rank only. */
  lemma {:induction false} SumCountsSnoc(s: seq<Card>, x: Card, ks: seq<Rank>)
    requires forall i, j :: 0 <= i < j < |ks| ==> ks[i] != ks[j]
    ensures Sum(CountsOf(s + [x], ks)) == Sum(CountsOf(s, ks)) + (if x.rank in ks then 1 else 0)
  {
    if ks != [] {
      assert (s + [x])[..|s + [x]| - 1] == s;
      SumCountsSnoc(s, x, ks[1..]);
      assert x.rank in ks <==> x.rank == ks[0] || x.rank in ks[1..];
    }
  }

  lemma {:induction false} SumCountsAppend(s: seq<Card>, ks: seq<Rank>, r: Rank)
    ensures Sum(CountsOf(s, ks + [r])) == Sum(CountsOf(s, ks)) + Count(s, r)
  {
    if ks == [] {
      assert ks + [r] == [r];
    } else {
      assert (ks + [r])[1..] == ks[1..] + [r];
      SumCountsAppend(s, ks[1..], r);
    }
  }

  /** The shape accounts for every card. */
  lemma {:induction false} SumRankCounts(s: seq<Card>)
    ensures Sum(RankCounts(s)) == |s|
  {
    if s != [] {
      var s', x := s[..|s| - 1], s[|s| - 1];
      assert s == s' + [x];
      var d := DistinctRanks(s');
      SumRankCounts(s');
      DistinctRanksUnique(s');
      SumCountsSnoc(s', x, d);
      if x.rank !in d {
        SumCountsAppend(s, d, x.rank);
        CountOccurs(s', x.rank);
      }
    }
  }

  /** Every entry of the shape is at least one. */
  lemma RankCountsPositive(s: seq<Card>)
    ensures forall i :: 0 <= i < |RankCounts(s)| ==> RankCounts(s)[i] >= 1
  {
    var d := DistinctRanks(s);
    CountsOfAt(s, d);
    forall i | 0 <= i < |d|
      ensures RankCounts(s)[i] >= 1
    {
      CountOccurs(s, d[i]);
    }
  }

  // ---------------------------------------------------------------------
  // The shapes a total of at most five can take
  // ---------------------------------------------------------------------

  /**
   * The integer partitions of n <= 5, each described by its number of parts,
   * its product and how many parts equal 2, 3, 4 and 5.
   */
  predicate Shape(n: int, parts: int, prod: int, twos: int, threes: int, fours: int, fives: int) {
    if n == 0 then (parts, prod, twos, threes, fours, fives) == (0, 1, 0, 0, 0, 0)
    else if n == 1 then (parts, prod, twos, threes, fours, fives) == (1, 1, 0, 0, 0, 0)
    else if n == 2 then
      (parts, prod, twos, threes, fours, fives) in {(1, 2, 1, 0, 0, 0), (2, 1, 0, 0, 0, 0)}
    else if n == 3 then
      (parts, prod, twos, threes, fours, fives) in {(1, 3, 0, 1, 0, 0), (2, 2, 1, 0, 0, 0), (3, 1, 0, 0, 0, 0)}
    else if n == 4 then
      (parts, prod, twos, threes, fours, fives) in
        {(1, 4, 0, 0, 1, 0), (2, 3, 0, 1, 0, 0), (2, 4, 2, 0, 0, 0), (3, 2, 1, 0, 0, 0), (4, 1, 0, 0, 0, 0)}
    else if n == 5 then
      (parts, prod, twos, threes, fours, fives) in
        {(1, 5, 0, 0, 0, 1), (2, 4, 0, 0, 1, 0), (2, 6, 1, 1, 0, 0), (3, 3, 0, 1, 0, 0),
         (3, 4, 2, 0, 0, 0), (4, 2, 1, 0, 0, 0), (5, 1, 0, 0, 0, 0)}
    else false
  }

  lemma {:induction false} Partition(vs: seq<int>)
    requires forall i :: 0 <= i < |vs| ==> vs[i] >= 1
    requires Sum(vs) <= 5
    ensures Sum(vs) >= 0
    ensures Shape(Sum(vs), |vs|, Prod(vs), NumOf(vs, 2), NumOf(vs, 3), NumOf(vs, 4), NumOf(vs, 5))
  {
    if vs != [] {
      var rest := vs[1..];
      Partition(rest);
      var v := vs[0];
      assert v == 1 || v == 2 || v == 3 || v == 4 || v == 5;
    }
  }

  lemma {:induction false} NumOfIn(vs: seq<int>, x: int)
    ensures NumOf(vs, x) > 0 <==> x in vs
  {
    if vs != [] {
      NumOfIn(vs[1..], x);
      assert x in vs <==> vs[0] == x || x in vs[1..];
    }
  }

  lemma {:induction false} NumOfAtLeastTwo(vs: seq<int>, x: int)
    ensures NumOf(vs, x) >= 2 <==> exists a, b :: 0 <= a < b < |vs| && vs[a] == x && vs[b] == x
  {
    if vs != [] {
      var rest := vs[1..];
      NumOfAtLeastTwo(rest, x);
      NumOfIn(rest, x);
      if NumOf(vs, x) >= 2 {
        if vs[0] == x {
          var b :| 0 <= b < |rest| && rest[b] == x;
          assert vs[0] == x && vs[b + 1] == x;
        } else {
          var a, b :| 0 <= a < b < |rest| && rest[a] == x && rest[b] == x;
          assert vs[a + 1] == x && vs[b + 1] == x;
        }
      }
      if exists a, b :: 0 <= a < b < |vs| && vs[a] == x && vs[b] == x {
        var a, b :| 0 <= a < b < |vs| && vs[a] == x && vs[b] == x;
        if a == 0 {
          assert rest[b - 1] == x;
        } else {
          assert rest[a - 1] == x && rest[b - 1] == x;
        }
      }
    }
  }

  /** A count occurs in the shape exactly when some rank occurs that many times. */
  lemma KindInShape(c: seq<Card>, n: int)
    requires n >= 1
    ensures HasKind(c, n) <==> n in RankCounts(c)
  {
    var d := DistinctRanks(c);
    var vs := RankCounts(c);
    CountsOfAt(c, d);
    if HasKind(c, n) {
      var i :| 0 <= i < |c| && Count(c, c[i].rank) == n;
      CountOccurs(c, c[i].rank);
      var j :| 0 <= j < |d| && d[j] == c[i].rank;
      assert vs[j] == n;
    }
    if n in vs {
      var j :| 0 <= j < |vs| && vs[j] == n;
      CountOccurs(c, d[j]);
      var i :| 0 <= i < |c| && c[i].rank == d[j];
      assert Count(c, c[i].rank) == n;
    }
  }

  /** Two pairs exactly when the shape has two entries equal to 2. */
  lemma TwoPairsInShape(c: seq<Card>)
    ensures HasTwoPairs(c) <==> NumOf(RankCounts(c), 2) >= 2
  {
    var d := DistinctRanks(c);
    var vs := RankCounts(c);
    CountsOfAt(c, d);
    DistinctRanksUnique(c);
    NumOfAtLeastTwo(vs, 2);
    if HasTwoPairs(c) {
      var i, j :| 0 <= i < |c| && 0 <= j < |c| && c[i].rank != c[j].rank &&
        Count(c, c[i].rank) == 2 && Count(c, c[j].rank) == 2;
      CountOccurs(c, c[i].rank);
      CountOccurs(c, c[j].rank);
      var a :| 0 <= a < |d| && d[a] == c[i].rank;
      var b :| 0 <= b < |d| && d[b] == c[j].rank;
      if a < b {
        assert vs[a] == 2 && vs[b] == 2;
      } else {
        assert vs[b] == 2 && vs[a] == 2;
      }
    }
    if NumOf(vs, 2) >= 2 {
      var a, b :| 0 <= a < b < |vs| && vs[a] == 2 && vs[b] == 2;
      CountOccurs(c, d[a]);
      CountOccurs(c, d[b]);
      var i :| 0 <= i < |c| && c[i].rank == d[a];
      var j :| 0 <= j < |c| && c[j].rank == d[b];
      assert c[i].rank != c[j].rank && Count(c, c[i].rank) == 2 && Count(c, c[j].rank) == 2;
    }
  }

  /** Among five cards with valid suits, two share a suit: there are only four suits. */
  lemma SuitPigeonhole(c: seq<Card>)
    requires |c| == 5
    requires forall i :: 0 <= i < |c| ==> Suits.IsValid(c[i].suit)
    ensures exists a, b :: 0 <= a < b < 5 && c[a].suit == c[b].suit
  {
    var s0, s1, s2, s3, s4 := c[0].suit, c[1].suit, c[2].suit, c[3].suit, c[4].suit;
    assert Suits.IsValid(s0) && Suits.IsValid(s1) && Suits.IsValid(s2) && Suits.IsValid(s3) && Suits.IsValid(s4);
    if s0 == s1 || s0 == s2 || s0 == s3 || s0 == s4 {
    } else if s1 == s2 || s1 == s3 || s1 == s4 {
    } else if s2 == s3 || s2 == s4 {
    } else {
      assert s3 == s4;
    }
  }

  /** A card of another rank keeps `Count(s, r)` below `|s|`. */
  lemma {:induction false} CountBelow(s: seq<Card>, r: Rank, j: int)
    requires 0 <= j < |s| && s[j].rank != r
    ensures Count(s, r) < |s|
  {
    var s' := s[..|s| - 1];
    CountOccurs(s', r);
    if j < |s| - 1 {
      assert s'[j] == s[j];
      CountBelow(s', r, j);
    }
  }

  /** Five distinct cards with valid suits cannot share one rank. */
  lemma NoFiveOfAKind(c: seq<Card>)
    requires |c| == 5 && !HasDuplicate(c)
    requires forall i :: 0 <= i < |c| ==> Suits.IsValid(c[i].suit)
    ensures !(5 in RankCounts(c))
  {
    KindInShape(c, 5);
    SuitPigeonhole(c);
    var a, b :| 0 <= a < b < 5 && c[a].suit == c[b].suit;
    assert c[a] != c[b];
    assert c[a].rank != c[b].rank;
    forall i | 0 <= i < |c|
      ensures Count(c, c[i].rank) < 5
    {
      if c[a].rank != c[i].rank {
        CountBelow(c, c[i].rank, a);
      } else {
        CountBelow(c, c[i].rank, b);
      }
    }
  }

  /**
   * For five distinct cards with valid suits, the evaluator's product rule
   * agrees with the poker definition of the categories, and it never
   * returns Unknown or an error.
   */
  lemma EvaluateIsPokerCategory(c: seq<Card>)
    requires |c| == 5 && !HasDuplicate(c)
    requires forall i :: 0 <= i < |c| ==> Suits.IsValid(c[i].suit)
    ensures Evaluate(c) == (PokerCategory(c), None)
    ensures Evaluate(c).0 != Unknown
  {
    var vs := RankCounts(c);
    SumRankCounts(c);
    RankCountsPositive(c);
    Partition(vs);
    NoFiveOfAKind(c);
    NumOfIn(vs, 5);
    NumOfIn(vs, 4);
    NumOfIn(vs, 3);
    NumOfIn(vs, 2);
    KindInShape(c, 4);
    KindInShape(c, 3);
    KindInShape(c, 2);
    TwoPairsInShape(c);
  }

  // ---------------------------------------------------------------------
  // The evaluator as the source computes it
  // ---------------------------------------------------------------------

  /** Flag bits of the distinct-rank branch. */
  const FlushBit := 1
  const StraightBit := 2

  /** Scans the cards once, remembering each card seen, and stops at the first repeat. */
  method ExistSameCards(cards: seq<Card>) returns (found: bool)
    ensures found == HasDuplicate(cards)
  {
    var seen: set<Card> := {};
    for k := 0 to |cards|
      invariant seen == set i | 0 <= i < k :: cards[i]
      invariant !HasDuplicate(cards[..k])
    {
      if cards[k] in seen {
        var i :| 0 <= i < k && cards[i] == cards[k];
        return true;
      }
      seen := seen + {cards[k]};
      assert forall i, j :: 0 <= i < j < k + 1 ==> cards[..k + 1][i] == cards[i] && cards[..k + 1][j] == cards[j];
    }
    assert cards[..|cards|] == cards;
    return false;
  }

  /** The product of the values `m` holds for the keys `ks`, in any order. */
  ghost function ProductOver(m: map<Rank, int>, ks: set<Rank>): int
    requires ks <= m.Keys
    decreases ks
  {
    if ks == {} then 1
    else
      Sets.NonEmptyHasInt(ks);
      var k :| k in ks;
      m[k] * ProductOver(m, ks - {k})
  }

  /** Any key can be taken out of the product first. */
  lemma {:induction false} ProductOverRemove(m: map<Rank, int>, ks: set<Rank>, k: Rank)
    requires ks <= m.Keys && k in ks
    ensures ProductOver(m, ks) == m[k] * ProductOver(m, ks - {k})
    decreases ks
  {
    var j :| j in ks && ProductOver(m, ks) == m[j] * ProductOver(m, ks - {j});
    if j != k {
      ProductOverRemove(m, ks - {j}, k);
      ProductOverRemove(m, ks - {k}, j);
      assert ks - {j} - {k} == ks - {k} - {j};
      var x := ProductOver(m, ks - {j} - {k});
      assert m[j] * (m[k] * x) == m[k] * (m[j] * x);
    }
  }

  /** The elements of a sequence without repeats are as many as its length. */
  lemma {:induction false} DistinctCard(ks: seq<Rank>)
    requires forall i, j :: 0 <= i < j < |ks| ==> ks[i] != ks[j]
    ensures |set x | x in ks| == |ks|
  {
    if ks != [] {
      DistinctCard(ks[1..]);
      assert (set x | x in ks) == {ks[0]} + (set x | x in ks[1..]);
    }
  }

  /** A map holding the count of every rank of `ks` multiplies out to the shape's product. */
  lemma {:induction false} ProductOverCounts(c: seq<Card>, m: map<Rank, int>, ks: seq<Rank>)
    requires forall i, j :: 0 <= i < j < |ks| ==> ks[i] != ks[j]
    requires forall i :: 0 <= i < |ks| ==> ks[i] in m && m[ks[i]] == Count(c, ks[i])
    ensures (set x | x in ks) <= m.Keys
    ensures ProductOver(m, set x | x in ks) == Prod(CountsOf(c, ks))
  {
    if ks != [] {
      var all := set x | x in ks;
      ProductOverCounts(c, m, ks[1..]);
      assert all - {ks[0]} == set x | x in ks[1..];
      ProductOverRemove(m, all, ks[0]);
    }
  }

  lemma {:induction false} MinAtMostMax(s: seq<Card>)
    requires |s| > 0
    ensures MinRank(s) <= MaxRank(s)
  {
    if |s| > 1 {
      MinAtMostMax(s[..|s| - 1]);
    }
  }

  /** The rank-count map the source builds: each rank of the hand, mapped to its card count. */
  method RankCountMap(c: seq<Card>) returns (m: map<Rank, int>)
    ensures forall r :: r in m <==> Count(c, r) > 0
    ensures forall r :: r in m ==> m[r] == Count(c, r)
  {
    m := map[];
    for k := 0 to |c|
      invariant forall r :: r in m <==> Count(c[..k], r) > 0
      invariant forall r :: r in m ==> m[r] == Count(c[..k], r)
    {
      assert c[..k + 1][..k] == c[..k];
      var r := c[k].rank;
      m := m[r := (if r in m then m[r] else 0) + 1];
    }
    assert c[..|c|] == c;
  }

  /** The rank-count map has one key per entry of the shape and multiplies out to its product. */
  lemma RankCountMapIsShape(c: seq<Card>, m: map<Rank, int>)
    requires forall r :: r in m <==> Count(c, r) > 0
    requires forall r :: r in m ==> m[r] == Count(c, r)
    ensures |m| == |RankCounts(c)|
    ensures ProductOver(m, m.Keys) == Prod(RankCounts(c))
  {
    var d := DistinctRanks(c);
    DistinctRanksUnique(c);
    CountsOfAt(c, d);
    forall r | true
      ensures r in m <==> r in d
    {
      CountOccurs(c, r);
    }
    assert m.Keys == set x | x in d;
    DistinctCard(d);
    ProductOverCounts(c, m, d);
  }

  /** Multiplies the map's values, visiting its keys in an arbitrary order. */
  method ProductOfValues(m: map<Rank, int>) returns (product: int)
    ensures product == ProductOver(m, m.Keys)
  {
    product := 1;
    var keys := m.Keys;
    while keys != {}
      invariant keys <= m.Keys
      invariant product * ProductOver(m, keys) == ProductOver(m, m.Keys)
      decreases keys
    {
      Sets.NonEmptyHasInt(keys);
      var r :| r in keys;
      ProductOverRemove(m, keys, r);
      product := product * m[r];
      keys := keys - {r};
    }
  }

  /** The flush scan: starts from the flush bit and clears it at the first card of another suit. */
  method FlushFlag(c: seq<Card>) returns (flag: int)
    requires |c| > 0
    ensures flag == (if SameSuit(c) then FlushBit else 0)
  {
    flag := FlushBit;
    var suit := c[0].suit;
    var k := 1;
    while k < |c|
      invariant 1 <= k <= |c|
      invariant forall i :: 0 <= i < k ==> c[i].suit == suit
    {
      if c[k].suit != suit {
        flag := flag - FlushBit;
        break;
      }
      k := k + 1;
    }
  }

  /** The min/max scan over the ranks. */
  method RankBounds(c: seq<Card>) returns (minRank: Rank, maxRank: Rank)
    requires |c| > 0
    ensures minRank == MinRank(c) && maxRank == MaxRank(c)
  {
    minRank, maxRank := c[0].rank, c[0].rank;
    for j := 1 to |c|
      invariant minRank == MinRank(c[..j]) && maxRank == MaxRank(c[..j])
    {
      assert c[..j + 1][..j] == c[..j];
      MinAtMostMax(c[..j]);
      var iRank := c[j].rank;
      if iRank > maxRank {
        maxRank := iRank;
      } else if iRank < minRank {
        minRank := iRank;
      }
    }
    assert c[..|c|] == c;
  }

  /**
   * The evaluator as the source computes it: size check, duplicate check,
   * rank-count map, product of the counts, and for five distinct ranks the
   * flush and straight flags (with the wheel looked up in the map).
   */
  method Value(c: seq<Card>) returns (v: HandValue, err: Option<HandError>)
    ensures (v, err) == Evaluate(c)
  {
    if |c| != 5 {
      return Unknown, Some(ErrInvalidHandSize);
    }
    var same := ExistSameCards(c);
    if same {
      return Unknown, Some(ErrExistSameCards);
    }

    var m := RankCountMap(c);
    RankCountMapIsShape(c, m);
    if |m| < 2 {
      return Unknown, None;
    }

    var product := ProductOfValues(m);
    if product == 6 {
      return FullHouse, None;
    } else if product == 4 {
      if |m| == 2 {
        return FourOfAKind, None;
      }
      if |m| == 3 {
        return TwoPairs, None;
      }
    } else if product == 3 {
      return ThreeOfAKind, None;
    } else if product == 2 {
      return Pair, None;
    } else if product == 1 {
      var flag := FlushFlag(c);
      var minRank, maxRank := RankBounds(c);
      var okAce, okTwo, okThree, okFour, okFive := Ace in m, Two in m, Three in m, Four in m, Five in m;
      if maxRank - minRank == 4 || (okAce && okTwo && okThree && okFour && okFive) {
        flag := flag + StraightBit;
      }

      if flag == StraightBit {
        return Straight, None;
      } else if flag == FlushBit {
        return Flush, None;
      } else if flag == StraightBit + FlushBit {
        if maxRank == Ace && minRank == Ten {
          return RoyalFlush, None;
        }
        return StraightFlush, None;
      } else {
        return HighCard, None;
      }
    }
    return Unknown, Some(ErrUnknownHandValue);
  }
}
