/**
 * The pot ledger: how many chips each player has put in this hand, and the
 * settlement of those contributions into a main pot and side pots.  Each
 * pot is a layer: the chips every remaining contributor put in above the
 * previous layer, shared by exactly those contributors.
 */
module Pots {
  import Sets

  /** One player's contribution, as the settlement lists it. */
  datatype Chips = Chips(amount: int, id: string)

  /** A settled pot: who may win it and how many chips it holds. */
  datatype Pot = Pot(contributors: set<string>, chips: int)

  // ---------------------------------------------------------------------
  // Specification
  // ---------------------------------------------------------------------

  /** The ids in a contribution list. */
  function Ids(s: seq<Chips>): set<string> {
    if s == [] then {} else {s[0].id} + Ids(s[1..])
  }

  lemma {:induction false} IdsMember(s: seq<Chips>)
    ensures forall k :: k in Ids(s) <==> exists i :: 0 <= i < |s| && s[i].id == k
  {
    if s != [] {
      IdsMember(s[1..]);
      forall k | k in Ids(s)
        ensures exists i :: 0 <= i < |s| && s[i].id == k
      {
        if k != s[0].id {
          assert k in Ids(s[1..]);
          var i :| 0 <= i < |s[1..]| && s[1..][i].id == k;
          assert s[i + 1].id == k;
        }
      }
      forall i | 0 <= i < |s|
        ensures s[i].id in Ids(s)
      {
        if i > 0 {
          assert s[1..][i - 1] == s[i];
        }
      }
    }
  }

  predicate DistinctIds(s: seq<Chips>) {
    forall i, j :: 0 <= i < j < |s| ==> s[i].id != s[j].id
  }

  predicate SortedByAmount(s: seq<Chips>) {
    forall i, j :: 0 <= i < j < |s| ==> s[i].amount <= s[j].amount
  }

  /** Every entry of `s` is a contribution recorded in `m`. */
  predicate EntriesOf(s: seq<Chips>, m: map<string, int>) {
    forall i :: 0 <= i < |s| ==> s[i].id in m && m[s[i].id] == s[i].amount
  }

  /** `s` lists every contribution of `m` once, in ascending order of amount. */
  predicate SortedEntries(s: seq<Chips>, m: map<string, int>) {
    SortedByAmount(s) && DistinctIds(s) && EntriesOf(s, m) && Ids(s) == m.Keys
  }

  function AmountSum(s: seq<Chips>): int {
    if s == [] then 0 else s[0].amount + AmountSum(s[1..])
  }

  /** The chips of all pots together. */
  function Total(ps: seq<Pot>): int {
    if ps == [] then 0 else ps[0].chips + Total(ps[1..])
  }

  /** The total of the values `m` holds for the keys `ks`, added in any order. */
  ghost function SumOver(m: map<string, int>, ks: set<string>): int
    requires ks <= m.Keys
    decreases ks
  {
    if ks == {} then 0
    else
      Sets.NonEmptyHasString(ks);
      var k :| k in ks;
      m[k] + SumOver(m, ks - {k})
  }

  /** The total of all contributions. */
  ghost function MapSum(m: map<string, int>): int {
    SumOver(m, m.Keys)
  }

  /** The contributors above `base`. */
  function Above(m: map<string, int>, base: int): set<string> {
    set k | k in m && m[k] > base
  }

  /** The lowest contribution above `base`. */
  ghost function NextLevel(m: map<string, int>, base: int): (v: int)
    requires Above(m, base) != {}
    ensures exists k :: k in Above(m, base) && m[k] == v
    ensures forall k :: k in Above(m, base) ==> v <= m[k]
    ensures v > base
  {
    var above := Above(m, base);
    var levels := set k | k in above :: m[k];
    Sets.NonEmptyHasString(above);
    var k1 :| k1 in above;
    assert m[k1] in levels;
    Sets.MinExists(levels);
    var v :| v in levels && forall w :: w in levels ==> v <= w;
    assert forall k :: k in above ==> m[k] in levels;
    v
  }

  /** Everyone who put in at least `v`. */
  function AtLeast(m: map<string, int>, v: int): set<string> {
    set k | k in m && m[k] >= v
  }

  /**
   * The pots a ledger settles into, defined on the ledger alone: the lowest
   * contribution v above `base` closes a layer holding v - base from every
   * player who put in at least v; the next layer starts at v.
   */
  ghost function Canonical(m: map<string, int>, base: int): seq<Pot>
    decreases Above(m, base)
  {
    if Above(m, base) == {} then []
    else
      var v := NextLevel(m, base);
      var k0 :| k0 in Above(m, base) && m[k0] == v;
      assert k0 !in Above(m, v);
      var cs := AtLeast(m, v);
      [Pot(cs, (v - base) * |cs|)] + Canonical(m, v)
  }

  /**
   * The layers the settlement loop peels off a list sorted by amount:
   * entry 0 closes a layer of `s[0].amount - base` chips from each of the
   * `|s|` remaining contributors, unless that is zero; the next layer
   * starts at `s[0].amount`.
   */
  function Layers(s: seq<Chips>, base: int): seq<Pot> {
    if s == [] then []
    else
      var d := s[0].amount - base;
      (if d == 0 then [] else [Pot(Ids(s), d * |Ids(s)|)]) + Layers(s[1..], s[0].amount)
  }

  // ---------------------------------------------------------------------
  // Sorting (the library sort the settlement calls)
  // ---------------------------------------------------------------------

  function Insert(x: Chips, s: seq<Chips>): (r: seq<Chips>)
    ensures multiset(r) == multiset(s) + multiset{x}
    ensures |r| == |s| + 1
  {
    if s == [] || x.amount <= s[0].amount then [x] + s
    else
      assert s == [s[0]] + s[1..];
      [s[0]] + Insert(x, s[1..])
  }

  /** Sorts by ascending amount; entries of equal amount may come in any order. */
  function SortByAmount(s: seq<Chips>): (r: seq<Chips>)
    ensures multiset(r) == multiset(s)
    ensures |r| == |s|
  {
    if s == [] then []
    else
      assert s == [s[0]] + s[1..];
      Insert(s[0], SortByAmount(s[1..]))
  }

  /** Inserting above a floor stays above it. */
  lemma {:induction false} InsertAbove(x: Chips, s: seq<Chips>, lo: int)
    requires lo <= x.amount
    requires forall i :: 0 <= i < |s| ==> lo <= s[i].amount
    ensures forall i :: 0 <= i < |Insert(x, s)| ==> lo <= Insert(x, s)[i].amount
  {
    if s != [] && x.amount > s[0].amount {
      InsertAbove(x, s[1..], lo);
      var r := Insert(x, s);
      assert r == [s[0]] + Insert(x, s[1..]);
      forall i | 0 <= i < |r| ensures lo <= r[i].amount {
        if i > 0 {
          assert r[i] == Insert(x, s[1..])[i - 1];
        }
      }
    } else {
      var r := Insert(x, s);
      forall i | 0 <= i < |r| ensures lo <= r[i].amount {
        if i > 0 {
          assert r[i] == s[i - 1];
        }
      }
    }
  }

  lemma {:induction false} InsertSorted(x: Chips, s: seq<Chips>)
    requires SortedByAmount(s)
    ensures SortedByAmount(Insert(x, s))
  {
    var r := Insert(x, s);
    if s == [] || x.amount <= s[0].amount {
      assert r == [x] + s;
      forall i, j | 0 <= i < j < |r| ensures r[i].amount <= r[j].amount {
        assert r[j] == s[j - 1];
        if i > 0 {
          assert r[i] == s[i - 1];
        } else {
          assert s[0].amount <= s[j - 1].amount;
        }
      }
    } else {
      var tail := s[1..];
      var t := Insert(x, tail);
      assert r == [s[0]] + t;
      assert SortedByAmount(tail) by {
        forall i, j | 0 <= i < j < |tail| ensures tail[i].amount <= tail[j].amount {
          assert tail[i] == s[i + 1] && tail[j] == s[j + 1];
        }
      }
      InsertSorted(x, tail);
      forall i | 0 <= i < |tail| ensures s[0].amount <= tail[i].amount {
        assert tail[i] == s[i + 1];
      }
      InsertAbove(x, tail, s[0].amount);
      forall i, j | 0 <= i < j < |r| ensures r[i].amount <= r[j].amount {
        assert r[j] == t[j - 1];
        if i > 0 {
          assert r[i] == t[i - 1];
        }
      }
    }
  }

  lemma {:induction false} SortSorted(s: seq<Chips>)
    ensures SortedByAmount(SortByAmount(s))
  {
    if s != [] {
      SortSorted(s[1..]);
      InsertSorted(s[0], SortByAmount(s[1..]));
    }
  }

  lemma ConsIds(x: Chips, s: seq<Chips>)
    ensures Ids([x] + s) == {x.id} + Ids(s)
    ensures DistinctIds([x] + s) <==> DistinctIds(s) && x.id !in Ids(s)
    ensures AmountSum([x] + s) == x.amount + AmountSum(s)
  {
    var t := [x] + s;
    assert t[1..] == s;
    assert t[0] == x;
    IdsMember(s);
    if DistinctIds(s) && x.id !in Ids(s) {
      forall i, j | 0 <= i < j < |t|
        ensures t[i].id != t[j].id
      {
        assert t[j] == s[j - 1];
        if i > 0 {
          assert t[i] == s[i - 1];
        }
      }
    }
    if DistinctIds(t) {
      forall i, j | 0 <= i < j < |s|
        ensures s[i].id != s[j].id
      {
        assert t[i + 1] == s[i] && t[j + 1] == s[j];
      }
      forall i | 0 <= i < |s|
        ensures s[i].id != x.id
      {
        assert t[i + 1] == s[i];
      }
    }
  }

  lemma {:induction false} AmountSumConcat(a: seq<Chips>, b: seq<Chips>)
    ensures AmountSum(a + b) == AmountSum(a) + AmountSum(b)
  {
    if a != [] {
      assert (a + b)[0] == a[0];
      assert (a + b)[1..] == a[1..] + b;
      AmountSumConcat(a[1..], b);
    } else {
      assert a + b == b;
    }
  }

  /** Inserting adds exactly the new entry: its id, its amount, and no repeated id. */
  lemma {:induction false} InsertKeeps(x: Chips, s: seq<Chips>, m: map<string, int>)
    ensures Ids(Insert(x, s)) == Ids(s) + {x.id}
    ensures AmountSum(Insert(x, s)) == x.amount + AmountSum(s)
    ensures EntriesOf(s, m) && x.id in m && m[x.id] == x.amount ==> EntriesOf(Insert(x, s), m)
    ensures DistinctIds(s) && x.id !in Ids(s) ==> DistinctIds(Insert(x, s))
  {
    if s == [] || x.amount <= s[0].amount {
      ConsIds(x, s);
    } else {
      var s0, tail := s[0], s[1..];
      var r := Insert(x, tail);
      assert s == [s0] + tail;
      assert Insert(x, s) == [s0] + r;
      ConsIds(s0, tail);
      InsertKeeps(x, tail, m);
      ConsIds(s0, r);
      if EntriesOf(s, m) && x.id in m && m[x.id] == x.amount {
        assert EntriesOf(tail, m) by {
          forall i | 0 <= i < |tail| ensures tail[i].id in m && m[tail[i].id] == tail[i].amount {
            assert tail[i] == s[i + 1];
          }
        }
        var t := [s0] + r;
        forall i | 0 <= i < |t| ensures t[i].id in m && m[t[i].id] == t[i].amount {
          if i > 0 {
            assert t[i] == r[i - 1];
          }
        }
      }
    }
  }

  /** Sorting keeps the ids. */
  lemma {:induction false} SortIds(s: seq<Chips>)
    ensures Ids(SortByAmount(s)) == Ids(s)
  {
    if s != [] {
      var r := SortByAmount(s[1..]);
      assert Ids(s) == {s[0].id} + Ids(s[1..]);
      SortIds(s[1..]);
      InsertKeeps(s[0], r, map[]);
    }
  }

  /** Sorting keeps the amount total. */
  lemma {:induction false} SortSum(s: seq<Chips>)
    ensures AmountSum(SortByAmount(s)) == AmountSum(s)
  {
    if s != [] {
      var r := SortByAmount(s[1..]);
      SortSum(s[1..]);
      InsertKeeps(s[0], r, map[]);
    }
  }

  /** Sorting keeps every entry a recorded contribution. */
  lemma {:induction false} SortEntries(s: seq<Chips>, m: map<string, int>)
    requires EntriesOf(s, m)
    ensures EntriesOf(SortByAmount(s), m)
  {
    if s != [] {
      var tail := s[1..];
      var r := SortByAmount(tail);
      forall i | 0 <= i < |tail| ensures tail[i].id in m && m[tail[i].id] == tail[i].amount {
        assert tail[i] == s[i + 1];
      }
      SortEntries(tail, m);
      InsertKeeps(s[0], r, m);
    }
  }

  /** Sorting repeats no id that was not repeated before. */
  lemma {:induction false} SortDistinct(s: seq<Chips>)
    requires DistinctIds(s)
    ensures DistinctIds(SortByAmount(s))
  {
    if s != [] {
      var s0, tail := s[0], s[1..];
      assert s == [s0] + tail;
      var r := SortByAmount(tail);
      assert SortByAmount(s) == Insert(s0, r);
      ConsIds(s0, tail);
      SortDistinct(tail);
      SortIds(tail);
      InsertKeeps(s0, r, map[]);
    }
  }

  /** Appending an entry adds its id. */
  lemma {:induction false} SnocIds(s: seq<Chips>, x: Chips)
    ensures Ids(s + [x]) == Ids(s) + {x.id}
    ensures DistinctIds(s) && x.id !in Ids(s) ==> DistinctIds(s + [x])
  {
    if s != [] {
      assert (s + [x])[0] == s[0];
      assert (s + [x])[1..] == s[1..] + [x];
      SnocIds(s[1..], x);
    } else {
      assert s + [x] == [x];
    }
    if DistinctIds(s) && x.id !in Ids(s) {
      IdsMember(s);
      var t := s + [x];
      forall i, j | 0 <= i < j < |t|
        ensures t[i].id != t[j].id
      {
        assert t[i] == s[i];
        if j < |s| {
          assert t[j] == s[j];
        }
      }
    }
  }

  /** Lists with the same ids position by position have the same id set. */
  lemma {:induction false} SameIds(a: seq<Chips>, b: seq<Chips>)
    requires |a| == |b|
    requires forall k :: 0 <= k < |a| ==> a[k].id == b[k].id
    ensures Ids(a) == Ids(b)
  {
    if a != [] {
      SameIds(a[1..], b[1..]);
    }
  }

  // ---------------------------------------------------------------------
  // Facts about the specification
  // ---------------------------------------------------------------------

  /** Any key can be added first. */
  lemma {:induction false} SumOverRemove(m: map<string, int>, ks: set<string>, k: string)
    requires ks <= m.Keys && k in ks
    ensures SumOver(m, ks) == m[k] + SumOver(m, ks - {k})
    decreases ks
  {
    var j :| j in ks && SumOver(m, ks) == m[j] + SumOver(m, ks - {j});
    if j != k {
      SumOverRemove(m, ks - {j}, k);
      SumOverRemove(m, ks - {k}, j);
      assert ks - {j} - {k} == ks - {k} - {j};
    }
  }

  /** Only the keys matter: maps that agree on `ks` total the same over `ks`. */
  lemma {:induction false} SumOverAgree(m: map<string, int>, n: map<string, int>, ks: set<string>)
    requires ks <= m.Keys && ks <= n.Keys
    requires forall k :: k in ks ==> m[k] == n[k]
    ensures SumOver(m, ks) == SumOver(n, ks)
    decreases ks
  {
    if ks != {} {
      var k :| k in ks && SumOver(m, ks) == m[k] + SumOver(m, ks - {k});
      SumOverRemove(n, ks, k);
      SumOverAgree(m, n, ks - {k});
    }
  }

  /** Adding `amount` to one player's contribution adds `amount` to the total. */
  lemma AddChipsSum(m: map<string, int>, id: string, amount: int)
    ensures MapSum(m[id := (if id in m then m[id] else 0) + amount]) == MapSum(m) + amount
  {
    var old0 := if id in m then m[id] else 0;
    var n := m[id := old0 + amount];
    var rest := m.Keys - {id};
    assert n.Keys - {id} == rest;
    SumOverRemove(n, n.Keys, id);
    SumOverAgree(m, n, rest);
    if id in m {
      SumOverRemove(m, m.Keys, id);
    } else {
      assert m.Keys == rest;
    }
  }

  lemma {:induction false} IdsCard(s: seq<Chips>)
    requires DistinctIds(s)
    ensures |Ids(s)| == |s|
  {
    if s != [] {
      assert s == [s[0]] + s[1..];
      ConsIds(s[0], s[1..]);
      IdsCard(s[1..]);
    }
  }

  lemma {:induction false} TotalConcat(a: seq<Pot>, b: seq<Pot>)
    ensures Total(a + b) == Total(a) + Total(b)
  {
    if a != [] {
      assert (a + b)[0] == a[0];
      assert (a + b)[1..] == a[1..] + b;
      TotalConcat(a[1..], b);
    } else {
      assert a + b == b;
    }
  }

  /** The first layer and the rest. */
  lemma LayersUnfold(s: seq<Chips>, base: int)
    requires s != []
    ensures Total(Layers(s, base)) == (s[0].amount - base) * |Ids(s)| + Total(Layers(s[1..], s[0].amount))
  {
    var d := s[0].amount - base;
    var head := if d == 0 then [] else [Pot(Ids(s), d * |Ids(s)|)];
    TotalConcat(head, Layers(s[1..], s[0].amount));
  }

  /** The layers hold all the chips above `base`: the contributions, less `base` from each. */
  lemma {:induction false} LayersTotal(s: seq<Chips>, base: int)
    requires DistinctIds(s)
    ensures Total(Layers(s, base)) == AmountSum(s) - |s| * base
  {
    if s != [] {
      var n, a0 := |s|, s[0].amount;
      LayersUnfold(s, base);
      IdsCard(s);
      LayersTotal(s[1..], a0);
      assert s == [s[0]] + s[1..];
      ConsIds(s[0], s[1..]);
      LayerArithmetic(a0, base, n, AmountSum(s[1..]));
    }
  }

  lemma LayerArithmetic(a0: int, base: int, n: int, rest: int)
    ensures (a0 - base) * n + (rest - (n - 1) * a0) == a0 + rest - n * base
  {
    assert (a0 - base) * n == a0 * n - base * n;
    assert (n - 1) * a0 == n * a0 - a0;
  }

  /** When the sorted list covers the contributions above `base`, its first entry sets the next level and its ids are the next pot's contributors. */
  lemma LevelOfSorted(s: seq<Chips>, m: map<string, int>, base: int)
    requires s != [] && SortedByAmount(s) && EntriesOf(s, m)
    requires s[0].amount > base
    requires forall k :: k in m && m[k] > base ==> k in Ids(s)
    ensures Above(m, base) != {}
    ensures NextLevel(m, base) == s[0].amount
    ensures AtLeast(m, s[0].amount) == Ids(s)
  {
    IdsMember(s);
    assert s[0].id in Above(m, base);
    var v := NextLevel(m, base);
    var k :| k in Above(m, base) && m[k] == v;
    var i :| 0 <= i < |s| && s[i].id == k;
    assert s[0].amount <= s[i].amount;
    forall k | k in Ids(s)
      ensures k in AtLeast(m, s[0].amount)
    {
      var i :| 0 <= i < |s| && s[i].id == k;
      assert s[0].amount <= s[i].amount;
    }
  }

  /** The first canonical layer and the rest. */
  lemma CanonicalUnfold(m: map<string, int>, base: int)
    requires Above(m, base) != {}
    ensures Canonical(m, base) ==
      [Pot(AtLeast(m, NextLevel(m, base)), (NextLevel(m, base) - base) * |AtLeast(m, NextLevel(m, base))|)]
      + Canonical(m, NextLevel(m, base))
  {
  }

  /** A layer closed by the first entry, put in front of the canonical pots above it. */
  lemma {:induction false} JoinLayer(s: seq<Chips>, m: map<string, int>, base: int)
    requires s != [] && s[0].amount != base && Above(m, base) != {}
    requires NextLevel(m, base) == s[0].amount && AtLeast(m, s[0].amount) == Ids(s)
    requires Layers(s[1..], s[0].amount) == Canonical(m, s[0].amount)
    ensures Layers(s, base) == Canonical(m, base)
  {
    CanonicalUnfold(m, base);
    var pot := Pot(Ids(s), (s[0].amount - base) * |Ids(s)|);
    assert Layers(s, base) == [pot] + Layers(s[1..], s[0].amount);
  }

  /** What the tail of a sorted, covering contribution list still satisfies. */
  lemma {:induction false} SortedTail(s: seq<Chips>, m: map<string, int>, base: int)
    requires s != [] && SortedByAmount(s) && DistinctIds(s) && EntriesOf(s, m)
    requires s[0].amount >= base
    requires forall k :: k in m && m[k] > base ==> k in Ids(s)
    ensures SortedByAmount(s[1..]) && DistinctIds(s[1..]) && EntriesOf(s[1..], m)
    ensures forall i :: 0 <= i < |s[1..]| ==> s[1..][i].amount >= s[0].amount
    ensures forall k :: k in m && m[k] > s[0].amount ==> k in Ids(s[1..])
  {
    var rest := s[1..];
    forall i | 0 <= i < |rest| ensures rest[i] == s[i + 1] {
    }
    assert Ids(s) == {s[0].id} + Ids(rest);
  }

  /**
   * The settlement loop's layers are the ledger's canonical pots, whatever
   * order the sorted list puts equal contributions in.
   */
  lemma {:induction false} LayersCanonical(s: seq<Chips>, m: map<string, int>, base: int)
    requires SortedByAmount(s) && DistinctIds(s) && EntriesOf(s, m)
    requires forall i :: 0 <= i < |s| ==> s[i].amount >= base
    requires forall k :: k in m && m[k] > base ==> k in Ids(s)
    ensures Layers(s, base) == Canonical(m, base)
    decreases |s|
  {
    if s == [] {
      assert Above(m, base) == {};
    } else {
      SortedTail(s, m, base);
      if s[0].amount == base {
        LayersCanonical(s[1..], m, base);
        assert Layers(s, base) == [] + Layers(s[1..], base);
      } else {
        LevelOfSorted(s, m, base);
        LayersCanonical(s[1..], m, s[0].amount);
        JoinLayer(s, m, base);
      }
    }
  }

  /** Every pot is a real layer: it has contributors, all above `base`, and holds chips. */
  lemma {:induction false} CanonicalPotsAbove(m: map<string, int>, base: int)
    ensures forall i :: 0 <= i < |Canonical(m, base)| ==>
      Canonical(m, base)[i].contributors != {} &&
      Canonical(m, base)[i].contributors <= Above(m, base) &&
      Canonical(m, base)[i].chips > 0
    decreases Above(m, base)
  {
    if Above(m, base) != {} {
      var v := NextLevel(m, base);
      var k0 :| k0 in Above(m, base) && m[k0] == v;
      assert k0 !in Above(m, v);
      var cs := AtLeast(m, v);
      assert k0 in cs;
      assert (v - base) * |cs| > 0;
      CanonicalPotsAbove(m, v);
    }
  }

  /**
   * The pots nest: the first holds every contributor above `base`, each
   * later pot's contributors are a strict subset of the one before, and
   * whoever put in no more than `base` is in no pot.
   */
  lemma {:induction false} CanonicalNested(m: map<string, int>, base: int)
    ensures Above(m, base) != {} ==> |Canonical(m, base)| > 0 && Canonical(m, base)[0].contributors == Above(m, base)
    ensures forall i :: 0 <= i < |Canonical(m, base)| - 1 ==>
      Canonical(m, base)[i + 1].contributors < Canonical(m, base)[i].contributors
    ensures forall i, k :: 0 <= i < |Canonical(m, base)| && k in Canonical(m, base)[i].contributors ==> k in Above(m, base)
    decreases Above(m, base)
  {
    CanonicalPotsAbove(m, base);
    if Above(m, base) != {} {
      var v := NextLevel(m, base);
      var k0 :| k0 in Above(m, base) && m[k0] == v;
      assert k0 !in Above(m, v);
      var tail := Canonical(m, v);
      assert AtLeast(m, v) == Above(m, base);
      CanonicalNested(m, v);
      CanonicalPotsAbove(m, v);
      if |tail| > 0 {
        assert k0 in AtLeast(m, v) && k0 !in tail[0].contributors;
      }
    }
  }

  /** Two sorted listings of one non-negative ledger settle into the same pots: ties and iteration order do not matter. */
  lemma SettleOrderIndependent(s: seq<Chips>, t: seq<Chips>, m: map<string, int>)
    requires SortedEntries(s, m) && SortedEntries(t, m)
    requires forall k :: k in m ==> m[k] >= 0
    ensures Layers(s, 0) == Layers(t, 0)
  {
    LayersCanonical(s, m, 0);
    LayersCanonical(t, m, 0);
  }

  /** Contributions 100, 200 and 300 settle into pots of 300, 200 and 100 chips for all three, the top two and the top one. */
  lemma SettleExample(a: string, b: string, c: string)
    requires a != b && b != c && a != c
    ensures Canonical(map[a := 100, b := 200, c := 300], 0) ==
      [Pot({a, b, c}, 300), Pot({b, c}, 200), Pot({c}, 100)]
  {
    var m := map[a := 100, b := 200, c := 300];
    var s3 := [Chips(300, c)];
    var s2 := [Chips(200, b)] + s3;
    var s := [Chips(100, a)] + s2;
    assert s[1..] == s2 && s2[1..] == s3 && s3[1..] == [];
    assert Ids(s3) == {c};
    assert Ids(s2) == {b, c};
    assert Ids(s) == {a, b, c};
    assert |{a, b, c}| == 3 && |{b, c}| == 2 && |{c}| == 1;
    assert Layers(s3, 200) == [Pot({c}, 100)];
    assert Layers(s2, 100) == [Pot({b, c}, 200), Pot({c}, 100)];
    assert Layers(s, 0) == [Pot({a, b, c}, 300), Pot({b, c}, 200), Pot({c}, 100)];
    assert Ids(s) == m.Keys;
    LayersCanonical(s, m, 0);
  }

  /** The amount already taken from every entry when the loop reaches position `i`. */
  function BaseAt(s: seq<Chips>, i: int): int
    requires 0 <= i <= |s|
  {
    if i == 0 then 0 else s[i - 1].amount
  }

  /** Lists the contributions, visiting the players in an arbitrary order. */
  method ListContributions(m: map<string, int>) returns (chipsList: seq<Chips>)
    ensures DistinctIds(chipsList) && EntriesOf(chipsList, m) && Ids(chipsList) == m.Keys
    ensures AmountSum(chipsList) == MapSum(m)
  {
    chipsList := [];
    var keys := m.Keys;
    while keys != {}
      invariant keys <= m.Keys
      invariant DistinctIds(chipsList) && EntriesOf(chipsList, m)
      invariant Ids(chipsList) == m.Keys - keys
      invariant AmountSum(chipsList) + SumOver(m, keys) == MapSum(m)
      decreases keys
    {
      Sets.NonEmptyHasString(keys);
      var id :| id in keys;
      SumOverRemove(m, keys, id);
      AmountSumConcat(chipsList, [Chips(m[id], id)]);
      SnocIds(chipsList, Chips(m[id], id));
      assert AmountSum([Chips(m[id], id)]) == m[id];
      chipsList := chipsList + [Chips(m[id], id)];
      keys := keys - {id};
    }
  }

  /**
   * Takes `amount` from entry i and every entry after it, collecting the ids
   * of all of them.
   */
  method TakeLayer(chipsList: seq<Chips>, i: int, amount: int) returns (rest: seq<Chips>, contributors: set<string>)
    requires 0 <= i < |chipsList|
    ensures |rest| == |chipsList|
    ensures forall k :: 0 <= k < |rest| ==> rest[k].id == chipsList[k].id
    ensures forall k :: 0 <= k < i ==> rest[k] == chipsList[k]
    ensures forall k :: i <= k < |rest| ==> rest[k].amount == chipsList[k].amount - amount
    ensures contributors == Ids(chipsList[i..])
  {
    rest := chipsList[i := chipsList[i].(amount := chipsList[i].amount - amount)];
    contributors := {chipsList[i].id};
    assert chipsList[i..i + 1] == [chipsList[i]];
    for j := i + 1 to |rest|
      invariant |rest| == |chipsList|
      invariant forall k :: 0 <= k < |rest| ==> rest[k].id == chipsList[k].id
      invariant forall k :: 0 <= k < i ==> rest[k] == chipsList[k]
      invariant forall k :: i <= k < j ==> rest[k].amount == chipsList[k].amount - amount
      invariant forall k :: j <= k < |rest| ==> rest[k] == chipsList[k]
      invariant contributors == Ids(chipsList[i..j])
    {
      assert chipsList[i..j + 1] == chipsList[i..j] + [chipsList[j]];
      SnocIds(chipsList[i..j], chipsList[j]);
      rest := rest[j := rest[j].(amount := rest[j].amount - amount)];
      contributors := contributors + {rest[j].id};
    }
    assert chipsList[i..|rest|] == chipsList[i..];
  }

  /**
   * One turn of the settlement loop keeps its invariant: entry `i` closes
   * the layer of `amount` chips from each entry from `i` on, or none when
   * `amount` is zero.
   */
  lemma {:induction false} PeelAdvance(sorted: seq<Chips>, i: int, potList: seq<Pot>, amount: int)
    requires 0 <= i < |sorted|
    requires amount == sorted[i].amount - BaseAt(sorted, i)
    requires potList + Layers(sorted[i..], BaseAt(sorted, i)) == Layers(sorted, 0)
    ensures amount == 0 ==> potList + Layers(sorted[i + 1..], BaseAt(sorted, i + 1)) == Layers(sorted, 0)
    ensures amount != 0 ==>
      (potList + [Pot(Ids(sorted[i..]), amount * |Ids(sorted[i..])|)]) + Layers(sorted[i + 1..], BaseAt(sorted, i + 1))
      == Layers(sorted, 0)
  {
    var s := sorted[i..];
    assert s[0] == sorted[i] && s[1..] == sorted[i + 1..];
    var tail := Layers(sorted[i + 1..], BaseAt(sorted, i + 1));
    assert BaseAt(sorted, i + 1) == s[0].amount;
    var layer := if amount == 0 then [] else [Pot(Ids(s), amount * |Ids(s)|)];
    assert Layers(s, BaseAt(sorted, i)) == layer + tail;
    assert (potList + layer) + tail == potList + (layer + tail);
  }

  /** Lists with the same ids position by position have the same ids from any position on. */
  lemma SameIdsFrom(a: seq<Chips>, b: seq<Chips>, i: int)
    requires |a| == |b| && 0 <= i <= |a|
    requires forall k :: 0 <= k < |a| ==> a[k].id == b[k].id
    ensures Ids(a[i..]) == Ids(b[i..])
  {
    SameIds(a[i..], b[i..]);
  }

  /** The settlement loop over a list sorted by amount. */
  method PeelLayers(sorted: seq<Chips>) returns (potList: seq<Pot>)
    ensures potList == Layers(sorted, 0)
  {
    var chipsList := sorted;
    potList := [];
    for i := 0 to |chipsList|
      invariant |chipsList| == |sorted|
      invariant forall j :: 0 <= j < |chipsList| ==> chipsList[j].id == sorted[j].id
      invariant forall j :: i <= j < |chipsList| ==> chipsList[j].amount == sorted[j].amount - BaseAt(sorted, i)
      invariant potList + Layers(sorted[i..], BaseAt(sorted, i)) == Layers(sorted, 0)
    {
      var tmp := chipsList[i];
      var amount := tmp.amount;
      PeelAdvance(sorted, i, potList, amount);
      if amount == 0 {
        continue;
      }
      ghost var before := chipsList;
      var contributors;
      chipsList, contributors := TakeLayer(chipsList, i, amount);
      SameIdsFrom(before, sorted, i);
      var pot := Pot(contributors, amount * |contributors|);
      potList := potList + [pot];
    }
  }

  // ---------------------------------------------------------------------
  // The ledger
  // ---------------------------------------------------------------------

  class Ledger {
    var contributions: map<string, int>

    constructor ()
      ensures contributions == map[]
    {
      contributions := map[];
    }

    /** What `id` has put in; a player who never contributed has put in 0. */
    function ChipsBy(id: string): (n: int)
      reads this
      ensures id in contributions ==> n == contributions[id]
      ensures id !in contributions ==> n == 0
    {
      if id in contributions then contributions[id] else 0
    }

    /** Adds `amount` to what `id` has put in, and to the total. */
    method AddChips(id: string, amount: int)
      modifies this
      ensures ChipsBy(id) == old(ChipsBy(id)) + amount
      ensures forall other :: other != id ==> ChipsBy(other) == old(ChipsBy(other))
      ensures contributions.Keys == old(contributions.Keys) + {id}
      ensures MapSum(contributions) == old(MapSum(contributions)) + amount
    {
      AddChipsSum(contributions, id, amount);
      contributions := contributions[id := ChipsBy(id) + amount];
    }

    /** Adds the contributions up, visiting the players in an arbitrary order. */
    method Sum() returns (sum: int)
      ensures sum == MapSum(contributions)
    {
      sum := 0;
      var keys := contributions.Keys;
      while keys != {}
        invariant keys <= contributions.Keys
        invariant sum + SumOver(contributions, keys) == MapSum(contributions)
        decreases keys
      {
        Sets.NonEmptyHasString(keys);
        var id :| id in keys;
        SumOverRemove(contributions, keys, id);
        sum := sum + contributions[id];
        keys := keys - {id};
      }
    }

    /**
     * Lists the contributions in an arbitrary order, sorts them by amount and
     * peels off the layers.  The pots hold every chip; with non-negative
     * contributions they are the ledger's canonical pots, so the order the
     * players are visited in does not matter.
     */
    method Settle() returns (potList: seq<Pot>)
      ensures exists s :: SortedEntries(s, contributions) && potList == Layers(s, 0)
      ensures Total(potList) == MapSum(contributions)
      ensures (forall k :: k in contributions ==> contributions[k] >= 0) ==> potList == Canonical(contributions, 0)
      ensures contributions == map[] ==> potList == []
    {
      var m := contributions;
      var chipsList := ListContributions(m);
      if |chipsList| == 0 {
        assert SortedEntries([], m);
        LayersTotal([], 0);
        return [];
      }
      var sorted := SortByAmount(chipsList);
      SortSorted(chipsList);
      SortIds(chipsList);
      SortSum(chipsList);
      SortEntries(chipsList, m);
      SortDistinct(chipsList);
      assert SortedEntries(sorted, m);
      potList := PeelLayers(sorted);
      LayersTotal(sorted, 0);
      if forall k :: k in m ==> m[k] >= 0 {
        LayersCanonical(sorted, m, 0);
      }
    }
  }
}
