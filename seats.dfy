/**
 * Seat arithmetic.  A round's seats are a sequence with holes (empty
 * seats); positions are found by walking the seats circularly from the
 * button.  The functions here read only each seat's occupant id and status,
 * so they take that view of the seats.
 */
module Seats {
  import opened Wrappers
  import opened Actions

  const MinPlayerCount := 2
  const MaxPlayerCount := 10

  /** A seat as the seat functions see it: empty, or a player's id and status. */
  datatype Seat = Empty | Taken(id: string, status: PlayerStatus)

  datatype SeatError = InvalidPlayerCount(count: int) | InvalidButton(button: int)

  predicate IsTaken(s: Seat) {
    s.Taken?
  }

  /** Seated and not folded. */
  predicate IsEffective(s: Seat) {
    s.Taken? && s.status != Folded
  }

  // ---------------------------------------------------------------------
  // Counting and filtering
  // ---------------------------------------------------------------------

  /** How many seats satisfy `f`. */
  function CountOf(v: seq<Seat>, f: Seat -> bool): (n: nat)
    ensures n <= |v|
  {
    if v == [] then 0 else CountOf(v[..|v| - 1], f) + (if f(v[|v| - 1]) then 1 else 0)
  }

  /** The seats that satisfy `f`, in seat order. */
  function Filter(v: seq<Seat>, f: Seat -> bool): seq<Seat> {
    if v == [] then [] else Filter(v[..|v| - 1], f) + (if f(v[|v| - 1]) then [v[|v| - 1]] else [])
  }

  lemma {:induction false} CountConcat(a: seq<Seat>, b: seq<Seat>, f: Seat -> bool)
    ensures CountOf(a + b, f) == CountOf(a, f) + CountOf(b, f)
    decreases |b|
  {
    if b == [] {
      assert a + b == a;
    } else {
      var c := b[..|b| - 1];
      assert (a + b)[..|a + b| - 1] == a + c;
      CountConcat(a, c, f);
    }
  }

  /**
   * Filtering keeps exactly the seats that satisfy `f`, as many as counted,
   * in seat order: filtering a concatenation filters each part.
   */
  lemma {:induction false} FilterFacts(v: seq<Seat>, f: Seat -> bool)
    ensures |Filter(v, f)| == CountOf(v, f)
    ensures forall s :: s in Filter(v, f) <==> s in v && f(s)
    decreases |v|
  {
    if v != [] {
      var init := v[..|v| - 1];
      FilterFacts(init, f);
      assert v == init + [v[|v| - 1]];
    }
  }

  lemma {:induction false} FilterConcat(a: seq<Seat>, b: seq<Seat>, f: Seat -> bool)
    ensures Filter(a + b, f) == Filter(a, f) + Filter(b, f)
    decreases |b|
  {
    if b == [] {
      assert a + b == a;
    } else {
      var c := b[..|b| - 1];
      assert (a + b)[..|a + b| - 1] == a + c;
      FilterConcat(a, c, f);
    }
  }

  // ---------------------------------------------------------------------
  // Circular positions
  // ---------------------------------------------------------------------

  /** The seat `k` steps after seat `b`, around `n` seats. */
  function Step(b: int, k: int, n: int): (r: int)
    requires 0 <= b < n && 0 <= k <= n
    ensures 0 <= r < n
  {
    if b + k < n then b + k else b + k - n
  }

  /** How many steps forward, around `n` seats, it takes to get from seat `a` to seat `c`. */
  function Dist(a: int, c: int, n: int): (d: int)
    requires 0 <= a < n && 0 <= c < n
    ensures 0 <= d < n
    ensures d == 0 <==> a == c
  {
    if c >= a then c - a else c - a + n
  }

  /** The source's `(b + k) % n` is the seat `k` steps after `b`. */
  lemma StepIsMod(b: int, k: int, n: int)
    requires 0 <= b < n && 0 <= k <= n
    ensures (b + k) % n == Step(b, k, n)
  {
  }

  /** Walking `k` steps from `b` leaves `k` steps between them (a full turn leaves none). */
  lemma DistStep(b: int, k: int, n: int)
    requires 0 <= b < n && 0 <= k < n
    ensures Dist(b, Step(b, k, n), n) == k
  {
  }

  /** The seat `k` steps after `b`. */
  function Around(v: seq<Seat>, b: int, k: int): Seat
    requires 0 <= b < |v| && 0 <= k <= |v|
  {
    v[Step(b, k, |v|)]
  }

  /** No seat strictly between `a` and `c`, walking forward from `a`, is taken. */
  predicate NoneTakenBetween(v: seq<Seat>, a: int, c: int)
    requires 0 <= a < |v| && 0 <= c < |v|
  {
    forall x :: 0 <= x < |v| && 0 < Dist(a, x, |v|) < Dist(a, c, |v|) ==> !v[x].Taken?
  }

  /** `c` is the first taken seat after `a`, walking forward (`a` itself excluded). */
  predicate IsNextTaken(v: seq<Seat>, a: int, c: int) {
    0 <= a < |v| && 0 <= c < |v| && c != a && v[c].Taken? && NoneTakenBetween(v, a, c)
  }

  /** There is only one first taken seat after `a`. */
  lemma NextTakenUnique(v: seq<Seat>, a: int, c: int, d: int)
    requires IsNextTaken(v, a, c) && IsNextTaken(v, a, d)
    ensures c == d
  {
    var n := |v|;
    assert Dist(a, c, n) >= Dist(a, d, n);
    assert Dist(a, d, n) >= Dist(a, c, n);
  }

  /** How many of the seats 1..k steps after `b` are taken. */
  function TakenAmong(v: seq<Seat>, b: int, k: int): nat
    requires 0 <= b < |v| && 0 <= k <= |v|
  {
    if k == 0 then 0 else TakenAmong(v, b, k - 1) + (if Around(v, b, k).Taken? then 1 else 0)
  }

  /** The seats in the order a walk from `b` visits them: b + 1 up to the end, then around to b. */
  function Rotated(v: seq<Seat>, b: int): (r: seq<Seat>)
    requires 0 <= b < |v|
    ensures |r| == |v|
    ensures forall k :: 1 <= k <= |v| ==> r[k - 1] == Around(v, b, k)
  {
    v[b + 1..] + v[..b + 1]
  }

  lemma {:induction false} TakenAmongRotated(v: seq<Seat>, b: int, k: int)
    requires 0 <= b < |v| && 0 <= k <= |v|
    ensures TakenAmong(v, b, k) == CountOf(Rotated(v, b)[..k], IsTaken)
  {
    if k > 0 {
      var r := Rotated(v, b);
      TakenAmongRotated(v, b, k - 1);
      assert r[..k][..k - 1] == r[..k - 1];
      assert r[..k][k - 1] == Around(v, b, k);
    }
  }

  /** A full turn from the button visits every seat once, so it meets every taken seat. */
  lemma FullTurn(v: seq<Seat>, b: int)
    requires 0 <= b < |v|
    ensures TakenAmong(v, b, |v|) == CountOf(v, IsTaken)
  {
    TakenAmongRotated(v, b, |v|);
    var r := Rotated(v, b);
    assert r[..|v|] == r;
    CountConcat(v[b + 1..], v[..b + 1], IsTaken);
    CountConcat(v[..b + 1], v[b + 1..], IsTaken);
    assert v[..b + 1] + v[b + 1..] == v;
  }

  // ---------------------------------------------------------------------
  // Counters and lists
  // ---------------------------------------------------------------------

  /** The number of taken seats. */
  method RealPlayerCount(v: seq<Seat>) returns (count: int)
    ensures count == CountOf(v, IsTaken)
  {
    count := 0;
    for i := 0 to |v|
      invariant count == CountOf(v[..i], IsTaken)
    {
      assert v[..i + 1][..i] == v[..i];
      if v[i].Taken? {
        count := count + 1;
      }
    }
    assert v[..|v|] == v;
  }

  /** The taken seats, in seat order. */
  method RealPlayers(v: seq<Seat>) returns (ps: seq<Seat>)
    ensures ps == Filter(v, IsTaken)
  {
    ps := [];
    for i := 0 to |v|
      invariant ps == Filter(v[..i], IsTaken)
    {
      assert v[..i + 1][..i] == v[..i];
      if v[i].Taken? {
        ps := ps + [v[i]];
      }
    }
    assert v[..|v|] == v;
  }

  /** As written: a seat counts when it is taken and its player is not all in. */
  predicate CountedAsWritten(s: Seat) {
    s.Taken? && (s.status == WaitingToAct || s.status == TakingAction || s.status != AllIn)
  }

  /** The as-written count of effective players. */
  method AsWrittenEffectivePlayerCount(v: seq<Seat>) returns (count: int)
    ensures count == CountOf(v, CountedAsWritten)
  {
    count := 0;
    for i := 0 to |v|
      invariant count == CountOf(v[..i], CountedAsWritten)
    {
      assert v[..i + 1][..i] == v[..i];
      if v[i].Taken? && (v[i].status == WaitingToAct || v[i].status == TakingAction || v[i].status != AllIn) {
        count := count + 1;
      }
    }
    assert v[..|v|] == v;
  }

  /**
   * The as-written test reduces to "not all in": a folded player is
   * counted, so the count disagrees with the effective players listed.
   */
  lemma AsWrittenCountsFolded(a: string, b: string)
    ensures forall s :: CountedAsWritten(s) <==> s.Taken? && s.status != AllIn
    ensures CountOf([Taken(a, Waiting), Taken(b, Folded)], CountedAsWritten) == 2
    ensures |Filter([Taken(a, Waiting), Taken(b, Folded)], IsEffective)| == 1
  {
    var v := [Taken(a, Waiting), Taken(b, Folded)];
    assert v[..1] == [Taken(a, Waiting)];
    assert v[..1][..0] == [];
    FilterFacts(v, IsEffective);
  }

  /** The number of seated players who have not folded. */
  method EffectivePlayerCount(v: seq<Seat>) returns (count: int)
    ensures count == CountOf(v, IsEffective)
    ensures count == |Filter(v, IsEffective)|
  {
    FilterFacts(v, IsEffective);
    count := 0;
    for i := 0 to |v|
      invariant count == CountOf(v[..i], IsEffective)
    {
      assert v[..i + 1][..i] == v[..i];
      if v[i].Taken? && v[i].status != Folded {
        count := count + 1;
      }
    }
    assert v[..|v|] == v;
  }

  /** The seated players who have not folded, in seat order. */
  method EffectivePlayers(v: seq<Seat>) returns (ps: seq<Seat>)
    ensures ps == Filter(v, IsEffective)
  {
    ps := [];
    for i := 0 to |v|
      invariant ps == Filter(v[..i], IsEffective)
    {
      assert v[..i + 1][..i] == v[..i];
      if v[i].Taken? && v[i].status != Folded {
        ps := ps + [v[i]];
      }
    }
    assert v[..|v|] == v;
  }

  /** The first taken seat whose player has id `id`, if any. */
  method FindPlayerByID(v: seq<Seat>, id: string) returns (r: Option<int>)
    ensures r.Some? ==> 0 <= r.value < |v| && v[r.value].Taken? && v[r.value].id == id
    ensures r.Some? ==> forall j :: 0 <= j < r.value ==> !(v[j].Taken? && v[j].id == id)
    ensures r.None? <==> forall j :: 0 <= j < |v| ==> !(v[j].Taken? && v[j].id == id)
  {
    for i := 0 to |v|
      invariant forall j :: 0 <= j < i ==> !(v[j].Taken? && v[j].id == id)
    {
      if v[i].Taken? && v[i].id == id {
        return Some(i);
      }
    }
    return None;
  }

  // ---------------------------------------------------------------------
  // Positions
  // ---------------------------------------------------------------------

  /** Counting over more steps never counts fewer taken seats. */
  lemma {:induction false} TakenAmongMono(v: seq<Seat>, b: int, k: int, m: int)
    requires 0 <= b < |v| && 0 <= k <= m <= |v|
    ensures TakenAmong(v, b, k) <= TakenAmong(v, b, m)
    decreases m - k
  {
    if k < m {
      TakenAmongMono(v, b, k, m - 1);
    }
  }

  /** One more step from where `k` steps led: the source's `(x + 1) % n`. */
  lemma StepSucc(b: int, k: int, n: int)
    requires 0 <= b < n && 0 <= k < n
    ensures (Step(b, k, n) + 1) % n == Step(b, k + 1, n)
  {
  }

  /**
   * When no seat `lo + 1` .. `hi - 1` steps from `b` is taken, no seat is
   * taken strictly between the seats `lo` and `hi` steps from `b`.
   */
  lemma OffsetsBetween(v: seq<Seat>, b: int, lo: int, hi: int)
    requires 0 <= b < |v| && 0 <= lo < hi < |v|
    requires forall j :: lo < j < hi ==> !Around(v, b, j).Taken?
    ensures NoneTakenBetween(v, Step(b, lo, |v|), Step(b, hi, |v|))
    ensures Dist(b, Step(b, hi, |v|), |v|) == hi
  {
    var n := |v|;
    var s, e := Step(b, lo, n), Step(b, hi, n);
    assert Dist(s, e, n) == hi - lo;
    forall x | 0 <= x < n && 0 < Dist(s, x, n) < Dist(s, e, n)
      ensures !v[x].Taken?
    {
      var j := lo + Dist(s, x, n);
      assert Step(b, j, n) == x;
      assert Around(v, b, j) == v[x];
    }
  }

  /** Every taken seat is met again after a full turn, so with at least two the first after `b` is within the turn. */
  lemma SecondTaken(v: seq<Seat>, b: int) returns (k: int)
    requires 0 <= b < |v| && v[b].Taken? && CountOf(v, IsTaken) >= 2
    ensures 0 < k < |v| && Around(v, b, k).Taken?
    ensures forall j :: 1 <= j < k ==> !Around(v, b, j).Taken?
    ensures TakenAmong(v, b, k) == 1
  {
    var n := |v|;
    FullTurn(v, b);
    assert Around(v, b, n) == v[b];
    assert TakenAmong(v, b, n - 1) >= 1;
    k := 1;
    while !Around(v, b, k).Taken?
      invariant 1 <= k < n
      invariant TakenAmong(v, b, k - 1) == 0
      invariant forall j :: 1 <= j < k ==> !Around(v, b, j).Taken?
      decreases n - k
    {
      assert TakenAmong(v, b, k) == 0;
      k := k + 1;
    }
  }

  /** With at least three taken seats, another comes after the first one and before the turn back to `b`. */
  lemma ThirdTaken(v: seq<Seat>, b: int, k1: int) returns (k2: int)
    requires 0 <= b < |v| && v[b].Taken? && CountOf(v, IsTaken) >= 3
    requires 0 < k1 < |v| && Around(v, b, k1).Taken? && TakenAmong(v, b, k1) == 1
    ensures k1 < k2 < |v| && Around(v, b, k2).Taken?
    ensures forall j :: k1 < j < k2 ==> !Around(v, b, j).Taken?
    ensures TakenAmong(v, b, k2) == 2
  {
    var n := |v|;
    FullTurn(v, b);
    assert Around(v, b, n) == v[b];
    assert TakenAmong(v, b, n - 1) >= 2;
    k2 := k1 + 1;
    assert k2 < n;
    while !Around(v, b, k2).Taken?
      invariant k1 < k2 < n
      invariant TakenAmong(v, b, k2 - 1) == 1
      invariant forall j :: k1 < j < k2 ==> !Around(v, b, j).Taken?
      decreases n - k2
    {
      assert TakenAmong(v, b, k2) == 1;
      k2 := k2 + 1;
    }
  }

  /** The error the blind, first-to-act and under-the-gun lookups report, in the order they check. */
  function PositionError(v: seq<Seat>, button: int): (e: Option<SeatError>)
    ensures e.None? <==> MinPlayerCount <= CountOf(v, IsTaken) <= MaxPlayerCount && 0 <= button < |v| && v[button].Taken?
  {
    var count := CountOf(v, IsTaken);
    if MaxPlayerCount < count || count < MinPlayerCount then Some(InvalidPlayerCount(count))
    else if button < 0 || |v| <= button || !v[button].Taken? then Some(InvalidButton(button))
    else None
  }

  /** `small` and `big` are where the blinds sit, heads-up or with more players. */
  predicate BlindSeats(v: seq<Seat>, button: int, small: int, big: int) {
    0 <= button < |v| &&
    (CountOf(v, IsTaken) == 2 ==> small == button && IsNextTaken(v, button, big)) &&
    (CountOf(v, IsTaken) > 2 ==> IsNextTaken(v, button, small) && IsNextTaken(v, small, big) && big != button)
  }

  /** The blind seats are determined by the seats and the button. */
  lemma BlindSeatsUnique(v: seq<Seat>, button: int, s1: int, b1: int, s2: int, b2: int)
    requires CountOf(v, IsTaken) >= 2
    requires BlindSeats(v, button, s1, b1) && BlindSeats(v, button, s2, b2)
    ensures s1 == s2 && b1 == b2
  {
    if CountOf(v, IsTaken) == 2 {
      NextTakenUnique(v, button, b1, b2);
    } else {
      NextTakenUnique(v, button, s1, s2);
      NextTakenUnique(v, s1, b1, b2);
    }
  }

  /**
   * The blind seats.  Too few or too many players is reported first, then a
   * button that is off the table or on an empty seat.  Heads-up the button
   * posts the small blind and the other player the big one; otherwise the
   * small blind is the first taken seat after the button and the big blind
   * the first taken seat after the small one.
   */
  method PositionBlind(v: seq<Seat>, button: int) returns (small: int, big: int, err: Option<SeatError>)
    ensures CountOf(v, IsTaken) > MaxPlayerCount || CountOf(v, IsTaken) < MinPlayerCount ==>
      small == -1 && big == -1 && err == Some(InvalidPlayerCount(CountOf(v, IsTaken)))
    ensures MinPlayerCount <= CountOf(v, IsTaken) <= MaxPlayerCount && !(0 <= button < |v| && v[button].Taken?) ==>
      small == -1 && big == -1 && err == Some(InvalidButton(button))
    ensures MinPlayerCount <= CountOf(v, IsTaken) <= MaxPlayerCount && 0 <= button < |v| && v[button].Taken? ==> err == None
    ensures err == None && CountOf(v, IsTaken) == 2 ==> small == button && IsNextTaken(v, button, big)
    ensures err == None && CountOf(v, IsTaken) > 2 ==>
      IsNextTaken(v, button, small) && IsNextTaken(v, small, big) && big != button
    ensures err == PositionError(v, button)
    ensures err == None ==> BlindSeats(v, button, small, big)
  {
    var count := RealPlayerCount(v);
    var n := |v|;
    if MaxPlayerCount < count || count < MinPlayerCount {
      return -1, -1, Some(InvalidPlayerCount(count));
    }
    if button < 0 || n <= button || !v[button].Taken? {
      return -1, -1, Some(InvalidButton(button));
    }
    ghost var k1 := SecondTaken(v, button);
    if count == 2 {
      small := button;
      big := HeadsUpBig(v, button, k1);
      return small, big, None;
    }
    ghost var k2 := ThirdTaken(v, button, k1);
    small, big := BlindsFromButton(v, button, k1, k2);
    err := None;
  }

  /**
   * Heads-up, the seat the source's loop lands on starting one after the
   * button: the next taken seat, `k` steps from the button.
   */
  method HeadsUpBig(v: seq<Seat>, button: int, ghost k: int) returns (big: int)
    requires 0 <= button < |v| && 0 < k < |v| && Around(v, button, k).Taken?
    requires forall j :: 1 <= j < k ==> !Around(v, button, j).Taken?
    ensures IsNextTaken(v, button, big)
  {
    var n := |v|;
    StepSucc(button, 0, n);
    big := (button + 1) % n;
    ghost var kb := 1;
    while !v[big].Taken?
      invariant 1 <= kb <= k && big == Step(button, kb, n)
      invariant forall j :: 1 <= j < kb ==> !Around(v, button, j).Taken?
      decreases k - kb
    {
      assert kb < k;
      StepSucc(button, kb, n);
      big := (big + 1) % n;
      kb := kb + 1;
    }
    OffsetsBetween(v, button, 0, kb);
  }

  /**
   * The walk for three or more players: `small` moves on while its seat is
   * empty (with `big` one seat after it), then `big` moves on until its
   * seat is taken.  `k1` and `k2` are the steps from the button to the
   * first two taken seats after it; the walk ends after `k2 - 2` moves,
   * within the source's bound of one move per seat.
   */
  method BlindsFromButton(v: seq<Seat>, button: int, ghost k1: int, ghost k2: int) returns (small: int, big: int)
    requires 0 <= button < |v| && 0 < k1 < k2 < |v|
    requires Around(v, button, k1).Taken? && Around(v, button, k2).Taken?
    requires forall j :: 1 <= j < k1 ==> !Around(v, button, j).Taken?
    requires forall j :: k1 < j < k2 ==> !Around(v, button, j).Taken?
    ensures IsNextTaken(v, button, small) && IsNextTaken(v, small, big) && big != button
  {
    var n := |v|;
    StepSucc(button, 0, n);
    small := (button + 1) % n;
    StepSucc(button, 1, n);
    big := (small + 1) % n;
    ghost var ks, kb := 1, 2;
    var t := 0;
    while t < n
      invariant 1 <= ks <= k1 && small == Step(button, ks, n)
      invariant ks < kb <= k2 && big == Step(button, kb, n)
      invariant forall j :: 1 <= j < ks ==> !Around(v, button, j).Taken?
      invariant Around(v, button, ks).Taken? ==> ks == k1
      invariant !Around(v, button, ks).Taken? ==> kb == ks + 1
      invariant forall j :: ks < j < kb ==> !Around(v, button, j).Taken?
      invariant t == kb - 2
      decreases n - t
    {
      if !v[small].Taken? {
        assert ks < k1;
        StepSucc(button, ks, n);
        small := (small + 1) % n;
        StepSucc(button, ks + 1, n);
        big := (small + 1) % n;
        ks, kb := ks + 1, ks + 2;
        t := t + 1;
        continue;
      }
      if v[big].Taken? {
        break;
      }
      assert kb < k2;
      StepSucc(button, kb, n);
      big := (big + 1) % n;
      kb := kb + 1;
      t := t + 1;
    }
    OffsetsBetween(v, button, 0, ks);
    OffsetsBetween(v, button, ks, kb);
  }

  /**
   * The offset, counted from the seat after the button, of the first taken
   * seat after the button, after the same checks as the blinds.
   */
  method PositionFirstToAct(v: seq<Seat>, button: int) returns (i: int, err: Option<SeatError>)
    ensures CountOf(v, IsTaken) > MaxPlayerCount || CountOf(v, IsTaken) < MinPlayerCount ==>
      i == -1 && err == Some(InvalidPlayerCount(CountOf(v, IsTaken)))
    ensures MinPlayerCount <= CountOf(v, IsTaken) <= MaxPlayerCount && !(0 <= button < |v| && v[button].Taken?) ==>
      i == -1 && err == Some(InvalidButton(button))
    ensures MinPlayerCount <= CountOf(v, IsTaken) <= MaxPlayerCount && 0 <= button < |v| && v[button].Taken? ==>
      err == None && 0 <= i < |v| - 1 && IsNextTaken(v, button, (button + i + 1) % |v|)
  {
    var count := RealPlayerCount(v);
    var n := |v|;
    if MaxPlayerCount < count || count < MinPlayerCount {
      return -1, Some(InvalidPlayerCount(count));
    }
    if button < 0 || n <= button || !v[button].Taken? {
      return -1, Some(InvalidButton(button));
    }
    ghost var k1 := SecondTaken(v, button);
    for j := 0 to n
      invariant j < k1
      invariant forall m :: 1 <= m <= j ==> !Around(v, button, m).Taken?
    {
      StepIsMod(button, j + 1, n);
      if v[(button + j + 1) % n].Taken? {
        OffsetsBetween(v, button, 0, j + 1);
        return j, None;
      }
    }
    return -1, Some(InvalidPlayerCount(count));
  }

  /**
   * Under the gun: the offset, counted from the seat after the button, of
   * the third taken seat after the button (the button itself when it comes
   * round third), or the button's own index when the walk meets fewer than
   * three taken seats.
   */
  method PositionUTG(v: seq<Seat>, button: int) returns (i: int, err: Option<SeatError>)
    ensures CountOf(v, IsTaken) > MaxPlayerCount || CountOf(v, IsTaken) < MinPlayerCount ==>
      i == -1 && err == Some(InvalidPlayerCount(CountOf(v, IsTaken)))
    ensures MinPlayerCount <= CountOf(v, IsTaken) <= MaxPlayerCount && !(0 <= button < |v| && v[button].Taken?) ==>
      i == -1 && err == Some(InvalidButton(button))
    ensures MinPlayerCount <= CountOf(v, IsTaken) <= MaxPlayerCount && 0 <= button < |v| && v[button].Taken? ==> err == None
    ensures err == None && CountOf(v, IsTaken) >= 3 ==>
      0 <= i < |v| && Around(v, button, i + 1).Taken? && TakenAmong(v, button, i + 1) == 3
    ensures err == None && CountOf(v, IsTaken) == 2 ==> i == button
  {
    var count := RealPlayerCount(v);
    var n := |v|;
    if MaxPlayerCount < count || count < MinPlayerCount {
      return -1, Some(InvalidPlayerCount(count));
    }
    if button < 0 || n <= button || !v[button].Taken? {
      return -1, Some(InvalidButton(button));
    }
    FullTurn(v, button);
    var counter := 0;
    for j := 0 to n
      invariant counter == TakenAmong(v, button, j) && counter <= 2
    {
      StepIsMod(button, j + 1, n);
      var p := v[(button + j + 1) % n];
      if !p.Taken? {
        continue;
      }
      counter := counter + 1;
      if counter > 2 {
        TakenAmongMono(v, button, j + 1, n);
        return j, None;
      }
    }
    return button, None;
  }
}
