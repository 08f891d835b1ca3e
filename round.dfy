/**
 * One hand of Texas Hold'em at a table of seats.  A round owns the seats
 * (a player or nothing in each), a dealer, the button, the minimum bet, the
 * community cards and the stage it is in.  Players are added and removed
 * before it starts; `Start` checks the seats, shuffles, posts the blinds,
 * deals the hole cards and the flop, turn and river, and stops at the
 * showdown.  The seat arithmetic it relies on lives in `Seats`.
 */
module Rounds {
  import opened Wrappers
  import opened Cards
  import opened Actions
  import RoundStatus
  import opened Players
  import opened Decks
  import opened Dealers
  import opened Seats

  const DefaultMinBet := 2
  const DefaultButton := 0

  datatype RoundError =
    | RoundStarted
    | PlayerExists
    | PlayerNotFound
    | EmptyButton
    | PlayerCount(count: int)
    | Blinds(seatError: SeatError)
    | SmallBlind(playerError: PlayerError)
    | BigBlind(playerError: PlayerError)

  // ---------------------------------------------------------------------
  // The seats as values
  // ---------------------------------------------------------------------

  /** What the seat functions see of a seat. */
  function SeatOf(p: Player?): Seat
    reads p
  {
    if p == null then Empty else Taken(p.id, p.status)
  }

  function View(ps: seq<Player?>): (v: seq<Seat>)
    reads ps
    ensures |v| == |ps|
    ensures forall j :: 0 <= j < |ps| ==> v[j] == SeatOf(ps[j])
  {
    seq(|ps|, j reads ps requires 0 <= j < |ps| => SeatOf(ps[j]))
  }

  /** No two seated players share an id (so no player object sits twice). */
  predicate DistinctPlayers(ps: seq<Player?>) {
    forall i, j :: 0 <= i < j < |ps| && ps[i] != null && ps[j] != null ==> ps[i].id != ps[j].id
  }

  /** A seat whose player is Ready: the players who get hole cards. */
  predicate IsReady(s: Seat) {
    s.Taken? && s.status == PlayerStatus.Ready
  }

  /** How many of the seats 1..k steps after `b` hold a Ready player. */
  function ReadyAmong(v: seq<Seat>, b: int, k: int): nat
    requires 0 <= b < |v| && 0 <= k <= |v|
  {
    if k == 0 then 0 else ReadyAmong(v, b, k - 1) + (if IsReady(Around(v, b, k)) then 1 else 0)
  }

  lemma {:induction false} ReadyAmongTaken(v: seq<Seat>, b: int, k: int)
    requires 0 <= b < |v| && 0 <= k <= |v|
    ensures ReadyAmong(v, b, k) <= TakenAmong(v, b, k)
  {
    if k > 0 {
      ReadyAmongTaken(v, b, k - 1);
    }
  }

  /**
   * Counting Ready players from the seat after the button, the k-th one is
   * numbered below the number of occupied seats, so it always has a pair of
   * hole cards among the ones dealt for the occupied seats.
   */
  lemma ReadyIndexInRange(v: seq<Seat>, b: int, k: int)
    requires 0 <= b < |v| && 1 <= k <= |v| && IsReady(Around(v, b, k))
    ensures 0 <= ReadyAmong(v, b, k) - 1 < CountOf(v, IsTaken)
  {
    ReadyAmongTaken(v, b, k);
    TakenAmongMono(v, b, k, |v|);
    FullTurn(v, b);
  }

  /** The pair of hole cards for the Ready player `k` steps after `b`: the one numbered by the Ready players met so far. */
  function PairFor(v: seq<Seat>, b: int, k: int, hole: seq<(Card, Card)>): (Card, Card)
    requires 0 <= b < |v| && 1 <= k <= |v| && IsReady(Around(v, b, k)) && |hole| == CountOf(v, IsTaken)
  {
    ReadyIndexInRange(v, b, k);
    hole[ReadyAmong(v, b, k) - 1]
  }

  /**
   * As written, the pass that hands out hole cards indexes them by the
   * seat's offset `i` from the button, while only one pair per occupied
   * seat was dealt.  This holds when every Ready seat's offset is in range.
   */
  predicate AsWrittenHoleIndicesInRange(v: seq<Seat>, button: int, dealt: int)
    requires 0 <= button < |v|
  {
    forall k :: 1 <= k <= |v| && IsReady(Around(v, button, k)) ==> k - 1 < dealt
  }

  /** Two Ready players with an empty seat between them: the second one's offset is past the two pairs dealt. */
  lemma AsWrittenHoleIndexOverflows(a: string, b: string)
    ensures CountOf([Taken(a, PlayerStatus.Ready), Empty, Taken(b, PlayerStatus.Ready)], IsTaken) == 2
    ensures !AsWrittenHoleIndicesInRange([Taken(a, PlayerStatus.Ready), Empty, Taken(b, PlayerStatus.Ready)], 0, 2)
  {
    var v := [Taken(a, PlayerStatus.Ready), Empty, Taken(b, PlayerStatus.Ready)];
    assert v[..1][..0] == [];
    assert CountOf(v[..1], IsTaken) == 1;
    assert v[..2][..1] == v[..1];
    assert CountOf(v[..2], IsTaken) == 1;
    assert v[..|v| - 1] == v[..2];
    assert Around(v, 0, 3) == v[0];
  }

  /** The checks `Start` makes before it deals: a player on the button, and between two and ten players who have not folded. */
  predicate CanDeal(v: seq<Seat>, button: int)
    requires 0 <= button < |v|
  {
    v[button].Taken? && MinPlayerCount <= CountOf(v, IsEffective) <= MaxPlayerCount
  }

  // ---------------------------------------------------------------------
  // Looking a player up by id
  // ---------------------------------------------------------------------

  datatype ScanResult = Found | Missing | HitsNil

  /**
   * Walking the seats in order comparing ids: a match, the end of the seats
   * with no match, or an empty seat first (whose id the source would
   * dereference, which panics).
   */
  function Scan(ps: seq<Player?>, id: string): ScanResult {
    if ps == [] then Missing
    else if ps[0] == null then HitsNil
    else if ps[0].id == id then Found
    else Scan(ps[1..], id)
  }

  /** The walk finds `id` exactly when a seat before every empty seat holds it, and runs off the end exactly when no seat is empty or holds it. */
  lemma {:induction false} ScanFacts(ps: seq<Player?>, id: string)
    ensures Scan(ps, id) == Found <==>
      exists i :: 0 <= i < |ps| && ps[i] != null && ps[i].id == id && forall j :: 0 <= j < i ==> ps[j] != null
    ensures Scan(ps, id) == Missing <==> forall i :: 0 <= i < |ps| ==> ps[i] != null && ps[i].id != id
  {
    if ps != [] {
      ScanFacts(ps[1..], id);
      if Scan(ps, id) == Found && ps[0].id != id {
        var i :| 0 <= i < |ps[1..]| && ps[1..][i] != null && ps[1..][i].id == id && forall j :: 0 <= j < i ==> ps[1..][j] != null;
        assert forall j :: 0 <= j < i + 1 ==> ps[j] != null;
      }
      if exists i :: 0 <= i < |ps| && ps[i] != null && ps[i].id == id && forall j :: 0 <= j < i ==> ps[j] != null {
        var i :| 0 <= i < |ps| && ps[i] != null && ps[i].id == id && forall j :: 0 <= j < i ==> ps[j] != null;
        if i > 0 {
          assert ps[1..][i - 1] == ps[i];
          assert forall j :: 0 <= j < i - 1 ==> ps[1..][j] != null;
        }
      }
      if forall i :: 0 <= i < |ps| ==> ps[i] != null && ps[i].id != id {
        assert forall i :: 0 <= i < |ps[1..]| ==> ps[1..][i] == ps[i + 1];
      }
    }
  }

  /** Whether a seated player has `p`'s id. */
  method ExistsPlayer(ps: seq<Player?>, p: Player) returns (b: bool)
    requires Scan(ps, p.id) != HitsNil
    ensures b <==> Scan(ps, p.id) == Found
  {
    for i := 0 to |ps|
      invariant Scan(ps[i..], p.id) == Scan(ps, p.id)
    {
      assert ps[i..][1..] == ps[i + 1..];
      if ps[i].id == p.id {
        return true;
      }
    }
    assert ps[|ps|..] == [];
    return false;
  }

  // ---------------------------------------------------------------------
  // Blinds
  // ---------------------------------------------------------------------

  /** A blind bet of `amount` from a stack: the new stack and the error, by the player's bet rules. */
  function Posted(stack: int, amount: int, require: int, delivered: bool): (r: (int, Option<PlayerError>))
    ensures !(require <= amount <= stack) ==> r == (stack, Some(NotEnoughChips))
    ensures require <= amount <= stack ==> r.0 == stack - amount && (r.1 == None <==> delivered)
  {
    match Debit(stack, Action(Actions.Bet, amount), require)
    case Rejected(e) => (stack, Some(e))
    case Accepted(rest, _) => (rest, if delivered then None else Some(ActionTimeout))
  }

  /**
   * As written, the blinds' bets are never received while the round starts,
   * so a post always fails: for want of chips, or by timing out after the
   * chips have been taken.
   */
  lemma UndeliveredBlindFails(stack: int, amount: int, require: int)
    ensures var (rest, e) := Posted(stack, amount, require, false);
      e.Some? && (require <= amount <= stack ==> e == Some(ActionTimeout) && rest == stack - amount)
  {
  }

  // ---------------------------------------------------------------------
  // The betting-round continuation test
  // ---------------------------------------------------------------------

  /** A waiting player whose bet so far is recorded and not negative. */
  predicate HasBet(s: Seat, bets: map<string, int>) {
    s.Taken? && s.status == Waiting && s.id in bets && bets[s.id] >= 0
  }

  /** A waiting player who has not acted yet, or whose bet is short of the highest. */
  predicate Pending(s: Seat, bets: map<string, int>, highest: int) {
    s.Taken? && s.status == Waiting && (s.id !in bets || 0 < bets[s.id] < highest)
  }

  /**
   * `highest` is the highest recorded bet of a waiting player and `pos` the
   * first seat holding it; 0 and seat 0 when no such bet is positive.
   */
  predicate IsLeader(v: seq<Seat>, bets: map<string, int>, highest: int, pos: int) {
    highest >= 0 &&
    (forall j :: 0 <= j < |v| && HasBet(v[j], bets) ==> bets[v[j].id] <= highest) &&
    (highest == 0 ==> pos == 0) &&
    (highest > 0 ==>
      0 <= pos < |v| && HasBet(v[pos], bets) && bets[v[pos].id] == highest &&
      forall j :: 0 <= j < pos && HasBet(v[j], bets) ==> bets[v[j].id] < highest)
  }

  /** The leader is determined by the seats and the bets. */
  lemma LeaderUnique(v: seq<Seat>, bets: map<string, int>, h1: int, p1: int, h2: int, p2: int)
    requires IsLeader(v, bets, h1, p1) && IsLeader(v, bets, h2, p2)
    ensures h1 == h2 && p1 == p2
  {
    if h1 > 0 {
      assert bets[v[p1].id] <= h2;
    }
    if h2 > 0 {
      assert bets[v[p2].id] <= h1;
    }
    if h1 > 0 && h2 > 0 {
      assert !(p1 < p2) && !(p2 < p1);
    }
  }

  /** The highest recorded bet of a waiting player and the first seat holding it (0 and seat 0 when none is positive). */
  method Leader(v: seq<Seat>, bets: map<string, int>) returns (highest: int, pos: int)
    ensures IsLeader(v, bets, highest, pos)
  {
    highest, pos := 0, 0;
    for i := 0 to |v|
      invariant highest >= 0
      invariant forall j :: 0 <= j < i && HasBet(v[j], bets) ==> bets[v[j].id] <= highest
      invariant highest == 0 ==> pos == 0
      invariant highest > 0 ==>
        0 <= pos < i && HasBet(v[pos], bets) && bets[v[pos].id] == highest &&
        forall j :: 0 <= j < pos && HasBet(v[j], bets) ==> bets[v[j].id] < highest
    {
      if !v[i].Taken? || v[i].status != Waiting {
        continue;
      }
      if v[i].id !in bets || bets[v[i].id] < 0 {
        continue;
      }
      var bet := bets[v[i].id];
      if bet > highest {
        highest, pos := bet, i;
      }
    }
  }

  /**
   * Whether betting goes on: some waiting player among the seats after the
   * leader's (the leader's own seat excluded) has not acted, or has bet
   * more than nothing but less than the highest bet.
   */
  method Keep(v: seq<Seat>, bets: map<string, int>) returns (more: bool, ghost highest: int, ghost pos: int)
    ensures IsLeader(v, bets, highest, pos)
    ensures |v| > 0 ==> 0 <= pos < |v|
    ensures |v| > 0 ==> (more <==> exists k :: 1 <= k < |v| && Pending(Around(v, pos, k), bets, highest))
    ensures |v| == 0 ==> !more
  {
    var h, p := Leader(v, bets);
    highest, pos := h, p;
    var n := |v|;
    if n == 0 {
      return false, h, p;
    }
    for i := 0 to n - 1
      invariant forall k :: 1 <= k <= i ==> !Pending(Around(v, p, k), bets, h)
    {
      StepIsMod(p, i + 1, n);
      var s := v[(p + i + 1) % n];
      if !s.Taken? || s.status != Waiting {
        continue;
      }
      var bet := if s.id in bets then bets[s.id] else 0;
      var acted := s.id in bets;
      if bet < 0 {
        continue;
      }
      if !acted {
        assert Pending(Around(v, p, i + 1), bets, h);
        return true, h, p;
      }
      if 0 < bet && bet < h {
        assert Pending(Around(v, p, i + 1), bets, h);
        return true, h, p;
      }
    }
    return false, h, p;
  }

  /**
   * Before anyone has bet, the leader is seat 0 with a highest bet of 0, and
   * two waiting players are enough for betting to go on.
   */
  lemma NoBetsKeepsGoing(v: seq<Seat>, highest: int, pos: int, a: int, c: int)
    requires IsLeader(v, map[], highest, pos)
    requires 0 <= a < c < |v| && v[a].Taken? && v[a].status == Waiting && v[c].Taken? && v[c].status == Waiting
    ensures highest == 0 && pos == 0
    ensures exists k :: 1 <= k < |v| && Pending(Around(v, pos, k), map[], highest)
  {
    assert Around(v, 0, c) == v[c];
    assert Pending(Around(v, 0, c), map[], 0);
  }

  /**
   * Once every waiting player has bet the same amount, nobody is pending
   * after the leader, so betting stops.
   */
  lemma MatchedBetsStop(v: seq<Seat>, bets: map<string, int>, highest: int, pos: int, x: int)
    requires IsLeader(v, bets, highest, pos) && |v| > 0 && x >= 0
    requires forall j :: 0 <= j < |v| && v[j].Taken? && v[j].status == Waiting ==> v[j].id in bets && bets[v[j].id] == x
    ensures !exists k :: 1 <= k < |v| && Pending(Around(v, pos, k), bets, highest)
  {
    forall k | 1 <= k < |v|
      ensures !Pending(Around(v, pos, k), bets, highest)
    {
      var j := Step(pos, k, |v|);
      if v[j].Taken? && v[j].status == Waiting {
        assert HasBet(v[j], bets);
        if highest == 0 {
          assert x <= 0;
        } else {
          assert bets[v[pos].id] == x;
        }
      }
    }
  }

  // ---------------------------------------------------------------------
  // The round
  // ---------------------------------------------------------------------

  class Round {
    /** The seats, indexed by position at the table. */
    var seats: seq<Player?>
    const dealer: Dealer
    const button: int
    const minBet: int
    var communityCards: seq<Card>
    var status: RoundStatus.Status
    /** Each stage entered, with the number of community cards on the table at that moment. */
    ghost var log: seq<(RoundStatus.Status, int)>

    /**
     * A round over `players`.  A negative button or minimum bet means
     * "not given" and takes the default; without a dealer a fresh one is
     * made with a fresh deck.
     */
    constructor (players: seq<Player?>, button: int, minBet: int, given: Dealer?)
      ensures seats == players && communityCards == [] && log == []
      ensures status == RoundStatus.Ready
      ensures this.button == (if button < 0 then DefaultButton else button)
      ensures this.minBet == (if minBet < 0 then DefaultMinBet else minBet)
      ensures given != null ==> dealer == given
      ensures given == null ==> fresh(dealer) && fresh(dealer.deck) && dealer.deck.cards == FullDeck()
    {
      seats := players;
      status := RoundStatus.Ready;
      communityCards := [];
      log := [];
      this.button := if button < 0 then DefaultButton else button;
      this.minBet := if minBet < 0 then DefaultMinBet else minBet;
      if given == null {
        dealer := new Dealer(null);
      } else {
        dealer := given;
      }
    }

    /**
     * Seats `p` at the end of the seats.  Fails once the round has left
     * Ready, or when a seated player has the same id.
     */
    method AddPlayer(p: Player) returns (err: Option<RoundError>)
      requires !RoundStatus.After(status, RoundStatus.Ready) ==> Scan(seats, p.id) != HitsNil
      modifies this
      ensures RoundStatus.After(status, RoundStatus.Ready) ==> err == Some(RoundStarted) && seats == old(seats)
      ensures !RoundStatus.After(status, RoundStatus.Ready) && Scan(old(seats), p.id) == Found ==>
        err == Some(PlayerExists) && seats == old(seats)
      ensures !RoundStatus.After(status, RoundStatus.Ready) && Scan(old(seats), p.id) == Missing ==>
        err == None && seats == old(seats) + [p]
      ensures status == old(status) && communityCards == old(communityCards) && log == old(log)
    {
      if RoundStatus.After(status, RoundStatus.Ready) {
        return Some(RoundStarted);
      }
      var exists_ := ExistsPlayer(seats, p);
      if exists_ {
        return Some(PlayerExists);
      }
      ScanFacts(seats, p.id);
      // The source looks for an empty seat first, but only rebinds its loop
      // variable there; with no empty seat left by the walk above, it appends.
      for i := 0 to |seats|
        invariant forall j :: 0 <= j < |seats| ==> seats[j] != null
      {
        if seats[i] == null {
          return None;
        }
      }
      seats := seats + [p];
      return None;
    }

    /**
     * Fails once the round has left Ready or when no seated player has
     * `p`'s id; otherwise succeeds.  Either way the seats stay as they are:
     * the source clears only its loop variable.
     */
    method RemovePlayer(p: Player) returns (err: Option<RoundError>)
      requires !RoundStatus.After(status, RoundStatus.Ready) ==> Scan(seats, p.id) != HitsNil
      ensures RoundStatus.After(status, RoundStatus.Ready) ==> err == Some(RoundStarted)
      ensures !RoundStatus.After(status, RoundStatus.Ready) ==>
        (err == None <==> Scan(seats, p.id) == Found) &&
        (err != None ==> err == Some(PlayerNotFound))
    {
      if RoundStatus.After(status, RoundStatus.Ready) {
        return Some(RoundStarted);
      }
      for i := 0 to |seats|
        invariant Scan(seats[i..], p.id) == Scan(seats, p.id)
      {
        assert seats[i..][1..] == seats[i + 1..];
        if seats[i].id == p.id {
          return None;
        }
      }
      assert seats[|seats|..] == [];
      return Some(PlayerNotFound);
    }

    /**
     * The blinds at seats `small` and `big` of `ps` were posted from the
     * stacks as they were: half the minimum bet from `small`, the minimum
     * bet from `big` only once the small blind went through, and `err`
     * reports the first refusal.  A bet is handed over only when it is
     * delivered on open channels.
     */
    twostate predicate BlindsPosted(ps: seq<Player?>, small: int, big: int, smallRequire: int, bigRequire: int,
                                    smallDelivered: bool, bigDelivered: bool, new err: Option<RoundError>)
      reads ps
    {
      0 <= small < |ps| && 0 <= big < |ps| && small != big && ps[small] != null && ps[big] != null &&
      var (s, se) := Posted(old(ps[small].chips), minBet / 2, smallRequire, smallDelivered && old(ps[small].channels) == Opened);
      var (b, be) := Posted(old(ps[big].chips), minBet, bigRequire, bigDelivered && old(ps[big].channels) == Opened);
      ps[small].chips == s &&
      (se != None ==> err == Some(SmallBlind(se.value)) && ps[big].chips == old(ps[big].chips)) &&
      (se == None ==> ps[big].chips == b && (if be == None then err == None else err == Some(BigBlind(be.value))))
    }

    /**
     * Every seated player keeps their status, release flag and channels, all but the
     * players at `small` and `big` keep their chips, and the players who
     * were not Ready (all of them, when `failed`) keep their hole cards.
     */
    twostate predicate Kept(ps: seq<Player?>, small: int, big: int, failed: bool)
      reads ps
    {
      forall j :: 0 <= j < |ps| && ps[j] != null ==>
        ps[j].status == old(ps[j].status) && ps[j].released == old(ps[j].released) &&
        ps[j].channels == old(ps[j].channels) &&
        (j != small && j != big ==> ps[j].chips == old(ps[j].chips)) &&
        (failed || old(ps[j].status) != PlayerStatus.Ready ==> ps[j].holeCards == old(ps[j].holeCards))
    }

    /**
     * No blind bet that the chip rules accept is sent on closed channels,
     * where the source panics: the small blind's when it can pay, and the
     * big blind's when it can pay after the small blind was handed over.
     */
    predicate BlindsSendable(smallRequire: int, bigRequire: int, smallDelivered: bool)
      reads this, seats
    {
      PositionError(View(seats), button).None? ==>
        forall s, b ::
          (BlindSeats(View(seats), button, s, b) && 0 <= s < |seats| && 0 <= b < |seats| &&
           seats[s] != null && seats[b] != null) ==>
          (smallRequire <= minBet / 2 <= seats[s].chips ==> seats[s].channels != Closed) &&
          ((smallRequire <= minBet / 2 <= seats[s].chips && smallDelivered && seats[s].channels == Opened &&
            bigRequire <= minBet <= seats[b].chips) ==> seats[b].channels != Closed)
    }

    /**
     * Posts the blinds: half the minimum bet from the small blind's seat,
     * then the minimum bet from the big blind's, at the seats the blind
     * lookup gives; the first failure stops it.  `small` and `big` are the
     * seats used, -1 when the lookup fails.  Statuses and hole cards are
     * untouched.
     */
    method BetBlind(smallRequire: int, bigRequire: int, smallDelivered: bool, bigDelivered: bool)
      returns (small: int, big: int, err: Option<RoundError>)
      requires DistinctPlayers(seats) && BlindsSendable(smallRequire, bigRequire, smallDelivered)
      modifies seats
      ensures PositionError(old(View(seats)), button).Some? ==>
        err == Some(Blinds(PositionError(old(View(seats)), button).value)) && small == -1 && big == -1
      ensures PositionError(old(View(seats)), button).None? ==>
        BlindSeats(old(View(seats)), button, small, big) &&
        BlindsPosted(seats, small, big, smallRequire, bigRequire, smallDelivered, bigDelivered, err)
      ensures Kept(seats, small, big, true)
    {
      var v := View(seats);
      var e;
      small, big, e := PositionBlind(v, button);
      if e.Some? {
        return small, big, Some(Blinds(e.value));
      }
      assert seats[small] != null && seats[big] != null;
      assert small != big by {
        if CountOf(v, IsTaken) == 2 {
          assert IsNextTaken(v, button, big);
        } else {
          assert IsNextTaken(v, small, big);
        }
      }
      var sp, bp := seats[small], seats[big];
      assert sp != bp by {
        assert sp.id != bp.id by {
          if small < big {
            assert seats[small].id != seats[big].id;
          } else {
            assert seats[big].id != seats[small].id;
          }
        }
      }
      var se := sp.Bet(minBet / 2, smallRequire, smallDelivered);
      if se.Some? {
        return small, big, Some(SmallBlind(se.value));
      }
      var be := bp.Bet(minBet, bigRequire, bigDelivered);
      if be.Some? {
        return small, big, Some(BigBlind(be.value));
      }
      return small, big, None;
    }

    /**
     * Plays the round up to the showdown.  It fails, leaving everything
     * as it was, when the button's seat is empty or when the players who
     * have not folded are too few or too many.  Otherwise it goes on as
     * `Open`.  `view` is the seats as they were, `shuffled` the deck after
     * the shuffle, and `small` and `big` the blind seats (-1 when none were
     * found).
     */
    method Start(draws: seq<int>, smallRequire: int, bigRequire: int, smallDelivered: bool, bigDelivered: bool)
      returns (err: Option<RoundError>, ghost view: seq<Seat>, ghost shuffled: seq<Card>, ghost small: int, ghost big: int)
      requires 0 <= button < |seats|
      requires DistinctPlayers(seats)
      requires |dealer.deck.cards| <= |draws|
      requires CanDeal(View(seats), button) ==> 2 * CountOf(View(seats), IsTaken) + 8 <= |dealer.deck.cards|
      requires CanDeal(View(seats), button) ==> BlindsSendable(smallRequire, bigRequire, smallDelivered)
      modifies this, dealer.deck, seats
      ensures view == old(View(seats)) && shuffled == Shuffled(old(dealer.deck.cards), draws)
      ensures seats == old(seats)
      ensures !CanDeal(view, button) ==>
        status == old(status) && communityCards == old(communityCards) && log == old(log) &&
        dealer.deck.cards == old(dealer.deck.cards) && small == -1 && big == -1
      ensures !view[button].Taken? ==> err == Some(EmptyButton)
      ensures view[button].Taken? && !CanDeal(view, button) ==> err == Some(PlayerCount(CountOf(view, IsEffective)))
      ensures CanDeal(view, button) && err != None ==>
        (err.value.Blinds? || err.value.SmallBlind? || err.value.BigBlind?) &&
        status == RoundStatus.Start && communityCards == old(communityCards) &&
        log == old(log) + [(RoundStatus.Start, |old(communityCards)|)] && dealer.deck.cards == shuffled
      ensures CanDeal(view, button) && err == None ==>
        Dealt(view, shuffled, old(communityCards), old(log) + [(RoundStatus.Start, |old(communityCards)|)])
      ensures CanDeal(view, button) && PositionError(view, button).Some? ==>
        err == Some(Blinds(PositionError(view, button).value)) && small == -1 && big == -1
      ensures CanDeal(view, button) && PositionError(view, button).None? ==>
        BlindSeats(view, button, small, big) &&
        BlindsPosted(seats, small, big, smallRequire, bigRequire, smallDelivered, bigDelivered, err)
      ensures CanDeal(view, button) && !smallDelivered ==> err != None && status == RoundStatus.Start
      ensures Kept(seats, small, big, err != None)
    {
      var v := View(seats);
      view := v;
      shuffled := Shuffled(dealer.deck.cards, draws);
      if seats[button] == null {
        return Some(EmptyButton), view, shuffled, -1, -1;
      }
      // the counts that Seats.RealPlayerCount and Seats.EffectivePlayerCount compute
      var realCount := CountOf(v, IsTaken);
      var effectiveCount := CountOf(v, IsEffective);
      if effectiveCount < MinPlayerCount || effectiveCount > MaxPlayerCount {
        return Some(PlayerCount(effectiveCount)), view, shuffled, -1, -1;
      }
      assert CanDeal(view, button);
      err, small, big := Open(v, realCount, draws, smallRequire, bigRequire, smallDelivered, bigDelivered);
    }

    /**
     * The round once its checks have passed: it enters Start, shuffles with
     * `draws` and posts the blinds; a failure there leaves the round in
     * Start.  Otherwise it plays the hand (`PlayHand`).  A small blind that
     * is never delivered always fails it.
     */
    method Open(ghost v: seq<Seat>, n: int, draws: seq<int>, smallRequire: int, bigRequire: int,
                smallDelivered: bool, bigDelivered: bool)
      returns (err: Option<RoundError>, ghost small: int, ghost big: int)
      requires 0 <= button < |seats| && v == View(seats) && DistinctPlayers(seats)
      requires |dealer.deck.cards| <= |draws|
      requires n == CountOf(v, IsTaken) && 2 * n + 8 <= |dealer.deck.cards|
      requires BlindsSendable(smallRequire, bigRequire, smallDelivered)
      modifies this, dealer.deck, seats
      ensures seats == old(seats)
      ensures err != None ==>
        (err.value.Blinds? || err.value.SmallBlind? || err.value.BigBlind?) &&
        status == RoundStatus.Start && communityCards == old(communityCards) &&
        log == old(log) + [(RoundStatus.Start, |old(communityCards)|)] &&
        dealer.deck.cards == Shuffled(old(dealer.deck.cards), draws)
      ensures err == None ==>
        Dealt(v, Shuffled(old(dealer.deck.cards), draws), old(communityCards),
              old(log) + [(RoundStatus.Start, |old(communityCards)|)])
      ensures PositionError(v, button).Some? ==>
        err == Some(Blinds(PositionError(v, button).value)) && small == -1 && big == -1
      ensures PositionError(v, button).None? ==>
        BlindSeats(v, button, small, big) &&
        BlindsPosted(seats, small, big, smallRequire, bigRequire, smallDelivered, bigDelivered, err)
      ensures !smallDelivered ==> err != None && status == RoundStatus.Start
      ensures Kept(seats, small, big, err != None)
    {
      Begin(draws);
      err, small, big := PostAndPlay(v, n, smallRequire, bigRequire, smallDelivered, bigDelivered);
    }

    /** Enters Start, logs it and shuffles the deck with `draws`. */
    method Begin(draws: seq<int>)
      requires |dealer.deck.cards| <= |draws|
      modifies this, dealer.deck
      ensures status == RoundStatus.Start && log == old(log) + [(RoundStatus.Start, |old(communityCards)|)]
      ensures dealer.deck.cards == Shuffled(old(dealer.deck.cards), draws)
      ensures seats == old(seats) && communityCards == old(communityCards)
    {
      status := RoundStatus.Start;
      log := log + [(status, |communityCards|)];
      dealer.Shuffle(draws);
    }

    /** Posts the blinds and, when they are posted, plays the hand from the deck as it is. */
    method PostAndPlay(ghost v: seq<Seat>, n: int, smallRequire: int, bigRequire: int,
                       smallDelivered: bool, bigDelivered: bool)
      returns (err: Option<RoundError>, ghost small: int, ghost big: int)
      requires 0 <= button < |seats| && v == View(seats) && DistinctPlayers(seats)
      requires n == CountOf(v, IsTaken) && 2 * n + 8 <= |dealer.deck.cards|
      requires BlindsSendable(smallRequire, bigRequire, smallDelivered)
      modifies this, dealer.deck, seats
      ensures seats == old(seats)
      ensures err != None ==>
        (err.value.Blinds? || err.value.SmallBlind? || err.value.BigBlind?) &&
        status == old(status) && communityCards == old(communityCards) && log == old(log) &&
        dealer.deck.cards == old(dealer.deck.cards)
      ensures err == None ==> Dealt(v, old(dealer.deck.cards), old(communityCards), old(log))
      ensures PositionError(v, button).Some? ==>
        err == Some(Blinds(PositionError(v, button).value)) && small == -1 && big == -1
      ensures PositionError(v, button).None? ==>
        BlindSeats(v, button, small, big) &&
        BlindsPosted(seats, small, big, smallRequire, bigRequire, smallDelivered, bigDelivered, err)
      ensures !smallDelivered ==> err != None
      ensures Kept(seats, small, big, err != None)
    {
      small, big, err := BetBlind(smallRequire, bigRequire, smallDelivered, bigDelivered);
      if err.Some? {
        return;
      }
      assert forall j :: 0 <= j < |seats| ==> View(seats)[j] == v[j];
      assert View(seats) == v;
      PlayHand(v, n);
    }

    /**
     * What playing the hand from the deck `d` leaves, for seats `v` that
     * were read before it: the round in Showdown; the community cards
     * extended by the flop, turn and river, each after a burnt card, drawn
     * after the 2n hole cards for the `n` occupied seats; the deck past
     * those 2n + 8 cards; the stages logged in order with 0, 3, 4 and 5 new
     * community cards; and the k-th Ready player from the button holding
     * the k-th pair dealt.
     */
    ghost predicate Dealt(v: seq<Seat>, d: seq<Card>, cc: seq<Card>, log0: seq<(RoundStatus.Status, int)>)
      reads this, dealer, dealer.deck, seats
    {
      var n := CountOf(v, IsTaken);
      var c := |cc|;
      0 <= button < |v| == |seats| && 2 * n + 8 <= |d| &&
      status == RoundStatus.Showdown &&
      communityCards == cc + [d[2 * n + 1], d[2 * n + 2], d[2 * n + 3], d[2 * n + 5], d[2 * n + 7]] &&
      dealer.deck.cards == d[2 * n + 8..] &&
      log == log0 + [(RoundStatus.PreFlop, c), (RoundStatus.Flop, c + 3), (RoundStatus.Turn, c + 4),
                     (RoundStatus.River, c + 5), (RoundStatus.Showdown, c + 5)] &&
      forall k :: 1 <= k <= |seats| && IsReady(Around(v, button, k)) ==>
        seats[Step(button, k, |seats|)] != null &&
        seats[Step(button, k, |seats|)].holeCards == Some(PairFor(v, button, k, RoundRobinHoleCards(d, n)))
    }

    /**
     * From PreFlop to Showdown: deals 2n hole cards for the `n` occupied
     * seats and gives them out to the Ready players, then lays the board.
     */
    method PlayHand(ghost v: seq<Seat>, n: int)
      requires 0 <= button < |seats| && v == View(seats) && DistinctPlayers(seats)
      requires n == CountOf(v, IsTaken) && 2 * n + 8 <= |dealer.deck.cards|
      modifies this, dealer.deck, seats
      ensures seats == old(seats)
      ensures Dealt(v, old(dealer.deck.cards), old(communityCards), old(log))
      ensures Kept(seats, -1, -1, false)
    {
      ghost var d := dealer.deck.cards;
      var c := |communityCards|;
      status := RoundStatus.PreFlop;
      log := log + [(status, c)];
      var hole := dealer.DealHoleCards(n);
      DealToReady(v, hole);
      ghost var e := dealer.deck.cards;
      assert e == d[2 * n..];
      DealBoard(c);
      assert e[8..] == d[2 * n + 8..];
      assert [e[1], e[2], e[3], e[5], e[7]] == [d[2 * n + 1], d[2 * n + 2], d[2 * n + 3], d[2 * n + 5], d[2 * n + 7]];
    }

    /**
     * The board: a burn and three flop cards, a burn and the turn card, a
     * burn and the river card, then the showdown.
     */
    method DealBoard(ghost c: int)
      requires |dealer.deck.cards| >= 8 && c == |communityCards|
      modifies this, dealer.deck
      ensures var d := old(dealer.deck.cards);
        communityCards == old(communityCards) + [d[1], d[2], d[3], d[5], d[7]] && dealer.deck.cards == d[8..]
      ensures status == RoundStatus.Showdown && seats == old(seats)
      ensures log == old(log) + [(RoundStatus.Flop, c + 3), (RoundStatus.Turn, c + 4), (RoundStatus.River, c + 5), (RoundStatus.Showdown, c + 5)]
    {
      ghost var d := dealer.deck.cards;
      DealFlop();
      DealOneMore(RoundStatus.Turn);
      // The source lays the river with the dealer's turn-card deal, which takes the same one card.
      DealOneMore(RoundStatus.River);
      status := RoundStatus.Showdown;
      log := log + [(status, |communityCards|)];
      assert d[1..][3..][1..][1..][1..] == d[7..];
    }

    /** Enters Flop, burns a card and lays the next three. */
    method DealFlop()
      requires |dealer.deck.cards| >= 4
      modifies this, dealer.deck
      ensures var d := old(dealer.deck.cards);
        communityCards == old(communityCards) + [d[1], d[2], d[3]] && dealer.deck.cards == d[4..]
      ensures status == RoundStatus.Flop && seats == old(seats)
      ensures log == old(log) + [(RoundStatus.Flop, |communityCards|)]
    {
      ghost var d := dealer.deck.cards;
      ghost var cc := communityCards;
      status := RoundStatus.Flop;
      var _ := dealer.BurnCard();
      var flop := dealer.DealFlopCards();
      assert flop == [d[1], d[2], d[3]];
      for i := 0 to |flop|
        invariant communityCards == cc + flop[..i]
        invariant dealer.deck.cards == d[4..]
        invariant seats == old(seats) && log == old(log) && status == RoundStatus.Flop
      {
        assert flop[..i + 1] == flop[..i] + [flop[i]];
        communityCards := communityCards + [flop[i]];
      }
      assert flop[..|flop|] == flop;
      log := log + [(status, |communityCards|)];
    }

    /** Enters `next`, burns a card and lays the one after it. */
    method DealOneMore(next: RoundStatus.Status)
      requires |dealer.deck.cards| >= 2
      modifies this, dealer.deck
      ensures var d := old(dealer.deck.cards);
        communityCards == old(communityCards) + [d[1]] && dealer.deck.cards == d[2..]
      ensures status == next && seats == old(seats)
      ensures log == old(log) + [(next, |communityCards|)]
    {
      status := next;
      var _ := dealer.BurnCard();
      var card := dealer.DealTurnCard();
      communityCards := communityCards + [card];
      log := log + [(status, |communityCards|)];
    }

    /**
     * Gives out the dealt pairs in turn, from the seat after the button, to
     * the seated players who are Ready: the k-th such player gets pair k.
     */
    method DealToReady(ghost v: seq<Seat>, hole: seq<(Card, Card)>)
      requires 0 <= button < |seats| && v == View(seats)
      requires DistinctPlayers(seats)
      requires |hole| == CountOf(v, IsTaken)
      modifies seats
      ensures GivenUpTo(seats, v, |seats|, hole)
      ensures Kept(seats, -1, -1, false)
    {
      var ps := seats;
      var n := |ps|;
      var dealt := 0;
      for i := 0 to n
        invariant dealt == ReadyAmong(v, button, i)
        invariant Kept(ps, -1, -1, false)
        invariant GivenUpTo(ps, v, i, hole)
      {
        StepIsMod(button, i + 1, n);
        var p := ps[(button + i + 1) % n];
        if p == null || p.status != PlayerStatus.Ready {
          continue;
        }
        assert IsReady(Around(v, button, i + 1));
        GiveOut(ps, v, i, hole, dealt);
        dealt := dealt + 1;
      }
    }

    /** The Ready players among the seats 1..i steps after the button hold their pairs. */
    predicate GivenUpTo(ps: seq<Player?>, v: seq<Seat>, i: int, hole: seq<(Card, Card)>)
      reads this, ps
      requires 0 <= button < |v| == |ps| && 0 <= i <= |v| && |hole| == CountOf(v, IsTaken)
    {
      forall k :: 1 <= k <= i && IsReady(Around(v, button, k)) ==>
        ps[Step(button, k, |ps|)] != null && ps[Step(button, k, |ps|)].holeCards == Some(PairFor(v, button, k, hole))
    }

    /** Gives the Ready player `i + 1` steps after the button the next pair. */
    method GiveOut(ps: seq<Player?>, ghost v: seq<Seat>, i: int, hole: seq<(Card, Card)>, dealt: int)
      requires 0 <= button < |v| == |ps| && 0 <= i < |v| && |hole| == CountOf(v, IsTaken)
      requires DistinctPlayers(ps) && ps[Step(button, i + 1, |ps|)] != null
      requires ps[Step(button, i + 1, |ps|)].status == PlayerStatus.Ready
      requires IsReady(Around(v, button, i + 1)) && dealt == ReadyAmong(v, button, i)
      requires GivenUpTo(ps, v, i, hole)
      modifies ps[Step(button, i + 1, |ps|)]
      ensures GivenUpTo(ps, v, i + 1, hole)
      ensures Kept(ps, -1, -1, false)
    {
      var p := ps[Step(button, i + 1, |ps|)];
      ReadyIndexInRange(v, button, i + 1);
      OthersDiffer(ps, button, i + 1);
      var _ := p.SetHoleCards(hole[dealt]);
    }

    /** Ends the round. */
    method End() returns (err: Option<RoundError>)
      modifies this
      ensures status == RoundStatus.End && err == None
      ensures log == old(log) + [(RoundStatus.End, |communityCards|)]
      ensures seats == old(seats) && communityCards == old(communityCards)
    {
      status := RoundStatus.End;
      log := log + [(status, |communityCards|)];
      return None;
    }
  }

  /** The seats 1..k-1 steps after the button hold players other than the one k steps after it. */
  lemma OthersDiffer(ps: seq<Player?>, button: int, k: int)
    requires 0 <= button < |ps| && 1 <= k <= |ps| && DistinctPlayers(ps)
    ensures forall m :: 1 <= m < k ==> ps[Step(button, m, |ps|)] != ps[Step(button, k, |ps|)] || ps[Step(button, m, |ps|)] == null
  {
    var n := |ps|;
    var at := Step(button, k, n);
    forall m | 1 <= m < k && ps[Step(button, m, n)] != null
      ensures ps[Step(button, m, n)] != ps[at]
    {
      var j := Step(button, m, n);
      assert j != at;
      if ps[at] != null {
        if j < at {
          assert ps[j].id != ps[at].id;
        } else {
          assert ps[at].id != ps[j].id;
        }
      }
    }
  }
}
