/**
 * A table's waiting list: the players who sat down, in the order they
 * came, and the set of their ids used to answer "is this player here?"
 * quickly.  Joining appends, leaving removes every entry with the id.
 */
module Tables {
  import opened Wrappers
  import opened Players

  const DefaultMinBet := 2
  const DefaultCapacity := 8
  const DefaultMinPlayerCountInRound := 2
  const DefaultMaxPlayerCountInRound := 22

  datatype TableError = AlreadySeated(id: string) | CapacityReached | NotSeated(id: string)

  /** The ids of a list of players. */
  function Ids(ws: seq<Player>): set<string> {
    if ws == [] then {} else {ws[0].id} + Ids(ws[1..])
  }

  /** An id is in the set exactly when some waiting player carries it. */
  lemma {:induction false} IdsMembers(ws: seq<Player>, id: string)
    ensures id in Ids(ws) <==> exists i :: 0 <= i < |ws| && ws[i].id == id
  {
    if ws != [] {
      IdsMembers(ws[1..], id);
      if id in Ids(ws[1..]) {
        var i :| 0 <= i < |ws[1..]| && ws[1..][i].id == id;
        assert ws[i + 1].id == id;
      }
      if exists i :: 0 <= i < |ws| && ws[i].id == id {
        var i :| 0 <= i < |ws| && ws[i].id == id;
        if i > 0 {
          assert ws[1..][i - 1].id == id;
        }
      }
    }
  }

  /** The players of `ws` whose id is not `id`, in their order. */
  function Without(ws: seq<Player>, id: string): seq<Player> {
    if ws == [] then [] else (if ws[0].id == id then [] else [ws[0]]) + Without(ws[1..], id)
  }

  /** Removing `id` keeps exactly the other players. */
  lemma {:induction false} WithoutMembers(ws: seq<Player>, id: string)
    ensures forall p :: p in Without(ws, id) <==> p in ws && p.id != id
    ensures |Without(ws, id)| <= |ws|
  {
    if ws != [] {
      WithoutMembers(ws[1..], id);
      assert ws == [ws[0]] + ws[1..];
    }
  }

  /** Removing `id` works piece by piece, so the players kept stay in their order. */
  lemma {:induction false} WithoutConcat(a: seq<Player>, b: seq<Player>, id: string)
    ensures Without(a + b, id) == Without(a, id) + Without(b, id)
  {
    if a == [] {
      assert a + b == b;
    } else {
      assert (a + b)[1..] == a[1..] + b;
      WithoutConcat(a[1..], b, id);
    }
  }

  /** Removing an id nobody has changes nothing. */
  lemma {:induction false} WithoutAbsent(ws: seq<Player>, id: string)
    requires id !in Ids(ws)
    ensures Without(ws, id) == ws
  {
    if ws != [] {
      WithoutAbsent(ws[1..], id);
      assert ws == [ws[0]] + ws[1..];
    }
  }

  /** After removing `id`, the ids left are the others. */
  lemma {:induction false} WithoutIds(ws: seq<Player>, id: string)
    ensures Ids(Without(ws, id)) == Ids(ws) - {id}
  {
    if ws != [] {
      WithoutIds(ws[1..], id);
      var rest := Without(ws[1..], id);
      assert Ids(ws) == {ws[0].id} + Ids(ws[1..]);
      if ws[0].id != id {
        var kept := [ws[0]] + rest;
        assert Without(ws, id) == kept;
        assert kept[0] == ws[0] && kept[1..] == rest;
        assert Ids(kept) == {ws[0].id} + Ids(rest);
      } else {
        assert Without(ws, id) == [] + rest == rest;
      }
    }
  }

  lemma {:induction false} IdsAppend(ws: seq<Player>, p: Player)
    ensures Ids(ws + [p]) == Ids(ws) + {p.id}
  {
    if ws != [] {
      assert (ws + [p])[1..] == ws[1..] + [p];
      IdsAppend(ws[1..], p);
    } else {
      assert ws + [p] == [p];
    }
  }

  /** Joining with a new id and then leaving with it gives back the waiting list and its ids. */
  lemma JoinLeaveRestores(ws: seq<Player>, p: Player)
    requires p.id !in Ids(ws)
    ensures Without(ws + [p], p.id) == ws
    ensures (Ids(ws) + {p.id}) - {p.id} == Ids(ws)
  {
    WithoutConcat(ws, [p], p.id);
    WithoutAbsent(ws, p.id);
    assert Without([p], p.id) == [];
  }

  class Table {
    /** The players waiting at the table, in the order they joined. */
    var waiting: seq<Player>
    /** The ids of the waiting players. */
    var waitingMap: set<string>
    const capacity: int
    const minBet: int
    const minPlayerCountInRound: int
    const maxPlayerCountInRound: int

    /** The id set holds exactly the ids of the waiting list. */
    predicate Valid()
      reads this
    {
      waitingMap == Ids(waiting)
    }

    /**
     * An empty table.  A minimum bet of 0 and a negative capacity take the
     * defaults; a round maximum above 22 becomes 22 and a round minimum
     * above 2 becomes 2 (a capacity of 0 stays 0, so nobody can join).
     */
    constructor (minBet: int, capacity: int, maxPlayerCountInRound: int, minPlayerCountInRound: int)
      ensures waiting == [] && waitingMap == {} && Valid()
      ensures this.minBet == (if minBet == 0 then DefaultMinBet else minBet)
      ensures this.capacity == (if capacity < 0 then DefaultCapacity else capacity)
      ensures this.maxPlayerCountInRound ==
        (if maxPlayerCountInRound > DefaultMaxPlayerCountInRound then DefaultMaxPlayerCountInRound else maxPlayerCountInRound)
      ensures this.minPlayerCountInRound ==
        (if minPlayerCountInRound > DefaultMinPlayerCountInRound then DefaultMinPlayerCountInRound else minPlayerCountInRound)
    {
      waitingMap := {};
      this.minBet := if minBet == 0 then DefaultMinBet else minBet;
      this.capacity := if capacity < 0 then DefaultCapacity else capacity;
      waiting := [];
      this.maxPlayerCountInRound :=
        if maxPlayerCountInRound > DefaultMaxPlayerCountInRound then DefaultMaxPlayerCountInRound else maxPlayerCountInRound;
      this.minPlayerCountInRound :=
        if minPlayerCountInRound > DefaultMinPlayerCountInRound then DefaultMinPlayerCountInRound else minPlayerCountInRound;
    }

    /**
     * Adds `p` at the end of the waiting list.  Fails, changing nothing,
     * when its id is already there or the list is full.
     */
    method Join(p: Player) returns (err: Option<TableError>)
      modifies this
      ensures p.id in old(waitingMap) ==>
        err == Some(AlreadySeated(p.id)) && waiting == old(waiting) && waitingMap == old(waitingMap)
      ensures p.id !in old(waitingMap) && |old(waiting)| >= capacity ==>
        err == Some(CapacityReached) && waiting == old(waiting) && waitingMap == old(waitingMap)
      ensures p.id !in old(waitingMap) && |old(waiting)| < capacity ==>
        err == None && waiting == old(waiting) + [p] && waitingMap == old(waitingMap) + {p.id}
      ensures old(Valid()) ==> Valid()
    {
      if p.id in waitingMap {
        return Some(AlreadySeated(p.id));
      }
      if |waiting| >= capacity {
        return Some(CapacityReached);
      }
      IdsAppend(waiting, p);
      waiting := waiting + [p];
      waitingMap := waitingMap + {p.id};
      return None;
    }

    /**
     * Removes every waiting entry with `id`, keeping the others in order,
     * and forgets the id.  Fails, changing nothing, when the id is not there.
     */
    method Leave(id: string) returns (err: Option<TableError>)
      modifies this
      ensures id !in old(waitingMap) ==>
        err == Some(NotSeated(id)) && waiting == old(waiting) && waitingMap == old(waitingMap)
      ensures id in old(waitingMap) ==>
        err == None && waiting == Without(old(waiting), id) && waitingMap == old(waitingMap) - {id}
      ensures old(Valid()) ==> Valid()
    {
      if id !in waitingMap {
        return Some(NotSeated(id));
      }
      WithoutIds(waiting, id);
      waiting := Without(waiting, id);
      waitingMap := waitingMap - {id};
      return None;
    }
  }
}
