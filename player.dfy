/**
 * A player: a stack of chips, two hole cards, and a status that moves
 * Idle -> Ready -> Waiting -> (the status of the action taken).  Taking an
 * action debits the stack first and then hands the action over; whether
 * the hand-over happens before the timeout is a parameter here.
 */
module Players {
  import opened Wrappers
  import opened Cards
  import opened Actions

  const DefaultChips := 100
  /** Five seconds, in nanoseconds. */
  const DefaultActionTimeout := 5_000_000_000

  datatype PlayerError =
    | NotIdle
    | NotReady
    | NotWaiting
    | NotEnoughChips
    | InvalidActionType
    | ActionTimeout

  /** What an action does to a stack: the new stack and the action as handed over, or why it is refused. */
  datatype Debited = Accepted(stack: int, sent: Action) | Rejected(err: PlayerError)

  /** The actions that move chips from the stack. */
  predicate MovesChips(t: ActionType) {
    t == Bet || t == Raise || t == Call || t == AllInAction
  }

  /**
   * The chip rules of an action with `require` chips asked for: Bet and
   * Raise need require <= amount <= stack, Call needs require <= stack and
   * pays exactly require, AllIn needs a positive stack and pays all of it;
   * Check and Fold pay nothing; anything else is refused.
   */
  function Debit(stack: int, action: Action, require: int): (r: Debited)
    ensures (action.typ == Check || action.typ == Fold) ==> r == Accepted(stack, action)
    ensures (action.typ == Bet || action.typ == Raise) ==>
      (r.Accepted? <==> require <= action.chips <= stack) &&
      (r.Accepted? ==> r.sent == action)
    ensures action.typ == Call ==>
      (r.Accepted? <==> require <= stack) &&
      (r.Accepted? ==> r.sent == Action(Call, require))
    ensures action.typ == AllInAction ==>
      (r.Accepted? <==> stack > 0) &&
      (r.Accepted? ==> r.stack == 0)
    ensures !MovesChips(action.typ) && action.typ != Check && action.typ != Fold ==> r == Rejected(InvalidActionType)
    ensures r.Rejected? && MovesChips(action.typ) ==> r.err == NotEnoughChips
  {
    if action.typ == Check || action.typ == Fold then Accepted(stack, action)
    else if action.typ == Bet || action.typ == Raise then
      if require > action.chips || action.chips > stack then Rejected(NotEnoughChips)
      else Accepted(stack - action.chips, action)
    else if action.typ == Call then
      if require > stack then Rejected(NotEnoughChips)
      else Accepted(stack - require, action.(chips := require))
    else if action.typ == AllInAction then
      if stack <= 0 then Rejected(NotEnoughChips)
      else Accepted(0, action.(chips := stack))
    else Rejected(InvalidActionType)
  }

  /**
   * Chips are conserved: an accepted chip-moving action takes from the
   * stack exactly the chips it hands over and never leaves the stack
   * negative; nothing else changes the stack.
   */
  lemma DebitConserves(stack: int, action: Action, require: int)
    ensures Debit(stack, action, require).Accepted? && MovesChips(action.typ) ==>
      stack - Debit(stack, action, require).stack == Debit(stack, action, require).sent.chips &&
      Debit(stack, action, require).stack >= 0
    ensures Debit(stack, action, require).Accepted? && !MovesChips(action.typ) ==>
      Debit(stack, action, require).stack == stack
    ensures stack >= 0 && Debit(stack, action, require).Accepted? ==> Debit(stack, action, require).stack >= 0
  {
  }

  /** The status Ready leads to, and whether it is refused. */
  function ReadyStep(s: PlayerStatus): (r: (PlayerStatus, Option<PlayerError>))
    ensures r.1 == None <==> s == Idle
    ensures r.1 == None ==> r.0 == Ready
    ensures r.1 != None ==> r.0 == s && r.1 == Some(NotIdle)
  {
    if s != Idle then (s, Some(NotIdle)) else (Ready, None)
  }

  /** The status CancelReady leads to, and whether it is refused. */
  function CancelStep(s: PlayerStatus): (r: (PlayerStatus, Option<PlayerError>))
    ensures r.1 == None <==> s == Ready
    ensures r.1 == None ==> r.0 == Idle
    ensures r.1 != None ==> r.0 == s && r.1 == Some(NotReady)
  {
    if s != Ready then (s, Some(NotReady)) else (Idle, None)
  }

  /** Cancelling undoes getting ready, and getting ready undoes cancelling; each succeeds only where the other leads. */
  lemma ReadyCancelRoundTrip(s: PlayerStatus)
    ensures ReadyStep(s).1 == None ==> CancelStep(ReadyStep(s).0) == (s, None)
    ensures CancelStep(s).1 == None ==> ReadyStep(CancelStep(s).0) == (s, None)
    ensures ReadyStep(s).1 == None ==> ReadyStep(ReadyStep(s).0).1 == Some(NotIdle)
  {
  }

  /**
   * The player's two channels (the offered actions and the handed-over
   * action), which are made together, dropped together and closed together.
   */
  datatype Channels = NoChannels | Opened | Closed

  /**
   * The ways a player's status changes after construction: getting ready,
   * a reset, cancelling, and the answer to a wait for action.
   */
  datatype StatusStep = GetReady | ResetStep | Cancel | Answered(t: ActionType)

  /** The status after one step, as the player's methods set it. */
  function After(s: PlayerStatus, step: StatusStep): (r: PlayerStatus)
    ensures s != Waiting ==> r != Waiting
  {
    match step
    case GetReady => ReadyStep(s).0
    case ResetStep => Ready
    case Cancel => CancelStep(s).0
    case Answered(t) => if s == Waiting then ToStatus(t) else s
  }

  /** The status after the steps, in order. */
  function Run(s: PlayerStatus, steps: seq<StatusStep>): PlayerStatus
    decreases |steps|
  {
    if |steps| == 0 then s else Run(After(s, steps[0]), steps[1..])
  }

  /**
   * No sequence of steps makes a player Waiting who was not: every status
   * the methods assign is Ready, Idle or an action's status.  A new player
   * starts Idle, so a wait for action is always refused.
   */
  lemma {:induction false} NeverWaiting(s: PlayerStatus, steps: seq<StatusStep>)
    requires s != Waiting
    ensures Run(s, steps) != Waiting
    decreases |steps|
  {
    if |steps| > 0 {
      NeverWaiting(After(s, steps[0]), steps[1..]);
    }
  }

  class Player {
    /** Machine-readable identity. */
    const id: string
    /** Human-readable identity. */
    const name: string
    /** How long an action may take, in nanoseconds. */
    const actionTimeout: int
    var chips: int
    var status: PlayerStatus
    var holeCards: Option<(Card, Card)>
    /** Whether the player's resources have been released. */
    var released: bool
    var channels: Channels

    /**
     * A new, idle player.  An empty id is replaced by a generated one and an
     * empty name by one derived from the id (both given here as
     * `generatedId` and `generatedName`); no chips means the default stack,
     * and a timeout that is not positive means the default timeout.
     */
    constructor (id: string, name: string, chips: int, actionTimeout: int, generatedId: string, generatedName: string)
      ensures this.id == (if |id| == 0 then generatedId else id)
      ensures this.name == (if |name| == 0 then generatedName else name)
      ensures this.chips == (if chips == 0 then DefaultChips else chips)
      ensures this.actionTimeout == (if actionTimeout <= 0 then DefaultActionTimeout else actionTimeout)
      ensures status == Idle && holeCards == None && !released && channels == NoChannels
    {
      this.id := if |id| == 0 then generatedId else id;
      this.name := if |name| == 0 then generatedName else name;
      this.chips := if chips == 0 then DefaultChips else chips;
      this.actionTimeout := if actionTimeout <= 0 then DefaultActionTimeout else actionTimeout;
      status := Idle;
      holeCards := None;
      released := false;
      channels := NoChannels;
    }

    /** Only an idle player can get ready, with new channels; otherwise nothing changes. */
    method Ready() returns (err: Option<PlayerError>)
      modifies this
      ensures (status, err) == ReadyStep(old(status))
      ensures channels == (if err == None then Opened else old(channels))
      ensures chips == old(chips) && holeCards == old(holeCards) && released == old(released)
    {
      if status != Idle {
        return Some(NotIdle);
      }
      channels := Opened;
      status := PlayerStatus.Ready;
      return None;
    }

    /** Back to Ready with new channels and no hole cards, whatever the status was. */
    method Reset() returns (err: Option<PlayerError>)
      modifies this
      ensures status == PlayerStatus.Ready && holeCards == None && channels == Opened && err == None
      ensures chips == old(chips) && released == old(released)
    {
      channels := Opened;
      status := PlayerStatus.Ready;
      holeCards := None;
      return None;
    }

    /** Only a ready player can cancel, dropping the channels; otherwise nothing changes. */
    method CancelReady() returns (err: Option<PlayerError>)
      modifies this
      ensures (status, err) == CancelStep(old(status))
      ensures channels == (if err == None then NoChannels else old(channels))
      ensures chips == old(chips) && holeCards == old(holeCards) && released == old(released)
    {
      if status != PlayerStatus.Ready {
        return Some(NotReady);
      }
      status := Idle;
      channels := NoChannels;
      return None;
    }

    /**
     * Releases the player's resources the first time, closing the channels
     * if there are any; every later call does nothing, even once a reset
     * has made new channels.
     */
    method Gone() returns (err: Option<PlayerError>)
      modifies this
      ensures released && err == None
      ensures !old(released) ==> channels == (if old(channels) == NoChannels then NoChannels else Closed)
      ensures status == old(status) && chips == old(chips) && holeCards == old(holeCards)
      ensures old(released) ==> unchanged(this)
    {
      if !released {
        released := true;
        if channels != NoChannels {
          channels := Closed;
        }
      }
      return None;
    }

    /** Stores the cards whatever the status, but reports an error unless the player is Ready. */
    method SetHoleCards(cards: (Card, Card)) returns (err: Option<PlayerError>)
      modifies this
      ensures holeCards == Some(cards)
      ensures err == None <==> old(status) == PlayerStatus.Ready
      ensures err != None ==> err == Some(NotReady)
      ensures status == old(status) && chips == old(chips) && released == old(released) && channels == old(channels)
    {
      holeCards := Some(cards);
      if status != PlayerStatus.Ready {
        return Some(NotReady);
      }
      return None;
    }

    /**
     * Applies the chip rules to the stack and hands the action over.  The
     * stack is debited before the hand-over, so an action that times out
     * keeps its debit.  The hand-over succeeds when it is `delivered` on
     * open channels; without channels it waits until the timeout, and on
     * closed ones the source panics, so that case is excluded.
     */
    method TakeAction(action: Action, require: int, delivered: bool) returns (sent: Action, err: Option<PlayerError>)
      requires Debit(chips, action, require).Accepted? ==> channels != Closed
      modifies this
      ensures Debit(old(chips), action, require).Rejected? ==>
        err == Some(Debit(old(chips), action, require).err) && chips == old(chips) && sent == action
      ensures Debit(old(chips), action, require).Accepted? ==>
        chips == Debit(old(chips), action, require).stack &&
        sent == Debit(old(chips), action, require).sent &&
        err == (if delivered && channels == Opened then None else Some(ActionTimeout))
      ensures status == old(status) && holeCards == old(holeCards) && released == old(released) && channels == old(channels)
    {
      sent := action;
      if action.typ == Actions.Check || action.typ == Actions.Fold {
      } else if action.typ == Actions.Bet || action.typ == Actions.Raise {
        if require > action.chips || action.chips > chips {
          return sent, Some(NotEnoughChips);
        }
        chips := chips - action.chips;
      } else if action.typ == Actions.Call {
        if require > chips {
          return sent, Some(NotEnoughChips);
        }
        sent := sent.(chips := require);
        chips := chips - require;
      } else if action.typ == AllInAction {
        if chips <= 0 {
          return sent, Some(NotEnoughChips);
        }
        sent := sent.(chips := chips);
        chips := 0;
      } else {
        return sent, Some(InvalidActionType);
      }
      if delivered && channels == Opened {
        err := None;
      } else {
        err := Some(ActionTimeout);
      }
    }

    method Check(require: int, delivered: bool) returns (err: Option<PlayerError>)
      requires channels != Closed
      modifies this
      ensures chips == old(chips) && status == old(status) && holeCards == old(holeCards) && released == old(released) && channels == old(channels)
      ensures err == (if delivered && channels == Opened then None else Some(ActionTimeout))
    {
      var _, e := TakeAction(Action(Actions.Check, 0), require, delivered);
      err := e;
    }

    method Fold(require: int, delivered: bool) returns (err: Option<PlayerError>)
      requires channels != Closed
      modifies this
      ensures chips == old(chips) && status == old(status) && holeCards == old(holeCards) && released == old(released) && channels == old(channels)
      ensures err == (if delivered && channels == Opened then None else Some(ActionTimeout))
    {
      var _, e := TakeAction(Action(Actions.Fold, 0), require, delivered);
      err := e;
    }

    /** Bets `amount`: refused unless require <= amount <= stack, which then drops by exactly `amount`. */
    method Bet(amount: int, require: int, delivered: bool) returns (err: Option<PlayerError>)
      requires require <= amount <= chips ==> channels != Closed
      modifies this
      ensures !(require <= amount <= old(chips)) ==> err == Some(NotEnoughChips) && chips == old(chips)
      ensures require <= amount <= old(chips) ==>
        chips == old(chips) - amount && err == (if delivered && channels == Opened then None else Some(ActionTimeout))
      ensures status == old(status) && holeCards == old(holeCards) && released == old(released) && channels == old(channels)
    {
      var _, e := TakeAction(Action(Actions.Bet, amount), require, delivered);
      err := e;
    }

    /** Raises to `amount`, under the same rule as a bet. */
    method Raise(amount: int, require: int, delivered: bool) returns (err: Option<PlayerError>)
      requires require <= amount <= chips ==> channels != Closed
      modifies this
      ensures !(require <= amount <= old(chips)) ==> err == Some(NotEnoughChips) && chips == old(chips)
      ensures require <= amount <= old(chips) ==>
        chips == old(chips) - amount && err == (if delivered && channels == Opened then None else Some(ActionTimeout))
      ensures status == old(status) && holeCards == old(holeCards) && released == old(released) && channels == old(channels)
    {
      var _, e := TakeAction(Action(Actions.Raise, amount), require, delivered);
      err := e;
    }

    /** Calls: refused when require exceeds the stack, which otherwise drops by exactly require. */
    method Call(require: int, delivered: bool) returns (err: Option<PlayerError>)
      requires require <= chips ==> channels != Closed
      modifies this
      ensures require > old(chips) ==> err == Some(NotEnoughChips) && chips == old(chips)
      ensures require <= old(chips) ==>
        chips == old(chips) - require && err == (if delivered && channels == Opened then None else Some(ActionTimeout))
      ensures status == old(status) && holeCards == old(holeCards) && released == old(released) && channels == old(channels)
    {
      var _, e := TakeAction(Action(Actions.Call, 0), require, delivered);
      err := e;
    }

    /** Goes all in: refused with an empty stack, which otherwise becomes 0. */
    method AllIn(require: int, delivered: bool) returns (err: Option<PlayerError>)
      requires chips > 0 ==> channels != Closed
      modifies this
      ensures old(chips) <= 0 ==> err == Some(NotEnoughChips) && chips == old(chips)
      ensures old(chips) > 0 ==> chips == 0 && err == (if delivered && channels == Opened then None else Some(ActionTimeout))
      ensures status == old(status) && holeCards == old(holeCards) && released == old(released) && channels == old(channels)
    {
      var _, e := TakeAction(Action(AllInAction, 0), require, delivered);
      err := e;
    }

    /** Falls to the chip rules' default case, so it is always refused. */
    method ShowHoleCards(require: int, delivered: bool) returns (err: Option<PlayerError>)
      modifies this
      ensures err == Some(InvalidActionType)
      ensures chips == old(chips) && status == old(status) && holeCards == old(holeCards) && released == old(released) && channels == old(channels)
    {
      assert Debit(chips, Action(Actions.ShowHoleCards, 0), require) == Rejected(InvalidActionType);
      var _, e := TakeAction(Action(Actions.ShowHoleCards, 0), require, delivered);
      err := e;
    }

    /** Falls to the chip rules' default case, so it is always refused. */
    method HideHoleCards(require: int, delivered: bool) returns (err: Option<PlayerError>)
      modifies this
      ensures err == Some(InvalidActionType)
      ensures chips == old(chips) && status == old(status) && holeCards == old(holeCards) && released == old(released) && channels == old(channels)
    {
      assert Debit(chips, Action(Actions.HideHoleCards, 0), require) == Rejected(InvalidActionType);
      var _, e := TakeAction(Action(Actions.HideHoleCards, 0), require, delivered);
      err := e;
    }

    /**
     * Offers the `available` actions (the first is the default) to a waiting
     * player.  `received` is what the player hands over before the timeout,
     * if anything; the outcome is that action or the default, and the
     * player's status becomes the status of its type.  A player who is not
     * waiting gets an error and nothing changes.  A waiting player needs
     * open channels: on closed ones the source's draining never ends, and
     * without channels its offer never goes through.
     */
    method WaitForAction(available: seq<Action>, received: Option<Action>) returns (a: Option<Action>, err: Option<PlayerError>)
      requires status == Waiting ==> |available| > 0 && channels == Opened
      modifies this
      ensures old(status) != Waiting ==> a == None && err == Some(NotWaiting) && status == old(status)
      ensures old(status) == Waiting ==>
        err == None && a == Some(received.GetOr(available[0])) && status == ToStatus(a.value.typ)
      ensures chips == old(chips) && holeCards == old(holeCards) && released == old(released) && channels == old(channels)
    {
      if status != Waiting {
        return None, Some(NotWaiting);
      }
      var action := available[0];
      if received.Some? {
        action := received.value;
      }
      status := ToStatus(action.typ);
      return Some(action), None;
    }
  }
}
