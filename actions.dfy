/**
 * What a player can do and what state a player is in.  Action types are
 * plain integers with named constants, as in the source; a player's status
 * is one datatype holding both the lifecycle states (Idle, Ready, Waiting,
 * WaitingToAct, TakingAction) and the per-street outcomes (Folded, Checked,
 * Betted, Raised, Called, AllIn).
 */
module Actions {

  type ActionType = int

  const InvalidAction: ActionType := 0
  const Check: ActionType := 1
  const Fold: ActionType := 2
  const Bet: ActionType := 3
  const Call: ActionType := 4
  const Raise: ActionType := 5
  const AllInAction: ActionType := 6
  const ShowHoleCards: ActionType := 7
  const HideHoleCards: ActionType := 8

  predicate IsDefined(t: ActionType) {
    Check <= t <= HideHoleCards
  }

  /** An action and, for Bet, Call and Raise, its chips. */
  datatype Action = Action(typ: ActionType, chips: int)

  datatype PlayerStatus =
    | Idle
    | Ready
    | Waiting
    | WaitingToAct
    | TakingAction
    | Folded
    | Checked
    | Betted
    | Raised
    | Called
    | AllIn
    | InvalidStatus

  /** The action's name; any value that is not a defined action prints as "Invalid". */
  function String(t: ActionType): (s: string)
    ensures IsDefined(t) <==> s != "Invalid"
    ensures IsDefined(t) ==> FromString(s) == t
  {
    if t == Check then "Check"
    else if t == Fold then "Fold"
    else if t == Bet then "Bet"
    else if t == Call then "Call"
    else if t == Raise then "Raise"
    else if t == AllInAction then "AllIn"
    else if t == ShowHoleCards then "ShowHoleCards"
    else if t == HideHoleCards then "HideHoleCards"
    else "Invalid"
  }

  /** Reads an action type back from its name (Invalid for anything else). */
  function FromString(s: string): ActionType {
    if s == "Check" then Check
    else if s == "Fold" then Fold
    else if s == "Bet" then Bet
    else if s == "Call" then Call
    else if s == "Raise" then Raise
    else if s == "AllIn" then AllInAction
    else if s == "ShowHoleCards" then ShowHoleCards
    else if s == "HideHoleCards" then HideHoleCards
    else InvalidAction
  }

  /** Distinct defined actions have distinct names. */
  lemma StringInjective(a: ActionType, b: ActionType)
    requires IsDefined(a) && IsDefined(b) && String(a) == String(b)
    ensures a == b
  {
    assert FromString(String(a)) == a && FromString(String(b)) == b;
  }

  /**
   * The status a player is left in after taking an action of type `t`:
   * folding folds, going all in is all in, every other defined action waits
   * to act again, and anything undefined goes back to Ready.
   */
  function ToStatus(t: ActionType): (st: PlayerStatus)
    ensures st == Folded <==> t == Fold
    ensures st == AllIn <==> t == AllInAction
    ensures st == WaitingToAct <==> IsDefined(t) && t != Fold && t != AllInAction
    ensures st == Ready <==> !IsDefined(t)
  {
    if t == Check || t == Bet || t == Raise || t == Call || t == ShowHoleCards || t == HideHoleCards then WaitingToAct
    else if t == Fold then Folded
    else if t == AllInAction then AllIn
    else Ready
  }
}
