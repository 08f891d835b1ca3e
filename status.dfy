/**
 * The stage a round is in.  Like the source, a status is a plain integer
 * with named constants, ordered Invalid < Ready < Start < PreFlop < Flop <
 * Turn < River < Showdown < End, and compared by that encoding.
 */
module RoundStatus {

  type Status = int

  const Invalid: Status := 0
  const Ready: Status := 1
  const Start: Status := 2
  const PreFlop: Status := 3
  const Flop: Status := 4
  const Turn: Status := 5
  const River: Status := 6
  const Showdown: Status := 7
  const End: Status := 8

  /** Ready falls through to the default case and prints as "Invalid", like every unnamed value. */
  function String(s: Status): (r: string)
    ensures Start <= s <= End <==> r != "Invalid"
    ensures s == Ready ==> r == "Invalid"
  {
    if s == Start then "Start"
    else if s == PreFlop then "PreFlop"
    else if s == Flop then "Flop"
    else if s == Turn then "Turn"
    else if s == River then "River"
    else if s == Showdown then "Showdown"
    else if s == End then "End"
    else "Invalid"
  }

  /** The printed names of Start..End are pairwise different. */
  lemma StringInjective(a: Status, b: Status)
    requires Start <= a <= End && Start <= b <= End
    requires String(a) == String(b)
    ensures a == b
  {
  }

  predicate After(s: Status, other: Status) {
    s > other
  }

  predicate Before(s: Status, other: Status) {
    s < other
  }

  /** After and Before are mirror images, strict, and one of them or equality holds for any pair. */
  lemma OrderFacts(a: Status, b: Status)
    ensures After(a, b) <==> Before(b, a)
    ensures !After(a, a) && !Before(a, a)
    ensures After(a, b) || Before(a, b) || a == b
    ensures !(After(a, b) && Before(a, b))
  {
  }

  /** The named statuses are listed in ascending order. */
  lemma OrderChain()
    ensures Before(Invalid, Ready) && Before(Ready, Start) && Before(Start, PreFlop) && Before(PreFlop, Flop)
    ensures Before(Flop, Turn) && Before(Turn, River) && Before(River, Showdown) && Before(Showdown, End)
  {
  }

  /** The stage after `s` on the chain Start..End; everything else has none (Invalid). */
  function Next(s: Status): (r: Status)
    ensures Start <= s < End ==> r == s + 1 && After(r, s)
    ensures !(Start <= s < End) ==> r == Invalid
  {
    if s == Start then PreFlop
    else if s == PreFlop then Flop
    else if s == Flop then Turn
    else if s == Turn then River
    else if s == River then Showdown
    else if s == Showdown then End
    else Invalid
  }

  /**
   * The stage before `s`: one step back from End down to PreFlop, except
   * that Showdown has none and End goes back to River, skipping Showdown.
   */
  function Previous(s: Status): (r: Status)
    ensures PreFlop <= s <= River ==> r == s - 1 && Before(r, s)
    ensures s == End ==> r == River
    ensures !(PreFlop <= s <= River) && s != End ==> r == Invalid
  {
    if s == End then River
    else if s == River then Turn
    else if s == Turn then Flop
    else if s == Flop then PreFlop
    else if s == PreFlop then Start
    else Invalid
  }

  /** Previous undoes Next from Start up to Turn; from River and Showdown it does not. */
  lemma PreviousUndoesNext(s: Status)
    ensures Start <= s <= Turn ==> Previous(Next(s)) == s
    ensures s == River ==> Previous(Next(s)) == Invalid
    ensures s == Showdown ==> Previous(Next(s)) == River
  {
  }

  /** Next undoes Previous from Flop up to River; End goes back to River, whose successor is Showdown. */
  lemma NextUndoesPrevious(s: Status)
    ensures Flop <= s <= River ==> Next(Previous(s)) == s
    ensures s == PreFlop ==> Next(Previous(s)) == PreFlop
    ensures s == End ==> Next(Previous(s)) == Showdown
  {
  }

  /** Walking Next from Start reaches End after six steps, through every stage in order. */
  lemma NextWalk()
    ensures Next(Start) == PreFlop && Next(Next(Start)) == Flop
    ensures Next(Next(Next(Start))) == Turn && Next(Next(Next(Next(Start)))) == River
    ensures Next(Next(Next(Next(Next(Start))))) == Showdown
    ensures Next(Next(Next(Next(Next(Next(Start)))))) == End
    ensures Next(End) == Invalid && Next(Ready) == Invalid && Next(Invalid) == Invalid
  {
  }
}
