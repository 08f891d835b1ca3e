/** Facts about finite sets used to pick elements out of a map's keys. */
module Sets {

  /** A set of integers that is not empty has an element. */
  lemma NonEmptyHasInt(xs: set<int>)
    requires xs != {}
    ensures exists x :: x in xs
  {
    if forall x :: x !in xs {
      assert false;
    }
  }

  /** A set of strings that is not empty has an element. */
  lemma NonEmptyHasString(xs: set<string>)
    requires xs != {}
    ensures exists x :: x in xs
  {
    if forall x :: x !in xs {
      assert false;
    }
  }

  /** A finite non-empty set of integers has a least element. */
  lemma {:induction false} HasMin(xs: set<int>) returns (v: int)
    requires xs != {}
    ensures v in xs && forall w :: w in xs ==> v <= w
    decreases xs
  {
    NonEmptyHasInt(xs);
    var x :| x in xs;
    var rest := xs - {x};
    if rest == {} {
      v := x;
    } else {
      var y := HasMin(rest);
      v := if x <= y then x else y;
    }
    forall w | w in xs
      ensures v <= w
    {
      assert w == x || w in rest;
    }
  }

  lemma MinExists(xs: set<int>)
    requires xs != {}
    ensures exists v :: v in xs && forall w :: w in xs ==> v <= w
  {
    var v := HasMin(xs);
  }
}
