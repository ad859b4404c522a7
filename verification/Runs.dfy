/** What the last relevant call of a sequence decides. */
module Runs {

  /** Call `i` satisfies `p`, and nothing undoes it later. */
  ghost predicate Stands<C>(calls: seq<C>, i: int, p: C -> bool, undo: C -> bool)
  {
    0 <= i < |calls| && p(calls[i]) && forall j :: i < j < |calls| ==> !undo(calls[j])
  }

  lemma {:induction false} StandsStep<C>(calls: seq<C>, p: C -> bool, undo: C -> bool)
    requires calls != []
    ensures var n := |calls| - 1;
            (exists i :: Stands(calls, i, p, undo)) <==>
            p(calls[n]) || (!undo(calls[n]) && exists i :: Stands(calls[..n], i, p, undo))
  {
    var n := |calls| - 1;
    if p(calls[n]) {
      assert Stands(calls, n, p, undo);
    }
    forall i | Stands(calls[..n], i, p, undo) && !undo(calls[n])
      ensures Stands(calls, i, p, undo)
    {
      forall j | i < j < |calls|
        ensures !undo(calls[j])
      {
        assert j < n ==> calls[..n][j] == calls[j];
      }
    }
    forall i | Stands(calls, i, p, undo) && i < n
      ensures Stands(calls[..n], i, p, undo) && !undo(calls[n])
    {
    }
  }

  /** Some call satisfies `p`. */
  ghost predicate Occurs<C>(calls: seq<C>, p: C -> bool)
  {
    exists i :: 0 <= i < |calls| && p(calls[i])
  }

  lemma {:induction false} OccursStep<C>(calls: seq<C>, p: C -> bool)
    requires calls != []
    ensures var n := |calls| - 1; Occurs(calls, p) <==> p(calls[n]) || Occurs(calls[..n], p)
  {
    var n := |calls| - 1;
    if Occurs(calls[..n], p) {
      var i :| 0 <= i < n && p(calls[..n][i]);
      assert p(calls[i]);
    }
  }
}
