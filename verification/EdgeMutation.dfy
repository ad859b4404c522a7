/**
 The edge part of a mutation (RelayChainMutation.tokens, TaskMutation.task_logs) and its
 compilation into an update spec by sqlSave.
 */
module EdgeMutation {
  import opened Ordering
  import opened Runs

  /** A Go map used as a set, which may be nil. */
  datatype IdSet = Nil | Ids(members: set<int>)
  {
    function Members(): set<int>
    {
      if Nil? then {} else members
    }
  }

  datatype Call = Add(ids: seq<int>) | Remove(ids: seq<int>) | Clear | Reset

  datatype Edges = Edges(added: IdSet, removed: IdSet, cleared: bool)

  const FRESH := Edges(Nil, Nil, false)

  function ToSet(ids: seq<int>): set<int>
  {
    set i | 0 <= i < |ids| :: ids[i]
  }

  function Apply(e: Edges, c: Call): Edges
  {
    match c
    case Add(ids) => e.(added := Ids(e.added.Members() + ToSet(ids)))
    case Remove(ids) =>
      e.(added := if e.added.Nil? then Nil else Ids(e.added.members - ToSet(ids)),
         removed := Ids(e.removed.Members() + ToSet(ids)))
    case Clear => e.(cleared := true)
    case Reset => FRESH
  }

  /** The edge state after a sequence of calls on a fresh mutation. */
  ghost function Run(calls: seq<Call>): Edges
  {
    if calls == [] then FRESH else Apply(Run(calls[..|calls| - 1]), calls[|calls| - 1])
  }

  // ---------------------------------------------------------------- the mutation object and its builder

  /** sqlgraph's edge part of an update: `clear` entries are applied before `add` entries. */
  datatype ClearSpec = ClearAll | ClearIds(ids: set<int>)

  datatype EdgeSpec = EdgeSpec(clear: seq<ClearSpec>, add: seq<set<int>>)

  class Mutation {
    var tokens: IdSet
    var removedtokens: IdSet
    var clearedtokens: bool

    ghost function State(): Edges
      reads this
    {
      Edges(tokens, removedtokens, clearedtokens)
    }

    constructor ()
      ensures State() == Run([])
    {
      tokens, removedtokens, clearedtokens := Nil, Nil, false;
    }

    method AddTokenIDs(ids: seq<int>)
      modifies this`tokens
      ensures State() == Apply(old(State()), Add(ids))
    {
      if tokens.Nil? {
        tokens := Ids({});
      }
      for i := 0 to |ids|
        invariant tokens == Ids(old(tokens.Members()) + ToSet(ids[..i]))
      {
        tokens := Ids(tokens.members + {ids[i]});
      }
      assert ids[..|ids|] == ids;
    }

    method ClearTokens()
      modifies this`clearedtokens
      ensures State() == Apply(old(State()), Clear)
    {
      clearedtokens := true;
    }

    method RemoveTokenIDs(ids: seq<int>)
      modifies this`tokens, this`removedtokens
      ensures State() == Apply(old(State()), Remove(ids))
    {
      if removedtokens.Nil? {
        removedtokens := Ids({});
      }
      for i := 0 to |ids|
        invariant tokens == if old(tokens).Nil? then Nil else Ids(old(tokens).members - ToSet(ids[..i]))
        invariant removedtokens == Ids(old(removedtokens.Members()) + ToSet(ids[..i]))
      {
        if tokens.Ids? {
          tokens := Ids(tokens.members - {ids[i]});
        }
        removedtokens := Ids(removedtokens.members + {ids[i]});
      }
      assert ids[..|ids|] == ids;
    }

    method ResetTokens()
      modifies this`tokens, this`removedtokens, this`clearedtokens
      ensures State() == Apply(old(State()), Reset)
    {
      tokens, clearedtokens, removedtokens := Nil, false, Nil;
    }

    /** The edge part of sqlSave. */
    method CompileEdges() returns (spec: EdgeSpec)
      ensures spec == Compile(State())
    {
      spec := EdgeSpec([], []);
      if clearedtokens {
        spec := spec.(clear := spec.clear + [ClearAll]);
      }
      var nodes := removedtokens.Members();
      if nodes != {} && !clearedtokens {
        spec := spec.(clear := spec.clear + [ClearIds(nodes)]);
      }
      nodes := tokens.Members();
      if nodes != {} {
        spec := spec.(add := spec.add + [nodes]);
      }
    }
  }

  function Compile(e: Edges): EdgeSpec
  {
    EdgeSpec(if e.cleared then [ClearAll] else if e.removed.Members() != {} then [ClearIds(e.removed.Members())] else [],
             if e.added.Members() != {} then [e.added.Members()] else [])
  }

  // ---------------------------------------------------------------- what the database does with a spec

  ghost function ApplyClears(linked: set<int>, clears: seq<ClearSpec>): set<int>
    decreases clears
  {
    if clears == [] then linked
    else ApplyClears(match clears[0] case ClearAll => {} case ClearIds(ids) => linked - ids, clears[1..])
  }

  ghost function ApplyAdds(linked: set<int>, adds: seq<set<int>>): set<int>
    decreases adds
  {
    if adds == [] then linked else ApplyAdds(linked + adds[0], adds[1..])
  }

  /** UpdateNode: all clears, then all adds. */
  ghost function ApplySpec(linked: set<int>, spec: EdgeSpec): set<int>
  {
    ApplyAdds(ApplyClears(linked, spec.clear), spec.add)
  }

  lemma {:induction false} SpecMeaning(linked: set<int>, e: Edges)
    ensures ApplySpec(linked, Compile(e)) ==
            (if e.cleared then {} else linked - e.removed.Members()) + e.added.Members()
  {
    var clears, adds := Compile(e).clear, Compile(e).add;
    var kept := if e.cleared then {} else linked - e.removed.Members();
    assert ApplyClears(linked, clears) == kept by {
      assert clears != [] ==> clears[1..] == [];
    }
    assert ApplyAdds(kept, adds) == kept + e.added.Members() by {
      assert adds != [] ==> adds[1..] == [];
    }
  }

  // ---------------------------------------------------------------- which id ends up where

  predicate Mentions(c: Call, id: int)
  {
    (c.Add? || c.Remove?) && id in c.ids
  }

  function Adds(id: int): Call -> bool
  {
    (c: Call) => c.Add? && id in c.ids
  }

  function Removes(id: int): Call -> bool
  {
    (c: Call) => c.Remove? && id in c.ids
  }

  function RemovesOrResets(id: int): Call -> bool
  {
    (c: Call) => c.Reset? || (c.Remove? && id in c.ids)
  }

  function IsClear(): Call -> bool
  {
    (c: Call) => c.Clear?
  }

  function IsReset(): Call -> bool
  {
    (c: Call) => c.Reset?
  }

  /**
   An id is in the added set exactly when its last Add or Remove since the last Reset was an Add;
   it is in the removed set exactly when it was ever removed since then; the edge counts as
   cleared exactly when Clear was called since then.
   */
  lemma {:induction false} LastWordWins(calls: seq<Call>, id: int)
    ensures id in Run(calls).added.Members() <==> exists i :: Stands(calls, i, Adds(id), RemovesOrResets(id))
    ensures id in Run(calls).removed.Members() <==> exists i :: Stands(calls, i, Removes(id), IsReset())
    ensures Run(calls).cleared <==> exists i :: Stands(calls, i, IsClear(), IsReset())
  {
    if calls != [] {
      LastWordWins(calls[..|calls| - 1], id);
      StandsStep(calls, Adds(id), RemovesOrResets(id));
      StandsStep(calls, Removes(id), IsReset());
      StandsStep(calls, IsClear(), IsReset());
    }
  }

  function IsAdd(): Call -> bool
  {
    (c: Call) => c.Add?
  }

  function IsRemove(): Call -> bool
  {
    (c: Call) => c.Remove?
  }

  /** AddedEdges and RemovedEdges list the edge once Add or Remove was called since the last Reset, even with no ids. */
  lemma {:induction false} EdgeListed(calls: seq<Call>)
    ensures Run(calls).added != Nil <==> exists i :: Stands(calls, i, IsAdd(), IsReset())
    ensures Run(calls).removed != Nil <==> exists i :: Stands(calls, i, IsRemove(), IsReset())
  {
    if calls != [] {
      EdgeListed(calls[..|calls| - 1]);
      StandsStep(calls, IsAdd(), IsReset());
      StandsStep(calls, IsRemove(), IsReset());
    }
  }

  // ---------------------------------------------------------------- the spec and the calls

  /** The calls after the last Reset. */
  ghost function SinceReset(calls: seq<Call>): seq<Call>
  {
    if calls == [] || calls[|calls| - 1].Reset? then []
    else SinceReset(calls[..|calls| - 1]) + [calls[|calls| - 1]]
  }

  /** The linked ids if every call since the last Reset were written to the database at once. */
  ghost function Replay(linked: set<int>, calls: seq<Call>): set<int>
  {
    if calls == [] || calls[|calls| - 1].Reset? then linked
    else Write(Replay(linked, calls[..|calls| - 1]), calls[|calls| - 1])
  }

  ghost function Write(linked: set<int>, c: Call): set<int>
  {
    match c
    case Add(ids) => linked + ToSet(ids)
    case Remove(ids) => linked - ToSet(ids)
    case Clear => {}
    case Reset => linked
  }

  function NotClear(): Call -> bool
  {
    (c: Call) => !c.Clear?
  }

  /** The same calls with every Clear moved to the front. */
  ghost function ClearsFirst(calls: seq<Call>): seq<Call>
  {
    Filter(IsClear(), calls) + Filter(NotClear(), calls)
  }

  lemma {:induction false} ReplayAppend(linked: set<int>, a: seq<Call>, b: seq<Call>)
    requires forall i :: 0 <= i < |b| ==> !b[i].Reset?
    ensures Replay(linked, a + b) == Replay(Replay(linked, a), b)
    decreases |b|
  {
    if b == [] {
      assert a + b == a;
    } else {
      assert (a + b)[..|a + b| - 1] == a + b[..|b| - 1];
      ReplayAppend(linked, a, b[..|b| - 1]);
    }
  }

  lemma {:induction false} ReplayClears(linked: set<int>, calls: seq<Call>)
    requires forall i :: 0 <= i < |calls| ==> calls[i].Clear?
    ensures Replay(linked, calls) == if calls == [] then linked else {}
  {
  }

  lemma {:induction false} FilterLast(p: Call -> bool, calls: seq<Call>)
    requires calls != []
    ensures var n := |calls| - 1;
            Filter(p, calls) == if p(calls[n]) then Filter(p, calls[..n]) + [calls[n]] else Filter(p, calls[..n])
  {
    var n := |calls| - 1;
    FilterAppend(p, calls[..n], [calls[n]]);
    assert calls == calls[..n] + [calls[n]];
  }

  lemma {:induction false} FilterSome(p: Call -> bool, calls: seq<Call>)
    ensures forall i :: 0 <= i < |Filter(p, calls)| ==> p(Filter(p, calls)[i]) && Filter(p, calls)[i] in calls
  {
    FilterKeeps(p, calls);
    assert forall i :: 0 <= i < |Filter(p, calls)| ==> Filter(p, calls)[i] in Filter(p, calls);
  }

  predicate NoReset(calls: seq<Call>)
  {
    forall i :: 0 <= i < |calls| ==> !calls[i].Reset?
  }

  /** One more call at the end, with the Clears in front. */
  lemma {:induction false} ClearsFirstStep(linked: set<int>, calls: seq<Call>)
    requires calls != [] && NoReset(calls)
    ensures var n := |calls| - 1;
            var before, last := Replay(linked, ClearsFirst(calls[..n])), calls[n];
            Replay(linked, ClearsFirst(calls)) ==
            if last.Clear? then Replay({}, Filter(NotClear(), calls[..n])) else Replay(before, [last])
  {
    var n := |calls| - 1;
    var front, last := calls[..n], calls[n];
    FilterLast(IsClear(), calls);
    FilterLast(NotClear(), calls);
    var cs, rest := Filter(IsClear(), calls), Filter(NotClear(), calls);
    FilterSome(IsClear(), calls);
    FilterSome(NotClear(), calls);
    FilterSome(NotClear(), front);
    ReplayAppend(linked, cs, rest);
    ReplayClears(linked, cs);
    if !last.Clear? {
      var rest' := Filter(NotClear(), front);
      ReplayAppend(linked, cs, rest');
      ReplayAppend(Replay(linked, cs), rest', [last]);
    }
  }

  /** What the clear-then-add spec leaves linked. */
  ghost function Compiled(linked: set<int>, calls: seq<Call>): set<int>
  {
    ApplySpec(linked, Compile(Run(calls)))
  }

  lemma {:induction false} AddedIsReplayed(calls: seq<Call>)
    requires NoReset(calls)
    ensures Run(calls).added.Members() == Replay({}, Filter(NotClear(), calls))
  {
    if calls != [] {
      var n := |calls| - 1;
      AddedIsReplayed(calls[..n]);
      FilterLast(NotClear(), calls);
      FilterSome(NotClear(), calls[..n]);
      if !calls[n].Clear? {
        ReplayAppend({}, Filter(NotClear(), calls[..n]), [calls[n]]);
        ReplayOne(Replay({}, Filter(NotClear(), calls[..n])), calls[n]);
      }
    }
  }

  lemma {:induction false} ReplayOne(linked: set<int>, c: Call)
    ensures Replay(linked, [c]) == Write(linked, c)
  {
    assert [c][..0] == [];
  }

  lemma {:induction false} CompiledWithoutReset(linked: set<int>, calls: seq<Call>)
    requires NoReset(calls)
    ensures Compiled(linked, calls) == Replay(linked, ClearsFirst(calls))
  {
    SpecMeaning(linked, Run(calls));
    if calls == [] {
      assert ClearsFirst([]) == [];
    } else {
      var n := |calls| - 1;
      var front, last := calls[..n], calls[n];
      CompiledWithoutReset(linked, front);
      SpecMeaning(linked, Run(front));
      ClearsFirstStep(linked, calls);
      AddedIsReplayed(front);
      ReplayOne(Replay(linked, ClearsFirst(front)), last);
    }
  }

  lemma {:induction false} ResetForgets(calls: seq<Call>)
    ensures Run(SinceReset(calls)) == Run(calls) && NoReset(SinceReset(calls))
  {
    if calls != [] && !calls[|calls| - 1].Reset? {
      var n := |calls| - 1;
      ResetForgets(calls[..n]);
      var s := SinceReset(calls);
      assert s[..|s| - 1] == SinceReset(calls[..n]);
    }
  }

  /**
   Faithful compilation: the spec has the effect of replaying the calls since the last Reset, one
   by one, on the old links, with all Clears moved to the front.
   */
  lemma {:induction false} CompiledIsReplay(linked: set<int>, calls: seq<Call>)
    ensures Compiled(linked, calls) == Replay(linked, ClearsFirst(SinceReset(calls)))
  {
    ResetForgets(calls);
    CompiledWithoutReset(linked, SinceReset(calls));
  }

  // ---------------------------------------------------------------- when moving the Clears does not matter

  /** A Clear comes while `id` is pending as added, and nothing mentions `id` afterwards. */
  ghost predicate ClearedTooLate(calls: seq<Call>, id: int)
  {
    exists j :: OverlooksAt(calls, j, id)
  }

  ghost predicate OverlooksAt(calls: seq<Call>, j: int, id: int)
  {
    && 0 <= j < |calls| && calls[j].Clear?
    && id in Run(calls[..j]).added.Members()
    && forall k :: j < k < |calls| ==> !Mentions(calls[k], id)
  }

  lemma {:induction false} OverlooksStep(calls: seq<Call>, id: int)
    requires calls != []
    ensures var n := |calls| - 1;
            ClearedTooLate(calls, id) <==>
            (calls[n].Clear? && id in Run(calls[..n]).added.Members())
            || (!Mentions(calls[n], id) && ClearedTooLate(calls[..n], id))
  {
    var n := |calls| - 1;
    forall j | 0 <= j < n
      ensures OverlooksAt(calls, j, id) <==> OverlooksAt(calls[..n], j, id) && !Mentions(calls[n], id)
    {
      assert calls[..n][..j] == calls[..j];
      assert forall k :: 0 <= k < n ==> calls[..n][k] == calls[k];
    }
    assert OverlooksAt(calls, n, id) <==> calls[n].Clear? && id in Run(calls[..n]).added.Members();
    if ClearedTooLate(calls[..n], id) && !Mentions(calls[n], id) {
      var j :| OverlooksAt(calls[..n], j, id);
      assert OverlooksAt(calls, j, id);
    }
  }

  lemma {:induction false} CompiledDiffers(linked: set<int>, calls: seq<Call>, id: int)
    requires NoReset(calls)
    ensures id in Compiled(linked, calls) <==> id in Replay(linked, calls) || ClearedTooLate(calls, id)
    ensures ClearedTooLate(calls, id) ==> id in Run(calls).added.Members() && id !in Replay(linked, calls)
  {
    SpecMeaning(linked, Run(calls));
    if calls != [] {
      var n := |calls| - 1;
      CompiledDiffers(linked, calls[..n], id);
      SpecMeaning(linked, Run(calls[..n]));
      OverlooksStep(calls, id);
    }
  }

  /** The spec equals the plain replay exactly when no Clear comes after an Add that is still pending and never mentioned again. */
  lemma {:induction false} PlainReplayIff(linked: set<int>, calls: seq<Call>)
    ensures Compiled(linked, calls) == Replay(linked, SinceReset(calls)) <==>
            forall id :: !ClearedTooLate(SinceReset(calls), id)
  {
    var s := SinceReset(calls);
    ResetForgets(calls);
    var compiled, plain := Compiled(linked, calls), Replay(linked, s);
    if forall id :: !ClearedTooLate(s, id) {
      forall id
        ensures id in compiled <==> id in plain
      {
        CompiledDiffers(linked, s, id);
      }
      assert compiled == plain;
    } else {
      var id :| ClearedTooLate(s, id);
      CompiledDiffers(linked, s, id);
    }
  }

  /** A difference: adding 7 and then clearing leaves 7 linked. */
  lemma {:induction false} ClearAfterAddKeeps()
    ensures 7 in Compiled({}, [Add([7]), Clear]) && 7 !in Replay({}, [Add([7]), Clear])
  {
    var calls := [Add([7]), Clear];
    assert calls[..1] == [Add([7])] && [Add([7])][..0] == [];
    assert [7][0] in ToSet([7]);
    SpecMeaning({}, Run(calls));
  }
}
