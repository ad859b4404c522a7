/**
 Hooks around mutations: the hook combinators and Chain of ent/hook/hook.go, and withHooks of
 ent/ent.go.  A mutator takes the state of the world with the mutation and gives the new state
 with the outcome, so hooks may have effects.
 */
module HookChain {
  import opened Wrappers

  type Mutator<!M, !R> = M -> R

  type Hook<!M, !R> = Mutator<M, R> -> Mutator<M, R>

  /** `m` inside all the hooks, the first one outermost. */
  ghost function Wrapped<M, R>(hooks: seq<Hook<M, R>>, m: Mutator<M, R>): Mutator<M, R>
  {
    if hooks == [] then m else hooks[0](Wrapped(hooks[1..], m))
  }

  /** Chains act on mutators as a monoid: concatenation is composition and the empty chain does nothing. */
  lemma {:induction false} WrappedConcat<M, R>(a: seq<Hook<M, R>>, b: seq<Hook<M, R>>, m: Mutator<M, R>)
    ensures Wrapped(a + b, m) == Wrapped(a, Wrapped(b, m))
  {
    if a == [] {
      assert a + b == b;
    } else {
      assert (a + b)[1..] == a[1..] + b;
      WrappedConcat(a[1..], b, m);
    }
  }

  /** The loop that Chain.Hook and withHooks share: from the last hook to the first. */
  method WrapAll<M, R>(hooks: seq<Hook<M, R>>, mutator: Mutator<M, R>) returns (m: Mutator<M, R>)
    ensures m == Wrapped(hooks, mutator)
  {
    m := mutator;
    var i := |hooks|;
    while i > 0
      invariant 0 <= i <= |hooks|
      invariant m == Wrapped(hooks[i..], mutator)
    {
      i := i - 1;
      assert hooks[i..][1..] == hooks[i + 1..];
      m := hooks[i](m);
    }
    assert hooks[0..] == hooks;
  }

  /** A chain owns its backing array: no caller's slice and no other chain shares it. */
  class Chain<M, R> {
    const hooks: array<Hook<M, R>>

    /** NewChain copies its arguments. */
    constructor (given: array<Hook<M, R>>)
      ensures fresh(hooks) && hooks[..] == given[..]
    {
      var list := given[..];
      hooks := new Hook<M, R>[|list|](i requires 0 <= i < |list| => list[i]);
      new;
      assert hooks[..] == list;
    }

    /** Hook, applied to a mutator. */
    method Hook(mutator: Mutator<M, R>) returns (m: Mutator<M, R>)
      ensures m == Wrapped(hooks[..], mutator)
    {
      m := WrapAll(hooks[..], mutator);
    }

    /** Append writes a new array, so neither this chain nor `more` changes, now or through the result. */
    method Append(more: array<Hook<M, R>>) returns (c: Chain<M, R>)
      ensures fresh(c) && fresh(c.hooks) && c.hooks[..] == hooks[..] + more[..]
    {
      var list := hooks[..] + more[..];
      var both := new Hook<M, R>[|list|](i requires 0 <= i < |list| => list[i]);
      assert both[..] == list;
      c := new Chain(both);
    }

    /** Extending by a chain is applying that chain's hook first and this chain's around it. */
    method Extend(chain: Chain<M, R>) returns (c: Chain<M, R>)
      ensures fresh(c) && fresh(c.hooks)
      ensures forall m :: Wrapped(c.hooks[..], m) == Wrapped(hooks[..], Wrapped(chain.hooks[..], m))
    {
      c := Append(chain.hooks);
      forall m: Mutator<M, R>
        ensures Wrapped(c.hooks[..], m) == Wrapped(hooks[..], Wrapped(chain.hooks[..], m))
      {
        WrappedConcat(hooks[..], chain.hooks[..], m);
      }
    }
  }

  // ---------------------------------------------------------------- conditional hooks

  type Condition<!M> = M -> bool

  function If<M, R>(hk: Hook<M, R>, cond: Condition<M>): Hook<M, R>
  {
    (next: Mutator<M, R>) => (m: M) => if cond(m) then hk(next)(m) else next(m)
  }

  /** Reject: a fixed error for every mutation of the rejected kind, everything else passes. */
  function Reject<M, R>(rejected: Condition<M>, error: R): Hook<M, R>
  {
    If((next: Mutator<M, R>) => (m: M) => error, rejected)
  }

  /** And: the two fixed conditions, then the rest until one fails. */
  method And<M>(first: Condition<M>, second: Condition<M>, rest: seq<Condition<M>>, m: M) returns (b: bool)
    ensures b <==> first(m) && second(m) && forall i :: 0 <= i < |rest| ==> rest[i](m)
  {
    if !first(m) || !second(m) {
      return false;
    }
    for i := 0 to |rest|
      invariant forall j :: 0 <= j < i ==> rest[j](m)
    {
      if !rest[i](m) {
        return false;
      }
    }
    return true;
  }

  /** Or: the two fixed conditions, then the rest until one holds. */
  method Or<M>(first: Condition<M>, second: Condition<M>, rest: seq<Condition<M>>, m: M) returns (b: bool)
    ensures b <==> first(m) || second(m) || exists i :: 0 <= i < |rest| && rest[i](m)
  {
    if first(m) || second(m) {
      return true;
    }
    for i := 0 to |rest|
      invariant forall j :: 0 <= j < i ==> !rest[j](m)
    {
      if rest[i](m) {
        return true;
      }
    }
    return false;
  }

  /** The mutators cannot be told apart by mutations that satisfy `c`. */
  ghost predicate AgreeOn<M(!new), R>(c: Condition<M>, p: Mutator<M, R>, q: Mutator<M, R>)
  {
    forall m :: c(m) ==> p(m) == q(m)
  }

  /** On mutations that satisfy `c` the hook calls its next mutator, if at all, with such mutations only. */
  ghost predicate StaysWithin<M(!new), R(!new)>(c: Condition<M>, h: Hook<M, R>)
  {
    forall p: Mutator<M, R>, q: Mutator<M, R> :: AgreeOn(c, p, q) ==> AgreeOn(c, h(p), h(q))
  }

  lemma {:induction false} WrappedAgree<M(!new), R(!new)>(c: Condition<M>, hooks: seq<Hook<M, R>>, p: Mutator<M, R>, q: Mutator<M, R>)
    requires AgreeOn(c, p, q) && forall i :: 0 <= i < |hooks| ==> StaysWithin(c, hooks[i])
    ensures AgreeOn(c, Wrapped(hooks, p), Wrapped(hooks, q))
  {
    if hooks != [] {
      WrappedAgree(c, hooks[1..], p, q);
      assert StaysWithin(c, hooks[0]);
    }
  }

  /**
   Reject blocks: behind hooks that keep the kind of the mutation, the outcome of a rejected
   mutation depends neither on the executor nor on any hook after the rejecting one.
   */
  lemma {:induction false} RejectBlocks<M(!new), R(!new)>(before: seq<Hook<M, R>>, rejected: Condition<M>, error: R,
                                       after: seq<Hook<M, R>>, other: seq<Hook<M, R>>, p: Mutator<M, R>, q: Mutator<M, R>)
    requires forall i :: 0 <= i < |before| ==> StaysWithin(rejected, before[i])
    ensures AgreeOn(rejected, Wrapped(before + [Reject(rejected, error)] + after, p),
                    Wrapped(before + [Reject(rejected, error)] + other, q))
  {
    var r := [Reject(rejected, error)];
    WrappedConcat(before + r, after, p);
    WrappedConcat(before + r, other, q);
    WrappedConcat(before, r, Wrapped(after, p));
    WrappedConcat(before, r, Wrapped(other, q));
    assert r[1..] == [];
    WrappedAgree(rejected, before, Wrapped(r, Wrapped(after, p)), Wrapped(r, Wrapped(other, q)));
  }

  /** Reject refuses exactly the mutations of the rejected kind; for all others the chain is as if it were not there. */
  lemma {:induction false} RejectsOnly<M, R>(rejected: Condition<M>, error: R, after: seq<Hook<M, R>>, p: Mutator<M, R>, m: M)
    ensures Wrapped([Reject(rejected, error)] + after, p)(m) == if rejected(m) then error else Wrapped(after, p)(m)
  {
    assert ([Reject(rejected, error)] + after)[1..] == after;
  }

  // ---------------------------------------------------------------- withHooks

  /** A mutation as hooks see it: of the builder's type, or not. */
  datatype AnyMutation<M> = Typed(m: M) | Other

  /** A value as hooks return it: of the builder's type, or not. */
  datatype AnyValue<V> = Node(v: V) | OtherValue

  datatype HookError<E> = UninitializedHook | UnexpectedMutation | UnexpectedNode | Failed(e: E)

  /** The builder's mutation, which the innermost mutator overwrites, and everything else. */
  datatype World<M, S> = World(mutation: M, rest: S)

  datatype Request<M, S> = Request(world: World<M, S>, mutation: AnyMutation<M>)

  datatype Reply<M, S, V, E> = Reply(world: World<M, S>, result: Result<AnyValue<V>, HookError<E>>)

  datatype Outcome<M, S, V, E> = Outcome(world: World<M, S>, result: Result<V, HookError<E>>)

  type Executor<!M, !S, !V, !E> = World<M, S> -> Outcome<M, S, V, E>

  type BuilderHook<!M, !S, !V, !E> = Hook<Request<M, S>, Reply<M, S, V, E>>

  /** The innermost mutator: it takes over the mutation it is handed and runs the builder. */
  function Innermost<M, S, V, E>(exec: Executor<M, S, V, E>): Mutator<Request<M, S>, Reply<M, S, V, E>>
  {
    (r: Request<M, S>) =>
      if r.mutation.Other? then Reply(r.world, Err(UnexpectedMutation))
      else
        var o := exec(r.world.(mutation := r.mutation.m));
        Reply(o.world, if o.result.Ok? then Ok(Node(o.result.value)) else Err(o.result.error))
  }

  /** The type assertion on what came back. */
  function Unpack<M, S, V, E>(r: Reply<M, S, V, E>): Outcome<M, S, V, E>
  {
    Outcome(r.world,
            if r.result.Err? then Err(r.result.error)
            else if r.result.value.OtherValue? then Err(UnexpectedNode)
            else Ok(r.result.value.v))
  }

  ghost function Present<H>(hooks: seq<Option<H>>): seq<H>
    requires forall i :: 0 <= i < |hooks| ==> hooks[i].Some?
  {
    seq(|hooks|, i requires 0 <= i < |hooks| => hooks[i].value)
  }

  /**
   withHooks: agrees with the single chain of the same hooks around the innermost mutator, with or
   without hooks; a hook that was never initialised stops everything before anything runs.
   */
  method WithHooks<M, S, V, E>(exec: Executor<M, S, V, E>, world: World<M, S>, hooks: seq<Option<BuilderHook<M, S, V, E>>>)
    returns (o: Outcome<M, S, V, E>)
    ensures (exists i :: 0 <= i < |hooks| && hooks[i] == None) ==> o == Outcome(world, Err(UninitializedHook))
    ensures (forall i :: 0 <= i < |hooks| ==> hooks[i].Some?) ==>
              o == Unpack(Wrapped(Present(hooks), Innermost(exec))(Request(world, Typed(world.mutation))))
    ensures hooks == [] ==> o == exec(world)
  {
    if |hooks| == 0 {
      return exec(world);
    }
    var mut := Innermost(exec);
    var i := |hooks|;
    while i > 0
      invariant 0 <= i <= |hooks|
      invariant forall j :: i <= j < |hooks| ==> hooks[j].Some?
      invariant mut == Wrapped(Present(hooks[i..]), Innermost(exec))
    {
      i := i - 1;
      if hooks[i].None? {
        return Outcome(world, Err(UninitializedHook));
      }
      assert Present(hooks[i..])[1..] == Present(hooks[i + 1..]);
      mut := hooks[i].value(mut);
    }
    assert hooks[0..] == hooks;
    return Unpack(mut(Request(world, Typed(world.mutation))));
  }

  /** A hook that hands on another mutation than it was given. */
  function Replacing<M, S, V, E>(mutation: AnyMutation<M>): BuilderHook<M, S, V, E>
  {
    (next: Mutator<Request<M, S>, Reply<M, S, V, E>>) => (r: Request<M, S>) => next(Request(r.world, mutation))
  }

  /** A hook that answers without calling the next mutator. */
  function Answering<M, S, V, E>(result: Result<AnyValue<V>, HookError<E>>): BuilderHook<M, S, V, E>
  {
    (next: Mutator<Request<M, S>, Reply<M, S, V, E>>) => (r: Request<M, S>) => Reply(r.world, result)
  }

  /** The builder runs on the mutation that reaches it, whatever it was called with, and refuses one of another type. */
  lemma {:induction false} ReplacedMutationRuns<M, S, V, E>(exec: Executor<M, S, V, E>, world: World<M, S>, m: M)
    ensures Unpack(Wrapped([Replacing(Typed(m))], Innermost(exec))(Request(world, Typed(world.mutation)))) == exec(World(m, world.rest))
    ensures Unpack(Wrapped([Replacing(Other)], Innermost(exec))(Request(world, Typed(world.mutation)))) == Outcome(world, Err(UnexpectedMutation))
  {
    assert [Replacing<M, S, V, E>(Typed(m))][1..] == [] && [Replacing<M, S, V, E>(Other)][1..] == [];
    assert world.(mutation := m) == World(m, world.rest);
  }

  /** A hook's own answer is passed on without running the builder, unless it is a value of another type. */
  lemma {:induction false} AnswerIsPassedOn<M, S, V, E>(exec: Executor<M, S, V, E>, world: World<M, S>, v: V, e: HookError<E>)
    ensures Unpack(Wrapped([Answering(Ok(Node(v)))], Innermost(exec))(Request(world, Typed(world.mutation)))) == Outcome(world, Ok(v))
    ensures Unpack(Wrapped([Answering(Err(e))], Innermost(exec))(Request(world, Typed(world.mutation)))) == Outcome(world, Err(e))
    ensures Unpack(Wrapped([Answering(Ok(OtherValue))], Innermost(exec))(Request(world, Typed(world.mutation))))
            == Outcome(world, Err(UnexpectedNode))
  {
  }
}
