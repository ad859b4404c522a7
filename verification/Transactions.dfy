/**
 Transactions: WithTx (internal/utils/entx/ent_tx.go) over Tx and txDriver (ent/tx.go).  What the
 database itself does on begin, commit and rollback, including its failures, is a parameter.
 */
module Transactions {
  import opened Wrappers
  import opened HookChain

  type Fault = string

  /** What really reached the database, in order. */
  datatype Event = Began | Committed | CommitFailed | RolledBack | RollbackFailed

  /** The durable content, the working copy of the open transaction if there is one, and the events so far. */
  datatype Db<S> = Db(durable: S, working: Option<S>, journal: seq<Event>)

  datatype Faults = Faults(begin: Option<Fault>, commit: Option<Fault>, rollback: Option<Fault>)

  /** How a finisher ends: it returns an error or none, or it panics. */
  datatype Verdict = Report(err: Option<Fault>) | Panic(value: string)

  datatype Ended<S> = Ended(db: Db<S>, verdict: Verdict)

  /** Committer and Rollbacker. */
  type Finisher<!S> = Mutator<Db<S>, Ended<S>>

  type FinishHook<!S> = Hook<Db<S>, Ended<S>>

  const TX_DONE: Fault := "sql: transaction has already been committed or rolled back"

  /** The driver's own commit: the working copy becomes durable, or is lost if the database fails. */
  function RealCommit<S>(fault: Option<Fault>): Finisher<S>
  {
    (d: Db<S>) =>
      if d.working.None? then Ended(d, Report(Some(TX_DONE)))
      else if fault.Some? then Ended(Db(d.durable, None, d.journal + [CommitFailed]), Report(fault))
      else Ended(Db(d.working.value, None, d.journal + [Committed]), Report(None))
  }

  /** The driver's own rollback: the working copy is discarded, even if the database reports a failure. */
  function RealRollback<S>(fault: Option<Fault>): Finisher<S>
  {
    (d: Db<S>) =>
      if d.working.None? then Ended(d, Report(Some(TX_DONE)))
      else Ended(Db(d.durable, None, d.journal + [if fault.Some? then RollbackFailed else RolledBack]), Report(fault))
  }

  // ---------------------------------------------------------------- bodies

  /**
   One thing a body does.  Builders that ask the transactional driver for a transaction of their own
   get the driver itself back, whose Commit and Rollback do nothing.
   */
  datatype Step<!S> =
    | Exec(write: S -> S, fails: Option<Fault>)
    | BuilderCommits
    | BuilderRollsBack
    | OnCommit(hook: FinishHook<S>)
    | OnRollback(hook: FinishHook<S>)
    | Panics(value: string)

  datatype BodyEnd = Done | Returned(err: Fault) | Panicked(value: string)

  datatype TxError = NotStarted(err: Fault) | BodyFailed(err: Fault, rollback: Option<Fault>) | NotCommitted(err: Fault)

  datatype TxOutcome = Success | Failure(err: TxError) | Repanicked(value: string)

  /** How a body ends: the first failing statement returns its error, the first panic unwinds. */
  function End<S>(steps: seq<Step<S>>): BodyEnd
  {
    if steps == [] then Done
    else if steps[0].Exec? && steps[0].fails.Some? then Returned(steps[0].fails.value)
    else if steps[0].Panics? then Panicked(steps[0].value)
    else End(steps[1..])
  }

  /** The writes of a body up to its end, applied to a working copy. */
  function Writes<S>(s: S, steps: seq<Step<S>>): S
    decreases steps
  {
    if steps == [] || steps[0].Panics? then s
    else if steps[0].Exec? then
      if steps[0].fails.Some? then steps[0].write(s) else Writes(steps[0].write(s), steps[1..])
    else Writes(s, steps[1..])
  }

  /** The hooks of one kind a body registers before it ends. */
  function Registered<S>(steps: seq<Step<S>>, commit: bool): seq<FinishHook<S>>
  {
    if steps == [] || steps[0].Panics? || (steps[0].Exec? && steps[0].fails.Some?) then []
    else if commit && steps[0].OnCommit? then [steps[0].hook] + Registered(steps[1..], commit)
    else if !commit && steps[0].OnRollback? then [steps[0].hook] + Registered(steps[1..], commit)
    else Registered(steps[1..], commit)
  }

  /** One more step after a body that got to its end. */
  lemma {:induction false} BodyGrows<S>(s: S, steps: seq<Step<S>>, step: Step<S>)
    requires End(steps) == Done
    ensures End(steps + [step]) == (match step
                                    case Exec(_, fails) => if fails.Some? then Returned(fails.value) else Done
                                    case Panics(value) => Panicked(value)
                                    case _ => Done)
    ensures Writes(s, steps + [step]) == if step.Exec? then step.write(Writes(s, steps)) else Writes(s, steps)
    ensures Registered(steps + [step], true) == Registered(steps, true) + if step.OnCommit? then [step.hook] else []
    ensures Registered(steps + [step], false) == Registered(steps, false) + if step.OnRollback? then [step.hook] else []
    decreases steps
  {
    var all := steps + [step];
    if steps == [] {
      assert all == [step] && [step][1..] == [];
    } else {
      assert all[1..] == steps[1..] + [step];
      BodyGrows(if steps[0].Exec? then steps[0].write(s) else s, steps[1..], step);
    }
  }

  /** Nothing happens after the first error or panic. */
  lemma {:induction false} BodyEnds<S>(s: S, steps: seq<Step<S>>, more: seq<Step<S>>)
    requires End(steps) != Done
    ensures End(steps + more) == End(steps) && Writes(s, steps + more) == Writes(s, steps)
    ensures forall commit: bool :: Registered(steps + more, commit) == Registered(steps, commit)
    decreases steps
  {
    assert (steps + more)[1..] == steps[1..] + more;
    if End(steps) == End(steps[1..]) && !steps[0].Panics? && !(steps[0].Exec? && steps[0].fails.Some?) {
      BodyEnds(if steps[0].Exec? then steps[0].write(s) else s, steps[1..], more);
    }
  }

  // ---------------------------------------------------------------- the objects

  class Database<S> {
    var state: Db<S>
    const faults: Faults

    constructor (durable: S, faults: Faults)
      ensures state == Db(durable, None, []) && this.faults == faults
    {
      this.state, this.faults := Db(durable, None, []), faults;
    }
  }

  /** Tx with its txDriver. */
  class Tx<S> {
    const db: Database<S>
    var onCommit: seq<FinishHook<S>>
    var onRollback: seq<FinishHook<S>>

    constructor (db: Database<S>)
      ensures this.db == db && onCommit == [] && onRollback == []
    {
      this.db, onCommit, onRollback := db, [], [];
    }

    /** txDriver.Commit and txDriver.Rollback, which builders call: nothing happens. */
    method BuilderCommit() returns (err: Option<Fault>)
      ensures err == None
    {
      return None;
    }

    method BuilderRollback() returns (err: Option<Fault>)
      ensures err == None
    {
      return None;
    }

    method Commit() returns (v: Verdict)
      modifies db
      ensures Ended(db.state, v) == Wrapped(onCommit, RealCommit(db.faults.commit))(old(db.state))
    {
      var fn := WrapAll(onCommit, RealCommit(db.faults.commit));
      var ended := fn(db.state);
      db.state := ended.db;
      return ended.verdict;
    }

    method Rollback() returns (v: Verdict)
      modifies db
      ensures Ended(db.state, v) == Wrapped(onRollback, RealRollback(db.faults.rollback))(old(db.state))
    {
      var fn := WrapAll(onRollback, RealRollback(db.faults.rollback));
      var ended := fn(db.state);
      db.state := ended.db;
      return ended.verdict;
    }

    /** The body, run on the open transaction. */
    method Run(steps: seq<Step<S>>) returns (end: BodyEnd)
      requires db.state.working.Some?
      modifies this, db
      ensures end == End(steps)
      ensures db.state == old(db.state).(working := Some(Writes(old(db.state).working.value, steps)))
      ensures onCommit == old(onCommit) + Registered(steps, true)
      ensures onRollback == old(onRollback) + Registered(steps, false)
    {
      var i := 0;
      while i < |steps|
        invariant 0 <= i <= |steps|
        invariant End(steps) == End(steps[i..])
        invariant db.state.working.Some?
        invariant db.state == old(db.state).(working := db.state.working)
        invariant Writes(old(db.state).working.value, steps) == Writes(db.state.working.value, steps[i..])
        invariant old(onCommit) + Registered(steps, true) == onCommit + Registered(steps[i..], true)
        invariant old(onRollback) + Registered(steps, false) == onRollback + Registered(steps[i..], false)
      {
        assert steps[i..][1..] == steps[i + 1..];
        match steps[i] {
          case Exec(write, fails) =>
            db.state := db.state.(working := Some(write(db.state.working.value)));
            if fails.Some? {
              return Returned(fails.value);
            }
          case BuilderCommits =>
            var _ := BuilderCommit();
          case BuilderRollsBack =>
            var _ := BuilderRollback();
          case OnCommit(hook) =>
            onCommit := onCommit + [hook];
          case OnRollback(hook) =>
            onRollback := onRollback + [hook];
          case Panics(value) =>
            return Panicked(value);
        }
        i := i + 1;
      }
      return Done;
    }
  }

  /** WithTx. */
  method WithTx<S>(db: Database<S>, steps: seq<Step<S>>) returns (o: TxOutcome)
    requires db.state.working == None
    modifies db
    ensures (db.state, o) == Transact(old(db.state), db.faults, steps)
    ensures db.faults.begin.Some? ==> o == Failure(NotStarted(db.faults.begin.value)) && db.state == old(db.state)
  {
    if db.faults.begin.Some? {
      return Failure(NotStarted(db.faults.begin.value));
    }
    db.state := Db(db.state.durable, Some(db.state.durable), db.state.journal + [Began]);
    var tx := new Tx(db);
    var end := tx.Run(steps);
    assert tx.onCommit == Registered(steps, true) && tx.onRollback == Registered(steps, false);
    match end {
      case Panicked(value) =>
        o := Rescue(tx, value);
      case Returned(err) =>
        var v := tx.Rollback();
        if v.Panic? {
          o := Rescue(tx, v.value);
        } else {
          o := Failure(BodyFailed(err, v.err));
        }
      case Done =>
        var v := tx.Commit();
        if v.Panic? {
          o := Rescue(tx, v.value);
        } else {
          o := if v.err.Some? then Failure(NotCommitted(v.err.value)) else Success;
        }
    }
  }

  /** The deferred function of WithTx: it rolls back and panics again, unless a rollback hook panics first. */
  method Rescue<S>(tx: Tx<S>, value: string) returns (o: TxOutcome)
    modifies tx.db
    ensures (tx.db.state, o) == Rescued(old(tx.db.state), tx.db.faults, tx.onRollback, value)
  {
    var v := tx.Rollback();
    o := Repanicked(if v.Panic? then v.value else value);
  }

  ghost function Rescued<S>(d: Db<S>, faults: Faults, onRollback: seq<FinishHook<S>>, value: string): (Db<S>, TxOutcome)
  {
    var e := Wrapped(onRollback, RealRollback(faults.rollback))(d);
    (e.db, Repanicked(if e.verdict.Panic? then e.verdict.value else value))
  }

  /** The state and the outcome of WithTx, with whatever the registered hooks do. */
  ghost function Transact<S>(d: Db<S>, faults: Faults, steps: seq<Step<S>>): (Db<S>, TxOutcome)
  {
    if faults.begin.Some? then (d, Failure(NotStarted(faults.begin.value)))
    else Finish(Db(d.durable, Some(Writes(d.durable, steps)), d.journal + [Began]), faults, steps)
  }

  ghost function Finish<S>(body: Db<S>, faults: Faults, steps: seq<Step<S>>): (Db<S>, TxOutcome)
  {
    var onRollback := Registered(steps, false);
    match End(steps)
    case Panicked(value) => Rescued(body, faults, onRollback, value)
    case Returned(err) =>
      (var e := Wrapped(onRollback, RealRollback(faults.rollback))(body);
       if e.verdict.Panic? then Rescued(e.db, faults, onRollback, e.verdict.value)
       else (e.db, Failure(BodyFailed(err, e.verdict.err))))
    case Done =>
      var e := Wrapped(Registered(steps, true), RealCommit(faults.commit))(body);
      if e.verdict.Panic? then Rescued(e.db, faults, onRollback, e.verdict.value)
      else (e.db, if e.verdict.err.Some? then Failure(NotCommitted(e.verdict.err.value)) else Success)
  }

  // ---------------------------------------------------------------- hooks around the finishers

  /** What a hook does once it sees the working copy: call the next finisher, or end by itself. */
  datatype Act = GoOn | Stop(verdict: Verdict)

  /**
   A hook, when the finishing of a transaction reaches it: it may write to the working copy, if the transaction is
   still open; seeing that, it goes on to the next finisher, or stops there with an answer or a panic; and when
   the next finisher returns, it makes its own of the error, or panics.  A panic of the next finisher passes through it.
   */
  datatype Around<!S> = Around(before: S -> S, act: Option<S> -> Act, after: Option<Fault> -> Verdict)

  function AsHook<S>(a: Around<S>): FinishHook<S>
  {
    (next: Finisher<S>) => (d: Db<S>) => Pass(a, next, d)
  }

  function Write<S>(a: Around<S>, w: Option<S>): Option<S>
  {
    if w.Some? then Some(a.before(w.value)) else None
  }

  function After<S>(a: Around<S>, v: Verdict): Verdict
  {
    if v.Panic? then v else a.after(v.err)
  }

  function Pass<S>(a: Around<S>, next: Finisher<S>, d: Db<S>): Ended<S>
  {
    var seen := d.(working := Write(a, d.working));
    match a.act(seen.working)
    case Stop(verdict) => Ended(seen, verdict)
    case GoOn =>
      var e := next(seen);
      Ended(e.db, After(a, e.verdict))
  }

  function AsHooks<S>(hooks: seq<Around<S>>): seq<FinishHook<S>>
  {
    if hooks == [] then [] else [AsHook(hooks[0])] + AsHooks(hooks[1..])
  }

  /** The working copy after the writes of all the hooks, the outermost first. */
  ghost function Carried<S>(hooks: seq<Around<S>>, w: Option<S>): (c: Option<S>)
    ensures c.Some? <==> w.Some?
    decreases hooks
  {
    if hooks == [] then w else Carried(hooks[1..], Write(hooks[0], w))
  }

  /** No hook stops when it sees what it and the hooks outside it have written. */
  ghost predicate AllGoOn<S>(hooks: seq<Around<S>>, w: Option<S>)
  {
    forall i :: 0 <= i < |hooks| ==> hooks[i].act(Carried(hooks[..i + 1], w)) == GoOn
  }

  /** What the hooks together make of the error of the real finisher. */
  function Composed<S>(hooks: seq<Around<S>>, err: Option<Fault>): Verdict
  {
    if hooks == [] then Report(err) else After(hooks[0], Composed(hooks[1..], err))
  }

  /** The working copy they leave behind, and how they end, when one of them stops. */
  ghost function Stopped<S>(hooks: seq<Around<S>>, w: Option<S>): (r: (Option<S>, Verdict))
    ensures r.0.Some? <==> w.Some?
    decreases hooks
  {
    if hooks == [] then (w, Report(None))
    else
      var t := Write(hooks[0], w);
      match hooks[0].act(t)
      case Stop(verdict) => (t, verdict)
      case GoOn =>
        var (left, v) := Stopped(hooks[1..], t);
        (left, After(hooks[0], v))
  }

  lemma {:induction false} AllGoOnStep<S>(hooks: seq<Around<S>>, w: Option<S>)
    requires hooks != []
    ensures var t := Write(hooks[0], w); AllGoOn(hooks, w) <==> hooks[0].act(t) == GoOn && AllGoOn(hooks[1..], t)
  {
    var t, rest := Write(hooks[0], w), hooks[1..];
    assert hooks[..1][1..] == [] && Carried(hooks[..1], w) == t;
    forall i | 1 <= i < |hooks|
      ensures Carried(hooks[..i + 1], w) == Carried(rest[..i], t)
    {
      assert hooks[..i + 1][1..] == rest[..i];
    }
    if hooks[0].act(t) == GoOn && AllGoOn(rest, t) {
      forall i | 0 <= i < |hooks|
        ensures hooks[i].act(Carried(hooks[..i + 1], w)) == GoOn
      {
        if i > 0 {
          assert rest[i - 1].act(Carried(rest[..i - 1 + 1], t)) == GoOn;
          assert Carried(hooks[..i + 1], w) == Carried(rest[..i], t);
        }
      }
    }
    if AllGoOn(hooks, w) {
      assert hooks[0].act(Carried(hooks[..0 + 1], w)) == GoOn;
      forall i | 0 <= i < |rest|
        ensures rest[i].act(Carried(rest[..i + 1], t)) == GoOn
      {
        assert hooks[i + 1].act(Carried(hooks[..i + 1 + 1], w)) == GoOn;
        assert Carried(hooks[..i + 1 + 1], w) == Carried(rest[..i + 1], t);
      }
    }
  }

  /** A finisher that only returns, inside hooks: it runs, once, on everything they wrote exactly when none of them stops. */
  lemma {:induction false} WrappedInHooks<S>(hooks: seq<Around<S>>, fn: Finisher<S>, d: Db<S>)
    requires forall x :: fn(x).verdict.Report?
    ensures AllGoOn(hooks, d.working) ==>
              var e := fn(d.(working := Carried(hooks, d.working)));
              Wrapped(AsHooks(hooks), fn)(d) == Ended(e.db, Composed(hooks, e.verdict.err))
    ensures !AllGoOn(hooks, d.working) ==>
              var (left, v) := Stopped(hooks, d.working);
              Wrapped(AsHooks(hooks), fn)(d) == Ended(d.(working := left), v)
    decreases hooks
  {
    if hooks != [] {
      var t, inner := Write(hooks[0], d.working), Wrapped(AsHooks(hooks[1..]), fn);
      assert AsHooks(hooks)[1..] == AsHooks(hooks[1..]);
      assert Wrapped(AsHooks(hooks), fn) == AsHook(hooks[0])(inner);
      assert Wrapped(AsHooks(hooks), fn)(d) == Pass(hooks[0], inner, d);
      WrappedInHooks(hooks[1..], fn, d.(working := t));
      AllGoOnStep(hooks, d.working);
    }
  }

  // ---------------------------------------------------------------- the outcome of a transaction

  function RollbackEvent(faults: Faults): Event
  {
    if faults.rollback.Some? then RollbackFailed else RolledBack
  }

  /** The event of the finisher that the end of the body calls for. */
  function FinalEvent(end: BodyEnd, faults: Faults): Event
  {
    if end == Done then (if faults.commit.Some? then CommitFailed else Committed) else RollbackEvent(faults)
  }

  /** The body registers just these hooks. */
  ghost predicate Registers<S>(steps: seq<Step<S>>, commits: seq<Around<S>>, rollbacks: seq<Around<S>>)
  {
    Registered(steps, true) == AsHooks(commits) && Registered(steps, false) == AsHooks(rollbacks)
  }

  /** What finishing inside hooks comes to: it gets through to the real finisher, or leaves a working copy behind. */
  datatype Attempt<S> = Attempt(through: bool, left: Option<S>, verdict: Verdict)

  ghost function Tried<S>(hooks: seq<Around<S>>, w: Option<S>, fault: Option<Fault>): Attempt<S>
  {
    if AllGoOn(hooks, w) then Attempt(true, None, Composed(hooks, if w.Some? then fault else Some(TX_DONE)))
    else Attempt(false, Stopped(hooks, w).0, Stopped(hooks, w).1)
  }

  lemma {:induction false} CommitTried<S>(d: Db<S>, hooks: seq<Around<S>>, fault: Option<Fault>)
    ensures var a, e := Tried(hooks, d.working, fault), Wrapped(AsHooks(hooks), RealCommit(fault))(d);
            var ends := a.through && d.working.Some?;
            && e.verdict == a.verdict && e.db.working == a.left
            && e.db.journal == d.journal + (if ends then [if fault.Some? then CommitFailed else Committed] else [])
            && e.db.durable == if ends && fault == None then Carried(hooks, d.working).value else d.durable
  {
    WrappedInHooks(hooks, RealCommit(fault), d);
  }

  lemma {:induction false} RollbackTried<S>(d: Db<S>, hooks: seq<Around<S>>, faults: Faults)
    ensures var a, e := Tried(hooks, d.working, faults.rollback), Wrapped(AsHooks(hooks), RealRollback(faults.rollback))(d);
            && e.verdict == a.verdict && e.db.working == a.left && e.db.durable == d.durable
            && e.db.journal == d.journal + if a.through && d.working.Some? then [RollbackEvent(faults)] else []
  {
    WrappedInHooks(hooks, RealRollback(faults.rollback), d);
  }

  /** The finisher that the end of the body calls for. */
  ghost function FirstTry<S>(end: BodyEnd, s: S, faults: Faults, commits: seq<Around<S>>, rollbacks: seq<Around<S>>): Attempt<S>
  {
    if end == Done then Tried(commits, Some(s), faults.commit) else Tried(rollbacks, Some(s), faults.rollback)
  }

  /** What WithTx reports, given how the first finisher and, after a panic in it, the deferred rollback ended. */
  function Reported(end: BodyEnd, first: Verdict, second: Verdict): TxOutcome
  {
    match end
    case Panicked(value) => Repanicked(if first.Panic? then first.value else value)
    case Returned(err) =>
      if first.Panic? then Repanicked(if second.Panic? then second.value else first.value) else Failure(BodyFailed(err, first.err))
    case Done =>
      if first.Panic? then Repanicked(if second.Panic? then second.value else first.value)
      else if first.err.Some? then Failure(NotCommitted(first.err.value)) else Success
  }

  /**
   Transaction outcome: whatever a body does, whichever no-op finishers its builders call, whatever hooks it
   registers and however it ends, the transaction is over, by exactly one real commit or rollback, if and only if
   no hook around the finisher that the body calls for stops, or one stops with a panic and no hook around the
   deferred rollback stops.  The durable content is then the working copy, with what the hooks wrote, if body and
   database commit succeed, and in every other case the starting content.  The error of the body is kept, joined by
   what the hooks make of that of the rollback; the last panic of body and hooks is passed on.
   */
  lemma {:induction false} TransactionOutcome<S>(d: Db<S>, faults: Faults, steps: seq<Step<S>>,
                                                  commits: seq<Around<S>>, rollbacks: seq<Around<S>>)
    requires faults.begin == None && Registers(steps, commits, rollbacks)
    ensures var (after, o) := Transact(d, faults, steps);
            var end, s := End(steps), Writes(d.durable, steps);
            var first := FirstTry(end, s, faults, commits, rollbacks);
            var second := Tried(rollbacks, first.left, faults.rollback);
            var late := !end.Panicked? && first.verdict.Panic? && !first.through && second.through;
            && (after.working == None <==> first.through || late)
            && after.journal == d.journal + [Began]
                                + (if first.through then [FinalEvent(end, faults)] else if late then [RollbackEvent(faults)] else [])
            && after.durable == (if end == Done && first.through && faults.commit == None then Carried(commits, Some(s)).value else d.durable)
            && o == Reported(end, first.verdict, second.verdict)
  {
    var s := Writes(d.durable, steps);
    var body := Db(d.durable, Some(s), d.journal + [Began]);
    if End(steps) == Done {
      CommitTried(body, commits, faults.commit);
      RollbackTried(Wrapped(AsHooks(commits), RealCommit(faults.commit))(body).db, rollbacks, faults);
    } else {
      RollbackTried(body, rollbacks, faults);
      RollbackTried(Wrapped(AsHooks(rollbacks), RealRollback(faults.rollback))(body).db, rollbacks, faults);
    }
  }

  /** Success is reported exactly if the database committed. */
  ghost predicate Honest<S>(d: Db<S>, faults: Faults, steps: seq<Step<S>>)
  {
    var (after, o) := Transact(d, faults, steps);
    o == Success <==> after.journal == d.journal + [Began, Committed]
  }

  /** The hooks go on and together report success only for success; or one stops, and they do not report success. */
  ghost predicate Truthful<S>(hooks: seq<Around<S>>, s: S)
  {
    if AllGoOn(hooks, Some(s)) then
      Composed(hooks, None) == Report(None) && forall f: Fault :: Composed(hooks, Some(f)) != Report(None)
    else Stopped(hooks, Some(s)).1 != Report(None)
  }

  /** Whether the report is honest under one behaviour of the database. */
  lemma {:induction false} HonestByFault<S>(d: Db<S>, faults: Faults, steps: seq<Step<S>>, commits: seq<Around<S>>, rollbacks: seq<Around<S>>)
    requires faults.begin == None && End(steps) == Done && Registers(steps, commits, rollbacks)
    ensures var s := Writes(d.durable, steps);
            Honest(d, faults, steps) <==>
            if AllGoOn(commits, Some(s)) then Composed(commits, faults.commit) == Report(None) <==> faults.commit == None
            else Stopped(commits, Some(s)).1 != Report(None)
  {
    var s := Writes(d.durable, steps);
    var (after, o) := Transact(d, faults, steps);
    TransactionOutcome(d, faults, steps, commits, rollbacks);
    var committed := d.journal + [Began, Committed];
    assert after.journal == committed <==> AllGoOn(commits, Some(s)) && faults.commit == None by {
      assert |committed| == |d.journal| + 2 && committed[|d.journal| + 1] == Committed;
      if |after.journal| == |d.journal| + 2 {
        assert after.journal[|d.journal| + 1] == if AllGoOn(commits, Some(s)) then FinalEvent(Done, faults) else RollbackEvent(faults);
        assert after.journal[..|d.journal| + 1] == d.journal + [Began];
      }
    }
  }

  /** For a body that succeeds, the report can be trusted under every behaviour of the database exactly when its commit hooks are truthful. */
  lemma {:induction false} HonestIffTruthful<S>(d: Db<S>, steps: seq<Step<S>>, commits: seq<Around<S>>, rollbacks: seq<Around<S>>)
    requires End(steps) == Done && Registers(steps, commits, rollbacks)
    ensures (forall faults: Faults :: faults.begin == None ==> Honest(d, faults, steps)) <==> Truthful(commits, Writes(d.durable, steps))
  {
    forall faults: Faults | faults.begin == None
      ensures var s := Writes(d.durable, steps);
              Honest(d, faults, steps) <==>
              if AllGoOn(commits, Some(s)) then Composed(commits, faults.commit) == Report(None) <==> faults.commit == None
              else Stopped(commits, Some(s)).1 != Report(None)
    {
      HonestByFault(d, faults, steps, commits, rollbacks);
    }
    if forall faults: Faults :: faults.begin == None ==> Honest(d, faults, steps) {
      assert Honest(d, Faults(None, None, None), steps);
      forall f: Fault
        ensures AllGoOn(commits, Some(Writes(d.durable, steps))) ==> Composed(commits, Some(f)) != Report(None)
      {
        assert Honest(d, Faults(None, Some(f), None), steps);
      }
    }
  }

  /** Hooks that always go on and pass success on as success and errors on as errors are truthful. */
  lemma {:induction false} PassingOnIsTruthful<S(!new)>(hooks: seq<Around<S>>, s: S)
    requires forall i, w :: 0 <= i < |hooks| ==> hooks[i].act(w) == GoOn
    requires forall i, err :: 0 <= i < |hooks| ==> hooks[i].after(err).Report? && (hooks[i].after(err).err == None <==> err == None)
    ensures Truthful(hooks, s)
  {
    forall err
      ensures Composed(hooks, err) == Report(None) <==> err == None
    {
      ComposedPassesOn(hooks, err);
    }
  }

  lemma {:induction false} ComposedPassesOn<S>(hooks: seq<Around<S>>, err: Option<Fault>)
    requires forall i, e :: 0 <= i < |hooks| ==> hooks[i].after(e).Report? && (hooks[i].after(e).err == None <==> e == None)
    ensures Composed(hooks, err).Report? && (Composed(hooks, err).err == None <==> err == None)
  {
    if hooks != [] {
      ComposedPassesOn(hooks[1..], err);
    }
  }

  // ---------------------------------------------------------------- hooks that break the law

  /** A hook that never calls the next finisher. */
  function Stopping<S>(verdict: Verdict): Around<S>
  {
    Around(s => s, w => Stop(verdict), err => Report(err))
  }

  /** A hook that ends in its own way once the next finisher is done. */
  function Ending<S>(verdict: Verdict): Around<S>
  {
    Around(s => s, w => GoOn, err => verdict)
  }

  /** One write, under one commit hook. */
  function HookedBody<S>(hook: Around<S>, write: S -> S): seq<Step<S>>
  {
    [OnCommit(AsHook(hook)), Exec(write, None)]
  }

  /** What becomes of it in a database without failures. */
  lemma {:induction false} HookedBodyOutcome<S>(d: Db<S>, hook: Around<S>, write: S -> S)
    ensures var body := HookedBody(hook, write);
            End(body) == Done && Writes(d.durable, body) == write(d.durable) && Registers(body, [hook], [])
    ensures forall s :: AllGoOn([hook], s) <==> hook.act(Write(hook, s)) == GoOn
    ensures forall s :: Carried([hook], s) == Write(hook, s)
    ensures Composed([hook], None) == hook.after(None)
    ensures forall s, v :: hook.act(Write(hook, s)) == Stop(v) ==> Stopped([hook], s) == (Write(hook, s), v)
  {
    var body := HookedBody(hook, write);
    var last := body[1..];
    assert last == [Exec(write, None)] && last[1..] == [];
    assert End(last[1..]) == Done && End(last) == Done && Writes(write(d.durable), last[1..]) == write(d.durable);
    assert Registered(last[1..], true) == [] && Registered(last, true) == [];
    assert Registered(last[1..], false) == [] && Registered(last, false) == [];
    assert [hook][1..] == [] && AsHooks([hook][1..]) == [];
    assert Composed([hook][1..], None) == Report(None);
    forall s
      ensures AllGoOn([hook], s) <==> hook.act(Write(hook, s)) == GoOn
      ensures Carried([hook], s) == Write(hook, s)
    {
      AllGoOnStep([hook], s);
      assert Carried([hook][1..], Write(hook, s)) == Write(hook, s);
    }
  }

  /** A stopping hook without an error: success is reported, nothing was committed, the transaction is still open. */
  lemma {:induction false} SwallowedCommit<S>(d: Db<S>, write: S -> S)
    ensures var (after, o) := Transact(d, Faults(None, None, None), HookedBody(Stopping(Report(None)), write));
            o == Success && after.durable == d.durable && after.working.Some? && after.journal == d.journal + [Began]
  {
    HookedBodyOutcome(d, Stopping(Report(None)), write);
    TransactionOutcome(d, Faults(None, None, None), HookedBody(Stopping(Report(None)), write), [Stopping(Report(None))], []);
  }

  /** A stopping hook with an error: it is reported, but nothing was rolled back either and the transaction is still open. */
  lemma {:induction false} VetoedCommit<S>(d: Db<S>, veto: Fault, write: S -> S)
    ensures var (after, o) := Transact(d, Faults(None, None, None), HookedBody(Stopping(Report(Some(veto))), write));
            && o == Failure(NotCommitted(veto))
            && after.durable == d.durable && after.working.Some? && after.journal == d.journal + [Began]
  {
    HookedBodyOutcome(d, Stopping(Report(Some(veto))), write);
    TransactionOutcome(d, Faults(None, None, None), HookedBody(Stopping(Report(Some(veto))), write), [Stopping(Report(Some(veto)))], []);
  }

  /** A hook that panics before the commit: the deferred rollback ends the transaction. */
  lemma {:induction false} PanicBeforeCommit<S>(d: Db<S>, value: string, write: S -> S)
    ensures var (after, o) := Transact(d, Faults(None, None, None), HookedBody(Stopping(Panic(value)), write));
            o == Repanicked(value) && after.durable == d.durable && after.working == None && after.journal == d.journal + [Began, RolledBack]
  {
    HookedBodyOutcome(d, Stopping(Panic(value)), write);
    TransactionOutcome(d, Faults(None, None, None), HookedBody(Stopping(Panic(value)), write), [Stopping(Panic(value))], []);
    assert d.journal + [Began] + [RolledBack] == d.journal + [Began, RolledBack];
  }

  /** A hook that ends with an error or a panic of its own after the commit: it is passed on although the durable content already is the working copy. */
  lemma {:induction false} LateComplaint<S>(d: Db<S>, complaint: Verdict, write: S -> S)
    requires complaint != Report(None)
    ensures var (after, o) := Transact(d, Faults(None, None, None), HookedBody(Ending(complaint), write));
            && o == (if complaint.Panic? then Repanicked(complaint.value) else Failure(NotCommitted(complaint.err.value)))
            && after.durable == write(d.durable) && after.working == None && after.journal == d.journal + [Began, Committed]
  {
    HookedBodyOutcome(d, Ending(complaint), write);
    TransactionOutcome(d, Faults(None, None, None), HookedBody(Ending(complaint), write), [Ending(complaint)], []);
    assert d.journal + [Began] + [Committed] == d.journal + [Began, Committed];
  }
}
