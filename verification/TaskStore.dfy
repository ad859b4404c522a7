/**
 Tasks and their logs in a database without foreign keys (internal/logic/base/init_database_logic.go
 creates the schema WithForeignKeys(false)): only the order and the atomicity of the code's own
 statements keep log-to-task references valid.
 */
module TaskStore {
  import opened Wrappers
  import opened EdgeMutation
  import opened Transactions

  /** Each table maps ids to rows; a task's row is its name, a log's row its task reference. */
  datatype Tables = Tables(tasks: map<int, string>, logs: map<int, Option<int>>)

  /** Every log refers to no task or to an existing one. */
  ghost predicate Intact(t: Tables)
  {
    forall l :: l in t.logs && t.logs[l].Some? ==> t.logs[l].value in t.tasks
  }

  /** HasTasksWith(IDIn(ids)): the join with the task table, so a dangling reference never matches. */
  predicate BelongsTo(t: Tables, log: int, ids: set<int>)
    requires log in t.logs
  {
    t.logs[log].Some? && t.logs[log].value in t.tasks && t.logs[log].value in ids
  }

  function WithoutLogsOf(t: Tables, ids: set<int>): Tables
  {
    t.(logs := map l | l in t.logs && !BelongsTo(t, l, ids) :: t.logs[l])
  }

  function WithoutTasks(t: Tables, ids: set<int>): Tables
  {
    t.(tasks := t.tasks - ids)
  }

  /** The body of DeleteTask: the logs first, then the tasks; either statement may fail. */
  function DeleteSteps(ids: set<int>, first: Option<Fault>, second: Option<Fault>): seq<Step<Tables>>
  {
    [Exec((t: Tables) => WithoutLogsOf(t, ids), first), Exec((t: Tables) => WithoutTasks(t, ids), second)]
  }

  lemma {:induction false} DeleteStepsEnd(t: Tables, ids: set<int>, first: Option<Fault>, second: Option<Fault>)
    ensures End(DeleteSteps(ids, first, second)) ==
            if first.Some? then Returned(first.value) else if second.Some? then Returned(second.value) else Done
    ensures first == None && second == None ==>
              Writes(t, DeleteSteps(ids, first, second)) == WithoutTasks(WithoutLogsOf(t, ids), ids)
    ensures Registers(DeleteSteps(ids, first, second), [], [])
  {
    var steps := DeleteSteps(ids, first, second);
    var last := steps[1..];
    assert last == [steps[1]] && last[1..] == [];
    assert End(last[1..]) == Done;
    assert forall commit: bool :: Registered(last[1..], commit) == [] && Registered(last, commit) == [];
    assert End(last) == if second.Some? then Returned(second.value) else Done;
    assert Writes(WithoutLogsOf(t, ids), last) == WithoutTasks(WithoutLogsOf(t, ids), ids);
  }

  /** What is left when exactly the tasks with these ids and their logs are gone. */
  ghost function Purged(t: Tables, ids: set<int>): Tables
  {
    Tables(t.tasks - ids, map l | l in t.logs && !(t.logs[l].Some? && t.logs[l].value in ids) :: t.logs[l])
  }

  lemma {:induction false} DeleteIsPurge(t: Tables, ids: set<int>)
    requires Intact(t)
    ensures WithoutTasks(WithoutLogsOf(t, ids), ids) == Purged(t, ids)
    ensures Intact(Purged(t, ids))
  {
  }

  /** In the other order the logs of deleted tasks no longer match the join and stay behind. */
  lemma {:induction false} OrderMatters(t: Tables, ids: set<int>)
    requires Intact(t)
    ensures Intact(WithoutLogsOf(WithoutTasks(t, ids), ids)) <==>
            forall l :: l in t.logs && t.logs[l].Some? ==> t.logs[l].value !in ids
  {
    var swapped := WithoutLogsOf(WithoutTasks(t, ids), ids);
    forall l | l in t.logs
      ensures l in swapped.logs && swapped.logs[l] == t.logs[l]
    {
    }
  }

  /** DeleteTask: all or nothing, and exactly the named tasks and their logs. */
  method DeleteTask(db: Database<Tables>, ids: seq<int>, first: Option<Fault>, second: Option<Fault>) returns (o: TxOutcome)
    requires db.state.working == None && Intact(db.state.durable)
    modifies db
    ensures db.state.working == None && Intact(db.state.durable)
    ensures db.state.durable == if o == Success then Purged(old(db.state.durable), set i | 0 <= i < |ids| :: ids[i])
                                else old(db.state.durable)
    ensures o == Success <==> db.faults.begin == None && first == None && second == None && db.faults.commit == None
    ensures o == Success ==>
              var before, after := old(db.state.durable), db.state.durable;
              && (forall id :: id in after.tasks <==> id in before.tasks && id !in ids)
              && (forall id :: id in after.tasks ==> after.tasks[id] == before.tasks[id])
              && (forall l :: l in after.logs <==> l in before.logs && !(before.logs[l].Some? && before.logs[l].value in ids))
              && (forall l :: l in after.logs ==> after.logs[l] == before.logs[l])
  {
    var chosen := set i | 0 <= i < |ids| :: ids[i];
    ghost var before := db.state;
    var steps := DeleteSteps(chosen, first, second);
    o := WithTx(db, steps);
    DeleteStepsEnd(before.durable, chosen, first, second);
    DeleteIsPurge(before.durable, chosen);
    if db.faults.begin == None {
      TransactionOutcome(before, db.faults, steps, [], []);
    }
  }

  // ---------------------------------------------------------------- runs

  /** `faults`, `first` and `second` say which statements of a deletion fail. */
  datatype Op =
    | CreateTask(id: int, name: string)
    | CreateLog(id: int, fk: Option<int>)
    | DeleteLogs(ids: set<int>)
    | DeleteTasks(ids: set<int>, first: Option<Fault>, second: Option<Fault>, faults: Faults)
    | UpdateTaskLogs(task: int, calls: seq<Call>)

  ghost function LogsOf(t: Tables, task: int): set<int>
  {
    set l | l in t.logs && t.logs[l] == Some(task)
  }

  /** The update spec compiled from the edge calls, applied to one task. */
  ghost function Relinked(t: Tables, task: int, spec: EdgeSpec): Tables
  {
    var after := ApplySpec(LogsOf(t, task), spec);
    t.(logs := map l | l in t.logs :: if l in after then Some(task)
                                      else if t.logs[l] == Some(task) then None else t.logs[l])
  }

  /** One operation; the database refuses duplicate ids but checks no reference. */
  ghost function After(t: Tables, op: Op): Tables
  {
    match op
    case CreateTask(id, name) => if id in t.tasks then t else t.(tasks := t.tasks[id := name])
    case CreateLog(id, fk) => if id in t.logs then t else t.(logs := t.logs[id := fk])
    case DeleteLogs(ids) => t.(logs := t.logs - ids)
    case DeleteTasks(ids, first, second, faults) =>
      Transact(Db(t, None, []), faults, DeleteSteps(ids, first, second)).0.durable
    case UpdateTaskLogs(task, calls) =>
      if task !in t.tasks then t else Relinked(t, task, Compile(EdgeMutation.Run(calls)))
  }

  /** What each operation changes, row by row. */
  lemma {:induction false} OperationEffect(t: Tables, op: Op)
    ensures op.CreateTask? ==>
              After(t, op).logs == t.logs && op.id in After(t, op).tasks && After(t, op).tasks - {op.id} == t.tasks - {op.id}
              && After(t, op).tasks[op.id] == if op.id in t.tasks then t.tasks[op.id] else op.name
    ensures op.CreateLog? ==>
              After(t, op).tasks == t.tasks && op.id in After(t, op).logs && After(t, op).logs - {op.id} == t.logs - {op.id}
              && After(t, op).logs[op.id] == if op.id in t.logs then t.logs[op.id] else op.fk
    ensures op.DeleteLogs? ==>
              && After(t, op).tasks == t.tasks
              && forall l :: (l in After(t, op).logs <==> l in t.logs && l !in op.ids) && (l in After(t, op).logs ==> After(t, op).logs[l] == t.logs[l])
    ensures op.UpdateTaskLogs? ==> After(t, op).tasks == t.tasks && After(t, op).logs.Keys == t.logs.Keys
    ensures op.UpdateTaskLogs? && op.task !in t.tasks ==> After(t, op) == t
    ensures op.UpdateTaskLogs? && op.task in t.tasks ==>
              forall l :: l in t.logs ==>
                var linked := l in Compiled(LogsOf(t, op.task), op.calls);
                After(t, op).logs[l] == if linked then Some(op.task) else if t.logs[l] == Some(op.task) then None else t.logs[l]
  {
  }

  /** A log is created for no task or for one that exists at that moment. */
  ghost predicate Guarded(t: Tables, op: Op)
  {
    op.CreateLog? && op.id !in t.logs && op.fk.Some? ==> op.fk.value in t.tasks
  }

  ghost function StateAfter(t: Tables, ops: seq<Op>): Tables
  {
    if ops == [] then t else After(StateAfter(t, ops[..|ops| - 1]), ops[|ops| - 1])
  }

  lemma {:induction false} DeleteOutcome(t: Tables, ids: set<int>, first: Option<Fault>, second: Option<Fault>, faults: Faults)
    requires Intact(t)
    ensures After(t, DeleteTasks(ids, first, second, faults)) ==
            if faults.begin == None && first == None && second == None && faults.commit == None then Purged(t, ids) else t
  {
    var steps := DeleteSteps(ids, first, second);
    DeleteStepsEnd(t, ids, first, second);
    DeleteIsPurge(t, ids);
    if faults.begin == None {
      TransactionOutcome(Db(t, None, []), faults, steps, [], []);
    }
  }

  /** Whatever the operation and its failures, integrity survives exactly when no log is created for a missing task. */
  lemma {:induction false} StepKeepsIntegrityIff(t: Tables, op: Op)
    requires Intact(t)
    ensures Intact(After(t, op)) <==> Guarded(t, op)
  {
    match op {
      case CreateTask(id, name) =>
      case CreateLog(id, fk) =>
        if id !in t.logs && !Guarded(t, op) {
          assert After(t, op).logs[id] == fk;
        }
      case DeleteLogs(ids) =>
      case DeleteTasks(ids, first, second, faults) =>
        DeleteOutcome(t, ids, first, second, faults);
        DeleteIsPurge(t, ids);
      case UpdateTaskLogs(task, calls) =>
    }
  }

  /** `p` holds of the run at every moment, from before its first operation to its end. */
  ghost predicate Throughout(p: seq<Op> -> bool, ops: seq<Op>)
  {
    forall k :: 0 <= k <= |ops| ==> p(ops[..k])
  }

  lemma {:induction false} ThroughoutStep(p: seq<Op> -> bool, ops: seq<Op>)
    requires ops != []
    ensures Throughout(p, ops) <==> Throughout(p, ops[..|ops| - 1]) && p(ops)
  {
    var n := |ops| - 1;
    var front := ops[..n];
    assert ops[..|ops|] == ops;
    assert forall k :: 0 <= k <= n ==> front[..k] == ops[..k];
    if Throughout(p, front) && p(ops) {
      forall k | 0 <= k <= |ops|
        ensures p(ops[..k])
      {
        assert k <= n ==> p(front[..k]);
      }
    }
  }

  /** Two properties that agree at the start and wherever the first held a moment ago hold throughout together. */
  lemma {:induction false} SameThroughout(p: seq<Op> -> bool, q: seq<Op> -> bool, ops: seq<Op>)
    requires p([]) && q([])
    requires forall run: seq<Op> :: run != [] && p(run[..|run| - 1]) ==> (p(run) <==> q(run))
    ensures Throughout(p, ops) <==> Throughout(q, ops)
  {
    if ops == [] {
      assert ops[..0] == [];
    } else {
      var front := ops[..|ops| - 1];
      SameThroughout(p, q, front);
      ThroughoutStep(p, ops);
      ThroughoutStep(q, ops);
      assert front[..|front|] == front;
      assert Throughout(p, front) ==> p(front[..|front|]);
    }
  }

  ghost function IntactAfter(t: Tables): seq<Op> -> bool
  {
    ops => Intact(StateAfter(t, ops))
  }

  /** The last operation of the run was guarded in the state it met. */
  ghost function GuardedLast(t: Tables): seq<Op> -> bool
  {
    ops => ops == [] || Guarded(StateAfter(t, ops[..|ops| - 1]), ops[|ops| - 1])
  }

  /**
   Over every run of task and log creations, log deletions, task deletions with any failures and
   edge updates: all states on the way are intact exactly when every log was created for no task
   or for one that existed at that moment.
   */
  lemma {:induction false} RunIntactIffGuarded(t: Tables, ops: seq<Op>)
    requires Intact(t)
    ensures Throughout(IntactAfter(t), ops) <==> Throughout(GuardedLast(t), ops)
  {
    var p, q := IntactAfter(t), GuardedLast(t);
    forall run: seq<Op> | run != [] && p(run[..|run| - 1])
      ensures p(run) <==> q(run)
    {
      LastOperation(t, run);
    }
    SameThroughout(p, q, ops);
  }

  lemma {:induction false} LastOperation(t: Tables, ops: seq<Op>)
    requires ops != [] && IntactAfter(t)(ops[..|ops| - 1])
    ensures IntactAfter(t)(ops) <==> GuardedLast(t)(ops)
  {
    var n := |ops| - 1;
    StepKeepsIntegrityIff(StateAfter(t, ops[..n]), ops[n]);
  }

  /** A run that is not guarded: a handler that remembers a task's id logs for it after the task was deleted. */
  lemma {:induction false} RememberedTaskBreaksIntegrity(name: string)
    ensures var ok := Faults(None, None, None);
            !Intact(StateAfter(Tables(map[], map[]), [CreateTask(1, name), DeleteTasks({1}, None, None, ok), CreateLog(1, Some(1))]))
  {
    var ok := Faults(None, None, None);
    var empty := Tables(map[], map[]);
    var ops := [CreateTask(1, name), DeleteTasks({1}, None, None, ok), CreateLog(1, Some(1))];
    var two := ops[..2];
    assert two[..1] == [ops[0]] && two[..1][..0] == [];
    assert StateAfter(empty, two[..1]) == Tables(map[1 := name], map[]);
    DeleteOutcome(Tables(map[1 := name], map[]), {1}, None, None, ok);
    assert StateAfter(empty, two) == Purged(Tables(map[1 := name], map[]), {1});
    assert ops[2] == CreateLog(1, Some(1)) && StateAfter(empty, ops) == After(StateAfter(empty, two), ops[2]);
    assert 1 in StateAfter(empty, ops).logs;
  }
}
