/**
 Eager loading of the one-to-many edge between tasks and task logs, in both directions
 (loadTaskLogs in ent/task_query.go, loadTasks in ent/tasklog_query.go).
 */
module EagerLoad {
  import opened Wrappers
  import opened Ordering

  datatype TaskRow = TaskRow(id: int, name: string)

  /** `fk` is the nullable column task_task_logs. */
  datatype LogRow = LogRow(id: int, fk: Option<int>)

  class Task {
    const row: TaskRow
    var logs: seq<TaskLog>

    constructor (row: TaskRow)
      ensures this.row == row && logs == []
    {
      this.row, logs := row, [];
    }
  }

  class TaskLog {
    const row: LogRow
    var task: Task?

    constructor (row: LogRow)
      ensures this.row == row && task == null
    {
      this.row, task := row, null;
    }
  }

  /** A query fails with whatever the database says. */
  type QueryFault = string

  datatype LoadError = QueryFailed(fault: QueryFault) | NilKey(log: int) | UnexpectedKey(fk: int)

  function LogRows(nodes: seq<TaskLog>): seq<LogRow>
  {
    seq(|nodes|, i requires 0 <= i < |nodes| => nodes[i].row)
  }

  function TaskRows(nodes: seq<Task>): seq<TaskRow>
  {
    seq(|nodes|, i requires 0 <= i < |nodes| => nodes[i].row)
  }

  function Refers(id: int): LogRow -> bool
  {
    (r: LogRow) => r.fk == Some(id)
  }

  function NodeRefers(id: int): TaskLog -> bool
  {
    (n: TaskLog) => n.row.fk == Some(id)
  }

  predicate UniqueIds(rows: seq<TaskRow>)
  {
    forall i, j :: 0 <= i < j < |rows| ==> rows[i].id != rows[j].id
  }

  lemma {:induction false} SelectingNodesSelectsRows(id: int, nodes: seq<TaskLog>)
    ensures LogRows(Filter(NodeRefers(id), nodes)) == Filter(Refers(id), LogRows(nodes))
  {
    if nodes != [] {
      SelectingNodesSelectsRows(id, nodes[1..]);
      assert LogRows(nodes) == [nodes[0].row] + LogRows(nodes[1..]);
    }
  }

  // ---------------------------------------------------------------- queries for the neighbours

  function KeyIn(fks: seq<int>): LogRow -> bool
  {
    (r: LogRow) => r.fk.Some? && r.fk.value in fks
  }

  function IdIn(ids: seq<int>): TaskRow -> bool
  {
    (r: TaskRow) => r.id in ids
  }

  /** All on a log query: a fresh node per selected row, in order. */
  method AllLogs(rows: seq<LogRow>) returns (nodes: seq<TaskLog>)
    ensures LogRows(nodes) == rows && Distinct(nodes)
    ensures forall i :: 0 <= i < |nodes| ==> fresh(nodes[i]) && nodes[i].task == null
  {
    nodes := [];
    for i := 0 to |rows|
      invariant LogRows(nodes) == rows[..i] && Distinct(nodes)
      invariant forall j :: 0 <= j < |nodes| ==> fresh(nodes[j]) && nodes[j].task == null
    {
      var node := new TaskLog(rows[i]);
      nodes := nodes + [node];
    }
  }

  method AllTasks(rows: seq<TaskRow>) returns (nodes: seq<Task>)
    ensures TaskRows(nodes) == rows && Distinct(nodes)
    ensures forall i :: 0 <= i < |nodes| ==> fresh(nodes[i]) && nodes[i].logs == []
  {
    nodes := [];
    for i := 0 to |rows|
      invariant TaskRows(nodes) == rows[..i] && Distinct(nodes)
      invariant forall j :: 0 <= j < |nodes| ==> fresh(nodes[j]) && nodes[j].logs == []
    {
      var node := new Task(rows[i]);
      nodes := nodes + [node];
    }
  }

  // ---------------------------------------------------------------- from tasks to their logs

  /** `at` gives, for every id that occurs, the last position it occurs at. */
  ghost predicate IsIndex(nodes: seq<Task>, at: map<int, nat>)
  {
    && (forall i :: 0 <= i < |nodes| ==> nodes[i].row.id in at && i <= at[nodes[i].row.id])
    && (forall id :: id in at ==> at[id] < |nodes| && nodes[at[id]].row.id == id)
  }

  /** `nodeids` gives the node at that position. */
  ghost predicate Indexes(nodeids: map<int, Task>, nodes: seq<Task>, at: map<int, nat>)
  {
    && IsIndex(nodes, at)
    && (forall id :: id in nodeids <==> id in at)
    && (forall id :: id in nodeids ==> nodeids[id] == nodes[at[id]])
  }

  /** The id index that loadTaskLogs builds, and the key list it sends to the second query. */
  method IndexTasks(nodes: seq<Task>) returns (fks: seq<int>, nodeids: map<int, Task>, ghost at: map<int, nat>)
    modifies set i | 0 <= i < |nodes| :: nodes[i]
    ensures |fks| == |nodes| && forall i :: 0 <= i < |nodes| ==> fks[i] == nodes[i].row.id
    ensures Indexes(nodeids, nodes, at)
    ensures forall id :: id in at <==> id in fks
    ensures forall i :: 0 <= i < |nodes| ==> nodes[i].logs == []
  {
    fks, nodeids, at := [], map[], map[];
    for i := 0 to |nodes|
      invariant |fks| == i && forall j :: 0 <= j < i ==> fks[j] == nodes[j].row.id
      invariant Indexes(nodeids, nodes[..i], at)
      invariant forall j :: 0 <= j < i ==> nodes[j].logs == []
    {
      IndexesStep(nodeids, nodes, at, i);
      fks := fks + [nodes[i].row.id];
      nodeids := nodeids[nodes[i].row.id := nodes[i]];
      at := at[nodes[i].row.id := i];
      nodes[i].logs := [];
    }
    assert nodes[..|nodes|] == nodes;
    SameKeys(nodes, at, fks);
  }

  lemma {:induction false} IndexesStep(nodeids: map<int, Task>, nodes: seq<Task>, at: map<int, nat>, i: nat)
    requires i < |nodes| && Indexes(nodeids, nodes[..i], at)
    ensures Indexes(nodeids[nodes[i].row.id := nodes[i]], nodes[..i + 1], at[nodes[i].row.id := i])
  {
    assert nodes[..i + 1] == nodes[..i] + [nodes[i]];
  }

  lemma {:induction false} SameKeys(nodes: seq<Task>, at: map<int, nat>, fks: seq<int>)
    requires IsIndex(nodes, at) && |fks| == |nodes| && forall i :: 0 <= i < |nodes| ==> fks[i] == nodes[i].row.id
    ensures forall id :: id in at <==> id in fks
  {
    forall id
      ensures id in at <==> id in fks
    {
      if id in at {
        assert fks[at[id]] == id;
      }
      if id in fks {
        var i :| 0 <= i < |fks| && fks[i] == id;
        assert nodes[i].row.id == id;
      }
    }
  }

  predicate Known(keys: set<int>, n: TaskLog)
  {
    n.row.fk.Some? && n.row.fk.value in keys
  }

  /** One neighbour joins the list at the position its key has. */
  ghost function Deal(lists: seq<seq<TaskLog>>, at: map<int, nat>, n: TaskLog): (dealt: seq<seq<TaskLog>>)
    ensures |dealt| == |lists|
  {
    if Known(at.Keys, n) && at[n.row.fk.value] < |lists| then
      var i := at[n.row.fk.value];
      lists[i := lists[i] + [n]]
    else lists
  }

  /** The lists after dealing out neighbours one by one. */
  ghost function Dealt(n: nat, at: map<int, nat>, neighbors: seq<TaskLog>): (lists: seq<seq<TaskLog>>)
    ensures |lists| == n
  {
    if neighbors == [] then seq(n, i => [])
    else Deal(Dealt(n, at, neighbors[..|neighbors| - 1]), at, neighbors[|neighbors| - 1])
  }

  /** The nodes hold these lists. */
  ghost predicate Hold(nodes: seq<Task>, lists: seq<seq<TaskLog>>)
    reads nodes
  {
    |lists| == |nodes| && forall i :: 0 <= i < |nodes| ==> nodes[i].logs == lists[i]
  }

  /** The second loop of loadTaskLogs: it stops at the first neighbour it cannot place. */
  method DistributeLogs(nodes: seq<Task>, nodeids: map<int, Task>, neighbors: seq<TaskLog>, ghost at: map<int, nat>)
    returns (err: Option<LoadError>, ghost placed: nat)
    requires Distinct(nodes)
    requires Indexes(nodeids, nodes, at)
    requires Hold(nodes, Dealt(|nodes|, at, []))
    modifies set i | 0 <= i < |nodes| :: nodes[i]
    ensures placed <= |neighbors| && forall k :: 0 <= k < placed ==> Known(at.Keys, neighbors[k])
    ensures placed < |neighbors| ==> !Known(at.Keys, neighbors[placed])
    ensures Hold(nodes, Dealt(|nodes|, at, neighbors[..placed]))
    ensures err == if placed == |neighbors| then None
                   else if neighbors[placed].row.fk.None? then Some(NilKey(neighbors[placed].row.id))
                   else Some(UnexpectedKey(neighbors[placed].row.fk.value))
  {
    ghost var lists := Dealt(|nodes|, at, []);
    for k := 0 to |neighbors|
      invariant Hold(nodes, lists) && lists == Dealt(|nodes|, at, neighbors[..k])
      invariant forall j :: 0 <= j < k ==> Known(at.Keys, neighbors[j])
    {
      err := Place(nodes, nodeids, neighbors[k], at, lists);
      if err.Some? {
        return err, k;
      }
      assert neighbors[..k + 1][..k] == neighbors[..k];
      lists := Deal(lists, at, neighbors[k]);
    }
    assert neighbors[..|neighbors|] == neighbors;
    return None, |neighbors|;
  }

  /** Why a neighbour cannot be placed. */
  function Fault(n: TaskLog): LoadError
  {
    if n.row.fk.None? then NilKey(n.row.id) else UnexpectedKey(n.row.fk.value)
  }

  /** The body of the loop: one neighbour joins the list of the node its key names, or is reported. */
  method Place(nodes: seq<Task>, nodeids: map<int, Task>, n: TaskLog, ghost at: map<int, nat>, ghost lists: seq<seq<TaskLog>>)
    returns (err: Option<LoadError>)
    requires Distinct(nodes)
    requires Indexes(nodeids, nodes, at)
    requires Hold(nodes, lists)
    modifies set i | 0 <= i < |nodes| :: nodes[i]
    ensures Hold(nodes, Deal(lists, at, n))
    ensures err == if Known(at.Keys, n) then None else Some(Fault(n))
  {
    if n.row.fk.None? {
      return Some(NilKey(n.row.id));
    }
    var fk := n.row.fk.value;
    if fk !in nodeids {
      return Some(UnexpectedKey(fk));
    }
    GiveTo(nodes, nodeids[fk], n, at[fk], lists);
    return None;
  }

  /** One neighbour joins the list of one node. */
  method GiveTo(nodes: seq<Task>, node: Task, n: TaskLog, ghost i: nat, ghost lists: seq<seq<TaskLog>>)
    requires Distinct(nodes) && Hold(nodes, lists)
    requires i < |nodes| && node == nodes[i]
    modifies node`logs
    ensures Hold(nodes, lists[i := lists[i] + [n]])
  {
    node.logs := node.logs + [n];
  }

  /** Dealing out known neighbours gives each id's last node the neighbours with that key, in order, and all other nodes none. */
  lemma {:induction false} DealtIsJoin(nodes: seq<Task>, at: map<int, nat>, neighbors: seq<TaskLog>, i: nat)
    requires IsIndex(nodes, at) && i < |nodes| && forall k :: 0 <= k < |neighbors| ==> Known(at.Keys, neighbors[k])
    ensures Dealt(|nodes|, at, neighbors)[i] ==
            if at[nodes[i].row.id] == i then Filter(NodeRefers(nodes[i].row.id), neighbors) else []
  {
    if neighbors != [] {
      var k := |neighbors| - 1;
      DealtIsJoin(nodes, at, neighbors[..k], i);
      OneMoreNeighbor(nodes[i].row.id, neighbors, k);
      assert neighbors[..k + 1] == neighbors;
      var fk: int := neighbors[k].row.fk.value;
      assert neighbors[k].row.fk == Some(fk) && fk in at && nodes[at[fk]].row.id == fk;
    }
  }

  lemma {:induction false} OneMoreNeighbor(id: int, neighbors: seq<TaskLog>, k: nat)
    requires k < |neighbors|
    ensures Filter(NodeRefers(id), neighbors[..k + 1]) ==
            if neighbors[k].row.fk == Some(id) then Filter(NodeRefers(id), neighbors[..k]) + [neighbors[k]]
            else Filter(NodeRefers(id), neighbors[..k])
  {
    assert neighbors[..k + 1] == neighbors[..k] + [neighbors[k]];
    FilterSnoc(NodeRefers(id), neighbors[..k], neighbors[k]);
  }

  /** Every task holds exactly the fetched logs that refer to it, in fetch order: the nested-loop join. */
  ghost predicate LogsLoaded(nodes: seq<Task>, source: seq<LogRow>)
    reads nodes
  {
    forall i :: 0 <= i < |nodes| ==> LogRows(nodes[i].logs) == Filter(Refers(nodes[i].row.id), source)
  }

  /**
   loadTaskLogs.  `source` is what the edge's own query would return without the added IN filter.
   Tasks read from one table have distinct ids; then the hash join is the nested-loop join, every
   fetched log is in exactly one list, and only the query itself can fail, which leaves all lists empty.
   */
  method LoadTaskLogs(nodes: seq<Task>, source: Result<seq<LogRow>, QueryFault>) returns (err: Option<LoadError>)
    requires Distinct(nodes) && UniqueIds(TaskRows(nodes))
    modifies set i | 0 <= i < |nodes| :: nodes[i]
    ensures err == if source.Err? then Some(QueryFailed(source.error)) else None
    ensures source.Ok? ==> LogsLoaded(nodes, source.value)
    ensures source.Ok? ==> Handed(nodes) == |Filter(KeyIn(Ids(TaskRows(nodes))), source.value)|
    ensures source.Err? ==> forall i :: 0 <= i < |nodes| ==> nodes[i].logs == []
  {
    var fks, nodeids, at := IndexTasks(nodes);
    if source.Err? {
      return Some(QueryFailed(source.error));
    }
    var neighbors := AllLogs(Filter(KeyIn(fks), source.value));
    FilteredAreKnown(fks, source.value, neighbors, at.Keys);
    ghost var placed;
    err, placed := DistributeLogs(nodes, nodeids, neighbors, at);
    forall i | 0 <= i < |nodes|
      ensures LogRows(nodes[i].logs) == Filter(Refers(nodes[i].row.id), source.value)
    {
      assert fks[i] == nodes[i].row.id;
      OnlyPosition(nodes, at, i);
      assert neighbors[..|neighbors|] == neighbors;
      DealtIsJoin(nodes, at, neighbors, i);
      SelectingNodesSelectsRows(nodes[i].row.id, neighbors);
      FilterFilter(Refers(nodes[i].row.id), KeyIn(fks), source.value);
    }
    ListLengthsAddUp(nodes, source.value);
  }

  /** How many logs the tasks hold together. */
  ghost function Handed(nodes: seq<Task>): nat
    reads nodes
  {
    if nodes == [] then 0 else |nodes[0].logs| + Handed(nodes[1..])
  }

  function Ids(rows: seq<TaskRow>): seq<int>
  {
    seq(|rows|, i requires 0 <= i < |rows| => rows[i].id)
  }

  /** Nothing fetched is lost or handed out twice: the lists of the loaded tasks add up to the number of fetched logs. */
  lemma {:induction false} ListLengthsAddUp(nodes: seq<Task>, source: seq<LogRow>)
    requires UniqueIds(TaskRows(nodes)) && LogsLoaded(nodes, source)
    ensures Handed(nodes) == |Filter(KeyIn(Ids(TaskRows(nodes))), source)|
  {
    var ids := Ids(TaskRows(nodes));
    if nodes == [] {
      FilterNone(KeyIn(ids), source);
    } else {
      var rest := nodes[1..];
      var id, others := nodes[0].row.id, Ids(TaskRows(rest));
      assert forall i :: 0 <= i < |rest| ==> TaskRows(rest)[i] == TaskRows(nodes)[i + 1];
      ListLengthsAddUp(rest, source);
      assert id !in others by {
        assert TaskRows(nodes)[0].id == id;
      }
      assert ids == [id] + others;
      SplitByKey(id, others, source);
      assert |LogRows(nodes[0].logs)| == |nodes[0].logs|;
    }
  }

  lemma {:induction false} SplitByKey(id: int, ids: seq<int>, source: seq<LogRow>)
    requires id !in ids
    ensures |Filter(KeyIn([id] + ids), source)| == |Filter(Refers(id), source)| + |Filter(KeyIn(ids), source)|
  {
    if source != [] {
      SplitByKey(id, ids, source[1..]);
    }
  }

  lemma {:induction false} OnlyPosition(nodes: seq<Task>, at: map<int, nat>, i: nat)
    requires IsIndex(nodes, at) && UniqueIds(TaskRows(nodes)) && i < |nodes|
    ensures at[nodes[i].row.id] == i
  {
    var rows, j := TaskRows(nodes), at[nodes[i].row.id];
    assert rows[i].id == rows[j].id;
  }

  /** Rows that pass the IN filter all have a key the index knows. */
  lemma {:induction false} FilteredAreKnown(fks: seq<int>, source: seq<LogRow>, neighbors: seq<TaskLog>, keys: set<int>)
    requires LogRows(neighbors) == Filter(KeyIn(fks), source)
    requires forall id :: id in fks ==> id in keys
    ensures forall i :: 0 <= i < |neighbors| ==> Known(keys, neighbors[i])
  {
    forall i | 0 <= i < |neighbors|
      ensures Known(keys, neighbors[i])
    {
      assert LogRows(neighbors)[i] == neighbors[i].row;
      FilterMember(KeyIn(fks), source, neighbors[i].row);
      var fk: int := neighbors[i].row.fk.value;
      assert fk in fks;
    }
  }

  /** sqlAll of a task query with the task_logs edge requested. */
  method QueryTasksWithLogs(tasks: Result<seq<TaskRow>, QueryFault>, source: Result<seq<LogRow>, QueryFault>)
    returns (r: Result<seq<Task>, LoadError>)
    requires tasks.Ok? ==> UniqueIds(tasks.value)
    ensures tasks.Err? ==> r == Err(QueryFailed(tasks.error))
    ensures tasks.Ok? && source.Err? ==> r == if tasks.value == [] then Ok([]) else Err(QueryFailed(source.error))
    ensures tasks.Ok? && source.Ok? ==> r.Ok? && TaskRows(r.value) == tasks.value && LogsLoaded(r.value, source.value)
  {
    if tasks.Err? {
      return Err(QueryFailed(tasks.error));
    }
    var nodes := AllTasks(tasks.value);
    if |nodes| == 0 {
      return Ok(nodes);
    }
    var err := LoadTaskLogs(nodes, source);
    if err.Some? {
      return Err(err.value);
    }
    return Ok(nodes);
  }

  // ---------------------------------------------------------------- from logs to their tasks

  /** Some log refers to task `id`. */
  ghost predicate Waiting(nodes: seq<TaskLog>, id: int)
  {
    exists i :: 0 <= i < |nodes| && nodes[i].row.fk == Some(id)
  }

  lemma {:induction false} OneMoreWaiting(id: int, nodes: seq<TaskLog>, k: nat)
    requires k < |nodes|
    ensures Waiting(nodes[..k + 1], id) <==> Waiting(nodes[..k], id) || nodes[k].row.fk == Some(id)
  {
    if Waiting(nodes[..k], id) {
      var i :| 0 <= i < k && nodes[..k][i].row.fk == Some(id);
      assert nodes[..k + 1][i] == nodes[i];
    }
    assert nodes[..k + 1][k] == nodes[k];
  }

  /** Each id some log refers to, once, and for each of them its logs in order. */
  ghost predicate Grouped(ids: seq<int>, nodeids: map<int, seq<TaskLog>>, nodes: seq<TaskLog>)
  {
    && Distinct(ids)
    && (forall id :: id in ids <==> Waiting(nodes, id))
    && (forall id :: id in nodeids <==> id in ids)
    && (forall id :: id in nodeids ==> nodeids[id] == Filter(NodeRefers(id), nodes))
  }

  lemma {:induction false} GroupedSkip(ids: seq<int>, nodeids: map<int, seq<TaskLog>>, nodes: seq<TaskLog>, k: nat)
    requires k < |nodes| && nodes[k].row.fk == None && Grouped(ids, nodeids, nodes[..k])
    ensures Grouped(ids, nodeids, nodes[..k + 1])
  {
    forall id: int
      ensures Filter(NodeRefers(id), nodes[..k + 1]) == Filter(NodeRefers(id), nodes[..k])
      ensures Waiting(nodes[..k + 1], id) <==> Waiting(nodes[..k], id)
    {
      OneMoreNeighbor(id, nodes, k);
      OneMoreWaiting(id, nodes, k);
    }
  }

  lemma {:induction false} GroupedJoin(ids: seq<int>, nodeids: map<int, seq<TaskLog>>, nodes: seq<TaskLog>, k: nat, fk: int)
    requires k < |nodes| && nodes[k].row.fk == Some(fk) && Grouped(ids, nodeids, nodes[..k])
    ensures Grouped(if fk in nodeids then ids else ids + [fk],
                    nodeids[fk := (if fk in nodeids then nodeids[fk] else []) + [nodes[k]]],
                    nodes[..k + 1])
  {
    var joined := nodeids[fk := (if fk in nodeids then nodeids[fk] else []) + [nodes[k]]];
    assert fk !in nodeids ==> Filter(NodeRefers(fk), nodes[..k]) == [] by {
      if fk !in nodeids {
        FilterNone(NodeRefers(fk), nodes[..k]);
      }
    }
    forall id
      ensures id in joined ==> joined[id] == Filter(NodeRefers(id), nodes[..k + 1])
      ensures Waiting(nodes[..k + 1], id) <==> Waiting(nodes[..k], id) || fk == id
    {
      OneMoreNeighbor(id, nodes, k);
      OneMoreWaiting(id, nodes, k);
    }
  }

  /** The ids sent to the second query, each once, and the logs waiting for each. */
  method IndexLogs(nodes: seq<TaskLog>) returns (ids: seq<int>, nodeids: map<int, seq<TaskLog>>)
    ensures Grouped(ids, nodeids, nodes)
  {
    ids, nodeids := [], map[];
    for i := 0 to |nodes|
      invariant Grouped(ids, nodeids, nodes[..i])
    {
      if nodes[i].row.fk.None? {
        GroupedSkip(ids, nodeids, nodes, i);
        continue;
      }
      var fk := nodes[i].row.fk.value;
      GroupedJoin(ids, nodeids, nodes, i, fk);
      if fk !in nodeids {
        ids := ids + [fk];
      }
      nodeids := nodeids[fk := (if fk in nodeids then nodeids[fk] else []) + [nodes[i]]];
    }
    assert nodes[..|nodes|] == nodes;
  }

  /** Node `n` holds the row its key refers to, or nothing if there is no such row. */
  ghost predicate Holds(n: TaskLog, source: seq<TaskRow>)
    reads n
  {
    if n.task == null then forall i :: 0 <= i < |source| ==> n.row.fk != Some(source[i].id)
    else n.task.row in source && n.row.fk == Some(n.task.row.id)
  }

  /** Every log holds the task it refers to, if that task exists. */
  ghost predicate TasksLoaded(nodes: seq<TaskLog>, source: seq<TaskRow>)
    reads nodes
  {
    forall i :: 0 <= i < |nodes| ==> Holds(nodes[i], source)
  }

  /** The assign calls for the logs that wait for one task. */
  method AssignGroup(group: seq<TaskLog>, n: Task)
    modifies group
    ensures forall m :: m in group ==> m.task == n
  {
    for j := 0 to |group|
      invariant forall i :: 0 <= i < j ==> group[i].task == n
    {
      group[j].task := n;
    }
  }

  /** The second loop of loadTasks: it stops at the first task that no log waits for. */
  method AssignTasks(nodes: seq<TaskLog>, nodeids: map<int, seq<TaskLog>>, neighbors: seq<Task>) returns (err: Option<LoadError>)
    requires TasksLoaded(nodes, [])
    requires forall id :: id in nodeids ==> nodeids[id] == Filter(NodeRefers(id), nodes)
    modifies nodes
    ensures err.None? <==> forall i :: 0 <= i < |neighbors| ==> neighbors[i].row.id in nodeids
    ensures err.None? ==> TasksLoaded(nodes, TaskRows(neighbors))
  {
    for k := 0 to |neighbors|
      invariant forall i :: 0 <= i < k ==> neighbors[i].row.id in nodeids
      invariant TasksLoaded(nodes, TaskRows(neighbors[..k]))
    {
      var n := neighbors[k];
      if n.row.id !in nodeids {
        return Some(UnexpectedKey(n.row.id));
      }
      var group := nodeids[n.row.id];
      forall m: TaskLog
        ensures m in group <==> m in nodes && m.row.fk == Some(n.row.id)
      {
        FilterMember(NodeRefers(n.row.id), nodes, m);
      }
      AssignGroup(group, n);
      var before, after := TaskRows(neighbors[..k]), TaskRows(neighbors[..k + 1]);
      assert after == before + [n.row];
      forall i | 0 <= i < |nodes|
        ensures Holds(nodes[i], after)
      {
        assert nodes[i] in nodes;
        assert after[k] == n.row;
        assert forall j :: 0 <= j < k ==> after[j] == before[j];
      }
    }
    assert neighbors[..|neighbors|] == neighbors;
    return None;
  }

  /**
   loadTasks on freshly read logs: many logs may share one task, and a nil or dangling key leaves nil.
   Only the query for the tasks can fail, and it is not even sent when no log has a key.
   */
  method LoadTasks(nodes: seq<TaskLog>, source: Result<seq<TaskRow>, QueryFault>) returns (err: Option<LoadError>)
    requires forall i :: 0 <= i < |nodes| ==> nodes[i].task == null
    modifies nodes
    ensures err == if source.Err? && Keyed(nodes) then Some(QueryFailed(source.error)) else None
    ensures source.Ok? ==> TasksLoaded(nodes, source.value)
    ensures source.Err? ==> forall i :: 0 <= i < |nodes| ==> nodes[i].task == null
  {
    var ids, nodeids := IndexLogs(nodes);
    forall i | 0 <= i < |nodes| && nodes[i].row.fk.Some?
      ensures nodes[i].row.fk.value in ids
    {
      var fk: int := nodes[i].row.fk.value;
      assert nodes[i].row.fk == Some(fk);
      assert fk in ids;
    }
    if |ids| == 0 {
      return None;
    }
    assert ids[0] in ids && Waiting(nodes, ids[0]);
    if source.Err? {
      return Some(QueryFailed(source.error));
    }
    var neighbors := AllTasks(Filter(IdIn(ids), source.value));
    forall i | 0 <= i < |neighbors|
      ensures neighbors[i].row.id in nodeids
    {
      assert TaskRows(neighbors)[i] == neighbors[i].row;
      FilterMember(IdIn(ids), source.value, neighbors[i].row);
      assert neighbors[i].row.id in ids;
    }
    err := AssignTasks(nodes, nodeids, neighbors);
    forall i | 0 <= i < |nodes|
      ensures Holds(nodes[i], source.value)
    {
      SelectionSuffices(nodes[i], ids, source.value);
    }
  }

  /** Some log has a key. */
  ghost predicate Keyed(nodes: seq<TaskLog>)
  {
    exists i :: 0 <= i < |nodes| && nodes[i].row.fk.Some?
  }

  lemma {:induction false} SelectionSuffices(n: TaskLog, ids: seq<int>, source: seq<TaskRow>)
    requires n.row.fk.Some? ==> n.row.fk.value in ids
    requires Holds(n, Filter(IdIn(ids), source))
    ensures Holds(n, source)
  {
    var selected := Filter(IdIn(ids), source);
    if n.task == null {
      assert forall r :: r in selected ==> n.row.fk != Some(r.id);
      forall i | 0 <= i < |source|
        ensures n.row.fk != Some(source[i].id)
      {
        FilterMember(IdIn(ids), source, source[i]);
      }
    } else {
      FilterMember(IdIn(ids), source, n.task.row);
    }
  }

  /** sqlAll of a log query with the tasks edge requested. */
  method QueryLogsWithTasks(logs: Result<seq<LogRow>, QueryFault>, source: Result<seq<TaskRow>, QueryFault>)
    returns (r: Result<seq<TaskLog>, LoadError>)
    ensures logs.Err? ==> r == Err(QueryFailed(logs.error))
    ensures logs.Ok? && source.Ok? ==> r.Ok?
    ensures logs.Ok? && source.Err? ==>
              if exists i :: 0 <= i < |logs.value| && logs.value[i].fk.Some? then r == Err(QueryFailed(source.error)) else r.Ok?
    ensures r.Ok? ==> LogRows(r.value) == logs.value && (source.Ok? ==> TasksLoaded(r.value, source.value))
  {
    if logs.Err? {
      return Err(QueryFailed(logs.error));
    }
    var nodes := AllLogs(logs.value);
    if |nodes| == 0 {
      return Ok(nodes);
    }
    var err := LoadTasks(nodes, source);
    assert forall i :: 0 <= i < |nodes| ==> logs.value[i] == nodes[i].row;
    if err.Some? {
      return Err(err.value);
    }
    return Ok(nodes);
  }

  // ---------------------------------------------------------------- the two directions together

  /**
   On one database state, the tables `allTasks` and `allLogs`, the two directions are inverse: of any tasks
   and any logs read from it, by whatever filters and pages, a log is among a task's loaded logs exactly
   when the log's loaded task is that task.
   */
  lemma {:induction false} DirectionsAgree(allTasks: seq<TaskRow>, allLogs: seq<LogRow>, tasks: seq<Task>, logs: seq<TaskLog>, t: Task, l: TaskLog)
    requires UniqueIds(allTasks) && t in tasks && t.row in allTasks && l in logs && l.row in allLogs
    requires LogsLoaded(tasks, allLogs) && TasksLoaded(logs, allTasks)
    ensures l.row in LogRows(t.logs) <==> l.task != null && l.task.row == t.row
  {
    var i :| 0 <= i < |allTasks| && allTasks[i] == t.row;
    FilterMember(Refers(t.row.id), allLogs, l.row);
    assert Holds(l, allTasks);
    if l.task != null && l.row.fk == Some(t.row.id) {
      var k :| 0 <= k < |allTasks| && allTasks[k] == l.task.row;
      assert k == i;
    }
  }
}
