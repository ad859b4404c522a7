/**
 Bulk creation: the mutator chain of TaskCreateBulk.Save and RelayTokenCreateBulk.Save
 (ent/task_create.go, ent/relaytoken_create.go), for builders without hooks.  Without hooks the
 mutation handed to a builder is the builder's own, so a builder is represented by its mutation.
 */
module BulkCreate {
  import opened Wrappers
  import opened Machine
  import Ordering

  /** An addressable id: a mutation points at the id field of the node it created. */
  class Cell {
    var value: int

    constructor (value: int)
      ensures this.value == value
    {
      this.value := value;
    }
  }

  class Mutation<F> {
    var fields: F
    var id: Cell?
    var done: bool

    constructor (fields: F, id: Cell?)
      ensures this.fields == fields && this.id == id && !done
    {
      this.fields, this.id, this.done := fields, id, false;
    }
  }

  class Node<F> {
    const fields: F
    const id: Cell

    constructor (fields: F, id: Cell)
      ensures this.fields == fields && this.id == id
    {
      this.fields, this.id := fields, id;
    }
  }

  /** A create spec: the columns to write and the id, if the caller chose one or the database answered with one. */
  datatype Spec<F> = Spec(fields: F, id: Option<int>)

  datatype Error = Given(message: string) | Invalid(field: string) | Constraint | Database

  /** What the generated code of an entity contributes; `moment` numbers the readings of the clock. */
  datatype Schema<!F(!new)> = Schema(defaults: (F, nat) -> F, check: F -> Option<string>, callerMayChooseId: bool)
  {
    /** Applying defaults to a builder a second time changes nothing. */
    ghost predicate Lawful()
    {
      forall f, i, j :: defaults(defaults(f, i), j) == defaults(f, i)
    }
  }

  // ---------------------------------------------------------------- the database

  datatype Answer = Rejected(constraint: bool) | Inserted(ids: seq<int>)

  /** New positive ids that no row has, a chosen id kept. */
  predicate FreshIds<F>(table: map<int, F>, batch: seq<Spec<F>>, ids: seq<int>)
  {
    && |ids| == |batch|
    && (forall k :: 0 <= k < |ids| ==> 0 < ids[k] < TWO63 && ids[k] !in table)
    && (forall j, k :: 0 <= j < k < |ids| ==> ids[j] != ids[k])
    && (forall k :: 0 <= k < |ids| && batch[k].id.Some? && batch[k].id.value != 0 ==> ids[k] == batch[k].id.value)
  }

  ghost function Insert<F>(table: map<int, F>, batch: seq<Spec<F>>, ids: seq<int>): map<int, F>
    requires |ids| == |batch|
  {
    if ids == [] then table
    else Insert(table, batch[..|ids| - 1], ids[..|ids| - 1])[ids[|ids| - 1] := batch[|ids| - 1].fields]
  }

  lemma {:induction false} InsertStep<F>(table: map<int, F>, batch: seq<Spec<F>>, ids: seq<int>, k: nat)
    requires k < |ids| == |batch|
    ensures Insert(table, batch[..k + 1], ids[..k + 1]) == Insert(table, batch[..k], ids[..k])[ids[k] := batch[k].fields]
  {
    assert batch[..k + 1][..k] == batch[..k] && ids[..k + 1][..k] == ids[..k];
  }

  class Driver<F> {
    var table: map<int, F>
    var batches: seq<seq<Spec<F>>>
    const respond: (map<int, F>, seq<Spec<F>>) -> Answer

    constructor (respond: (map<int, F>, seq<Spec<F>>) -> Answer)
      ensures this.respond == respond && table == map[] && batches == []
    {
      this.respond, table, batches := respond, map[], [];
    }

    /** The database's decision on a batch; an answer with unusable ids is a failure. */
    ghost function Verdict(table: map<int, F>, batch: seq<Spec<F>>): Answer
    {
      var a := respond(table, batch);
      if a.Inserted? && !FreshIds(table, batch, a.ids) then Rejected(false) else a
    }

    /** BatchCreate: all rows or none; the ids come back in the specs. */
    method BatchCreate(specs: array<Spec<F>>) returns (err: Option<Error>)
      modifies this, specs
      ensures batches == old(batches) + [old(specs[..])]
      ensures var verdict := Verdict(old(table), old(specs[..]));
              if verdict.Rejected? then
                && err == Some(if verdict.constraint then Constraint else Database)
                && table == old(table) && specs[..] == old(specs[..])
              else
                && err == None
                && FreshIds(old(table), old(specs[..]), verdict.ids)
                && table == Insert(old(table), old(specs[..]), verdict.ids)
                && forall k :: 0 <= k < specs.Length ==> specs[k] == old(specs[k]).(id := Some(verdict.ids[k]))
    {
      var batch := specs[..];
      batches := batches + [batch];
      var a := respond(table, batch);
      if a.Rejected? {
        return Some(if a.constraint then Constraint else Database);
      }
      if !FreshIds(table, batch, a.ids) {
        return Some(Database);
      }
      for k := 0 to specs.Length
        invariant batches == old(batches) + [batch]
        invariant table == Insert(old(table), batch[..k], a.ids[..k])
        invariant forall j :: 0 <= j < k ==> specs[j] == batch[j].(id := Some(a.ids[j]))
        invariant forall j :: k <= j < specs.Length ==> specs[j] == batch[j]
      {
        InsertStep(old(table), batch, a.ids, k);
        table := table[a.ids[k] := batch[k].fields];
        specs[k] := specs[k].(id := Some(a.ids[k]));
      }
      assert batch[..specs.Length] == batch && a.ids[..specs.Length] == a.ids;
      return None;
    }
  }

  // ---------------------------------------------------------------- the chain

  /** The first of the positions from `i` on that holds the same builder as position `k`. */
  function First<T(==)>(s: seq<T>, i: nat, k: nat): (j: nat)
    requires i <= k < |s|
    ensures i <= j <= k && s[j] == s[k]
    decreases k - i
  {
    if s[i] == s[k] then i else First(s, i + 1, k)
  }

  /** The first complaint about a spec from position `i` on. */
  ghost function FirstComplaint<F>(check: F -> Option<string>, batch: seq<Spec<F>>, i: nat): Option<string>
    requires i <= |batch|
    decreases |batch| - i
  {
    if i == |batch| then None
    else if check(batch[i].fields).Some? then check(batch[i].fields)
    else FirstComplaint(check, batch, i + 1)
  }

  class Bulk<F(!new,0)> {
    const err: Option<Error>
    const builders: seq<Mutation<F>>
    const driver: Driver<F>
    const schema: Schema<F>

    constructor (err: Option<Error>, builders: seq<Mutation<F>>, driver: Driver<F>, schema: Schema<F>)
      ensures this.err == err && this.builders == builders && this.driver == driver && this.schema == schema
    {
      this.err, this.builders, this.driver, this.schema := err, builders, driver, schema;
    }

    ghost function Members(): set<Mutation<F>>
    {
      set m | m in builders
    }

    /** What createSpec puts into the spec of a builder: an id only if the caller chose one and may. */
    ghost function SpecOf(m: Mutation<F>): Spec<F>
      reads m, m.id
    {
      Spec(m.fields, if schema.callerMayChooseId && m.id != null then Some(m.id.value) else None)
    }

    /** createSpec: a new node beside the spec. */
    method CreateSpec(m: Mutation<F>) returns (node: Node<F>, spec: Spec<F>)
      ensures spec == SpecOf(m)
      ensures fresh(node) && fresh(node.id) && node.fields == m.fields
      ensures node.id.value == if spec.id.Some? then spec.id.value else 0
    {
      var id := new Cell(0);
      spec := Spec(m.fields, None);
      if schema.callerMayChooseId && m.id != null {
        id.value := m.id.value;
        spec := spec.(id := Some(m.id.value));
      }
      node := new Node(m.fields, id);
    }

    /** Slots before `i` were filled on the way down. */
    ghost predicate Filled(i: nat, specs: array<Spec<F>>, batch: seq<Spec<F>>)
      reads specs, set m | m in builders, set m | m in builders && m.id != null :: m.id
    {
      && i <= |builders| == specs.Length == |batch|
      && (forall k :: 0 <= k < i ==> specs[k] == batch[k])
      && (forall k :: i <= k < |builders| ==> SpecOf(builders[k]) == batch[k])
    }

    /** What a caller learns: the first complaint from `i` on stops everything, otherwise the batch was sent once. */
    ghost predicate Reported(i: nat, batch: seq<Spec<F>>, table: map<int, F>, batches: seq<seq<Spec<F>>>, err: Option<Error>)
      requires i <= |batch|
      reads driver
    {
      var complaint, verdict := FirstComplaint(schema.check, batch, i), driver.Verdict(table, batch);
      if complaint.Some? then
        err == Some(Invalid(complaint.value)) && driver.batches == batches && driver.table == table
      else if verdict.Rejected? then
        && err == Some(if verdict.constraint then Constraint else Database)
        && driver.batches == batches + [batch] && driver.table == table
      else
        && err == None && FreshIds(table, batch, verdict.ids)
        && driver.batches == batches + [batch] && driver.table == Insert(table, batch, verdict.ids)
    }

    /** A link without a complaint reports what the links after it report. */
    lemma {:induction false} ReportedAbove(i: nat, batch: seq<Spec<F>>, table: map<int, F>, batches: seq<seq<Spec<F>>>, err: Option<Error>)
      requires i < |batch| && schema.check(batch[i].fields) == None
      requires Reported(i + 1, batch, table, batches, err)
      ensures Reported(i, batch, table, batches, err)
      ensures err == None ==> driver.Verdict(table, batch).Inserted? && FreshIds(table, batch, driver.Verdict(table, batch).ids)
    {
    }

    ghost predicate Answered(specs: array<Spec<F>>, batch: seq<Spec<F>>, ids: seq<int>)
      reads specs
    {
      specs.Length == |batch| == |ids| && forall k :: 0 <= k < |ids| ==> specs[k] == batch[k].(id := Some(ids[k]))
    }

    /** From slot `i` on: each node has its spec's fields and its row's id, and each mutation is done and points at its node's id. */
    ghost predicate Landed(i: nat, nodes: array<Node?<F>>, batch: seq<Spec<F>>, ids: seq<int>)
      reads nodes, set k | 0 <= k < nodes.Length && nodes[k] != null :: nodes[k].id, set m | m in builders
    {
      && i <= |builders| == nodes.Length == |batch| == |ids|
      && (forall k :: i <= k < |builders| ==>
            nodes[k] != null && nodes[k].fields == batch[k].fields && nodes[k].id.value == ids[k])
      && (forall k :: i <= k < |builders| ==>
            builders[k].done && builders[k].id == nodes[First(builders, i, k)].id)
    }

    /** Mutate of the i-th link: check, fill slot i, go on, and fill in the id while unwinding. */
    method Mutate(i: nat, nodes: array<Node?<F>>, specs: array<Spec<F>>, ghost batch: seq<Spec<F>>) returns (err: Option<Error>)
      requires i < |builders| == nodes.Length
      requires Filled(i, specs, batch)
      modifies nodes, specs, driver, Members()`id, Members()`done
      ensures Reported(i, batch, old(driver.table), old(driver.batches), err)
      ensures nodes[..i] == old(nodes[..i])
      ensures err.Some? ==> forall m :: m in builders ==> m.done == old(m.done) && m.id == old(m.id)
      ensures err == None ==>
                var ids := driver.Verdict(old(driver.table), batch).ids;
                && Answered(specs, batch, ids) && Landed(i, nodes, batch, ids)
                && forall k :: i <= k < |builders| ==> fresh(nodes[k].id)
      decreases |builders| - i, 1, 0
    {
      err := FillSlot(i, nodes, specs, batch);
      if err.Some? {
        return;
      }
      ghost var node := nodes[i];
      err := Rest(i, nodes, specs, batch);
      assert nodes[..i + 1][i] == node;
    }

    /** The part of a link after its own slot is filled: the links after it, then its id on the way back. */
    method Rest(i: nat, nodes: array<Node?<F>>, specs: array<Spec<F>>, ghost batch: seq<Spec<F>>) returns (err: Option<Error>)
      requires i < |builders| == nodes.Length
      requires Filled(i + 1, specs, batch) && schema.check(batch[i].fields) == None
      requires nodes[i] != null && nodes[i].fields == batch[i].fields
      requires nodes[i].id.value == if batch[i].id.Some? then batch[i].id.value else 0
      modifies nodes, specs, driver, Members()`id, Members()`done, nodes[i].id
      ensures Reported(i, batch, old(driver.table), old(driver.batches), err)
      ensures nodes[..i + 1] == old(nodes[..i + 1])
      ensures err.Some? ==> forall m :: m in builders ==> m.done == old(m.done) && m.id == old(m.id)
      ensures err == None ==>
                var ids := driver.Verdict(old(driver.table), batch).ids;
                && Answered(specs, batch, ids) && Landed(i, nodes, batch, ids)
                && forall k :: i < k < |builders| ==> fresh(nodes[k].id)
      decreases |builders| - i, 0, 1
    {
      ghost var node := nodes[i];
      assert nodes[..i + 1][i] == node;
      err := GoOn(i, nodes, specs, batch);
      assert nodes[i] == nodes[..i + 1][i] == node;
      ReportedAbove(i, batch, old(driver.table), old(driver.batches), err);
      if err == None {
        FillId(i, nodes, specs, batch, driver.Verdict(old(driver.table), batch).ids);
      }
    }

    /** The descending part of one link: check the builder, then create its node and spec. */
    method FillSlot(i: nat, nodes: array<Node?<F>>, specs: array<Spec<F>>, ghost batch: seq<Spec<F>>) returns (err: Option<Error>)
      requires i < |builders| == nodes.Length
      requires Filled(i, specs, batch)
      modifies nodes, specs
      ensures err == if schema.check(batch[i].fields).Some? then Some(Invalid(schema.check(batch[i].fields).value)) else None
      ensures nodes[..i] == old(nodes[..i])
      ensures err == None ==>
                && Filled(i + 1, specs, batch)
                && nodes[i] != null && fresh(nodes[i].id) && nodes[i].fields == batch[i].fields
                && nodes[i].id.value == if batch[i].id.Some? then batch[i].id.value else 0
    {
      var builder := builders[i];
      assert SpecOf(builder) == batch[i];
      var complaint := schema.check(builder.fields);
      if complaint.Some? {
        return Some(Invalid(complaint.value));
      }
      nodes[i], specs[i] := CreateSpec(builder);
      return None;
    }

    /** The next link, or the batch itself after the last one. */
    method GoOn(i: nat, nodes: array<Node?<F>>, specs: array<Spec<F>>, ghost batch: seq<Spec<F>>) returns (err: Option<Error>)
      requires i < |builders| == nodes.Length
      requires Filled(i + 1, specs, batch)
      modifies nodes, specs, driver, Members()`id, Members()`done
      ensures Reported(i + 1, batch, old(driver.table), old(driver.batches), err)
      ensures nodes[..i + 1] == old(nodes[..i + 1])
      ensures err.Some? ==> forall m :: m in builders ==> m.done == old(m.done) && m.id == old(m.id)
      ensures err == None ==>
                var ids := driver.Verdict(old(driver.table), batch).ids;
                && Answered(specs, batch, ids) && Landed(i + 1, nodes, batch, ids)
                && forall k :: i < k < |builders| ==> fresh(nodes[k].id)
      decreases |builders| - i, 0, 0
    {
      if i < |builders| - 1 {
        err := Mutate(i + 1, nodes, specs, batch);
      } else {
        assert specs[..] == batch;
        err := driver.BatchCreate(specs);
      }
    }

    /** The unwinding part of one link. */
    method FillId(i: nat, nodes: array<Node?<F>>, specs: array<Spec<F>>, ghost batch: seq<Spec<F>>, ghost ids: seq<int>)
      requires i < |builders| == nodes.Length == |batch| && nodes[i] != null && nodes[i].fields == batch[i].fields
      requires Answered(specs, batch, ids) && Landed(i + 1, nodes, batch, ids)
      requires nodes[i].id.value == if batch[i].id.Some? then batch[i].id.value else 0
      requires batch[i].id.Some? && batch[i].id.value != 0 ==> ids[i] == batch[i].id.value
      requires forall k :: i < k < |builders| ==> nodes[k].id != nodes[i].id
      modifies {builders[i]}`id, {builders[i]}`done, nodes[i].id
      ensures Landed(i, nodes, batch, ids)
    {
      var builder, node := builders[i], nodes[i];
      builder.id := node.id;
      if schema.callerMayChooseId {
        if specs[i].id.Some? && node.id.value == 0 {
          node.id.value := specs[i].id.value;
        }
      } else {
        if specs[i].id.Some? {
          node.id.value := specs[i].id.value;
        }
      }
      builder.done := true;
    }

    /**
     After a successful Save, whose row ids are all different, every mutation points at the id of its own position's
     node exactly when no builder is listed twice.
     */
    lemma {:induction false} OwnNodesIffDistinct(nodes: array<Node?<F>>, batch: seq<Spec<F>>, ids: seq<int>)
      requires Landed(0, nodes, batch, ids) && forall j, k :: 0 <= j < k < |ids| ==> ids[j] != ids[k]
      ensures (forall k :: 0 <= k < |builders| ==> builders[k].id == nodes[k].id) <==> Ordering.Distinct(builders)
    {
      AllFirstIffDistinct(builders);
      forall k | 0 <= k < |builders|
        ensures builders[k].id == nodes[k].id <==> First(builders, 0, k) == k
      {
        assert builders[k].id == nodes[First(builders, 0, k)].id;
        assert nodes[First(builders, 0, k)].id.value == ids[First(builders, 0, k)] && nodes[k].id.value == ids[k];
      }
    }

    /** The cells of the ids that callers chose. */
    ghost function Chosen(): set<Cell>
      reads Members()
    {
      set m | m in builders && m.id != null :: m.id
    }

    /** The batch that a call of Save is going to send: every builder with its defaults, as of the first position that holds it. */
    ghost function Planned(): seq<Spec<F>>
      reads Members(), Chosen()
    {
      seq(|builders|, k requires 0 <= k < |builders| reads Members(), Chosen() =>
        SpecOf(builders[k]).(fields := schema.defaults(builders[k].fields, First(builders, 0, k))))
    }

    /** The fields of position `k` once the defaults of the first `i` positions are applied. */
    ghost function Defaulted(start: seq<F>, i: nat, k: nat): F
      requires k < |start| == |builders|
    {
      if First(builders, 0, k) < i then schema.defaults(start[k], First(builders, 0, k)) else start[k]
    }

    lemma {:induction false} DefaultStep(start: seq<F>, i: nat, k: nat)
      requires schema.Lawful() && |start| == |builders| && i < |start| && k < |start|
      requires builders[k] == builders[i] ==> start[k] == start[i]
      ensures Defaulted(start, i + 1, k) ==
              if builders[k] == builders[i] then schema.defaults(Defaulted(start, i, i), i) else Defaulted(start, i, k)
    {
      FirstSame(builders, 0, i, k);
    }

    /** The first loop of Save: all defaults, before anything is checked. */
    method ApplyDefaults()
      requires schema.Lawful()
      modifies Members()`fields
      ensures forall k :: 0 <= k < |builders| ==> builders[k].fields == schema.defaults(old(builders[k].fields), First(builders, 0, k))
    {
      ghost var start := seq(|builders|, k requires 0 <= k < |builders| reads Members() => builders[k].fields);
      for i := 0 to |builders|
        invariant forall k :: 0 <= k < |builders| ==> builders[k].fields == Defaulted(start, i, k)
      {
        forall k | 0 <= k < |builders|
          ensures Defaulted(start, i + 1, k) ==
                  if builders[k] == builders[i] then schema.defaults(Defaulted(start, i, i), i) else Defaulted(start, i, k)
        {
          DefaultStep(start, i, k);
        }
        builders[i].fields := schema.defaults(builders[i].fields, i);
      }
    }

    /** The second half of Save: fresh slots, then the first link if there is one. */
    method RunChain(ghost batch: seq<Spec<F>>) returns (r: Result<array<Node?<F>>, Error>)
      requires |batch| == |builders| && forall k :: 0 <= k < |builders| ==> SpecOf(builders[k]) == batch[k]
      modifies driver, Members()`id, Members()`done
      ensures builders == [] ==> r.Ok? && r.value.Length == 0 && unchanged(driver)
      ensures builders != [] ==>
                Reported(0, batch, old(driver.table), old(driver.batches), if r.Err? then Some(r.error) else None)
      ensures r.Err? ==> forall m :: m in builders ==> m.done == old(m.done) && m.id == old(m.id)
      ensures r.Ok? && builders != [] ==>
                fresh(r.value) && Landed(0, r.value, batch, driver.Verdict(old(driver.table), batch).ids)
    {
      var specs := new Spec<F>[|builders|];
      var nodes := new Node?<F>[|builders|](i => null);
      if |builders| > 0 {
        var failure := Mutate(0, nodes, specs, batch);
        if failure.Some? {
          return Err(failure.value);
        }
      }
      return Ok(nodes);
    }

    /**
     Save.  All defaults are applied first.  Without builders nothing else happens.  If some
     builder fails its check, the first complaint is returned and the database is never asked; otherwise the
     batch is sent exactly once.  On any error no mutation is marked done and the table is as before;
     on success every mutation is done, its id is its node's id, and that is the id of its new row.
     */
    method Save() returns (r: Result<array<Node?<F>>, Error>)
      requires schema.Lawful()
      modifies driver, Members()
      ensures err.Some? ==> r == Err(err.value) && unchanged(driver) && forall m :: m in builders ==> unchanged(m)
      ensures err == None ==> forall k :: 0 <= k < |builders| ==> builders[k].fields == old(Planned())[k].fields
      ensures err == None && builders == [] ==> r.Ok? && r.value.Length == 0 && unchanged(driver)
      ensures err == None && builders != [] ==>
                Reported(0, old(Planned()), old(driver.table), old(driver.batches), if r.Err? then Some(r.error) else None)
      ensures r.Err? ==> forall m :: m in builders ==> m.done == old(m.done) && m.id == old(m.id)
      ensures r.Ok? && builders != [] ==>
                fresh(r.value) && Landed(0, r.value, old(Planned()), driver.Verdict(old(driver.table), old(Planned())).ids)
    {
      if err.Some? {
        return Err(err.value);
      }
      ghost var batch := Planned();
      ApplyDefaults();
      r := RunChain(batch);
    }

    /**
     Save, seen from its rows: on success position `k` has the new row `ids[k]`, which its node shows and which
     holds the fields planned for it; a chosen id is that id where the entity allows it.  All other rows stay.
     */
    method SaveRows() returns (r: Result<array<Node?<F>>, Error>, ghost ids: seq<int>)
      requires schema.Lawful() && err == None
      modifies driver, Members()
      ensures r.Err? ==> driver.table == old(driver.table)
      ensures r.Ok? ==> |ids| == |builders| == r.value.Length
      ensures r.Ok? ==> forall k :: 0 <= k < |ids| ==>
                && ids[k] !in old(driver.table) && ids[k] in driver.table
                && driver.table[ids[k]] == old(Planned())[k].fields
                && r.value[k] != null && r.value[k].fields == driver.table[ids[k]] && r.value[k].id.value == ids[k]
      ensures r.Ok? && schema.callerMayChooseId ==> forall k :: 0 <= k < |ids| ==>
                (old(builders[k].id) != null && old(builders[k].id.value) != 0 ==> ids[k] == old(builders[k].id.value))
      ensures r.Ok? ==> forall id :: id in old(driver.table) ==> id in driver.table && driver.table[id] == old(driver.table)[id]
    {
      ghost var batch, table := Planned(), driver.table;
      r := Save();
      ids := [];
      if r.Ok? && builders != [] {
        ids := driver.Verdict(table, batch).ids;
        BatchRows(table, batch, ids);
      }
    }
  }

  lemma {:induction false} FirstSame<T>(s: seq<T>, i: nat, j: nat, k: nat)
    requires i <= j < |s| && i <= k < |s|
    ensures s[j] == s[k] <==> First(s, i, j) == First(s, i, k)
    decreases |s| - i
  {
    if s[j] == s[k] && s[i] != s[j] {
      FirstSame(s, i + 1, j, k);
    }
  }

  // ---------------------------------------------------------------- what the pieces of the contract mean

  /** No complaint exactly when every builder passes; otherwise the complaint of the first that does not. */
  lemma {:induction false} FirstComplaintMeaning<F>(check: F -> Option<string>, batch: seq<Spec<F>>, i: nat)
    requires i <= |batch|
    ensures FirstComplaint(check, batch, i) == None <==> forall k :: i <= k < |batch| ==> check(batch[k].fields) == None
    ensures FirstComplaint(check, batch, i).Some? ==>
              exists k :: i <= k < |batch| && check(batch[k].fields) == FirstComplaint(check, batch, i)
                          && forall j :: i <= j < k ==> check(batch[j].fields) == None
    decreases |batch| - i
  {
    if i < |batch| && check(batch[i].fields) == None {
      FirstComplaintMeaning(check, batch, i + 1);
    }
  }

  /** Inserting adds exactly the batch's rows under their ids and touches no other row. */
  lemma {:induction false} InsertContents<F>(table: map<int, F>, batch: seq<Spec<F>>, ids: seq<int>)
    requires |ids| == |batch| && forall j, k :: 0 <= j < k < |ids| ==> ids[j] != ids[k]
    ensures forall id :: id in Insert(table, batch, ids) <==> id in table || id in ids
    ensures forall k :: 0 <= k < |ids| ==> Insert(table, batch, ids)[ids[k]] == batch[k].fields
    ensures forall id :: id in table && id !in ids ==> Insert(table, batch, ids)[id] == table[id]
  {
    if ids != [] {
      var n := |ids| - 1;
      InsertContents(table, batch[..n], ids[..n]);
      assert ids == ids[..n] + [ids[n]];
      assert forall k :: 0 <= k < n ==> ids[..n][k] == ids[k] && batch[..n][k] == batch[k];
    }
  }

  /** The rows of a batch that was inserted: row `k` holds the fields of spec `k`, under its id, and no other row is touched. */
  lemma {:induction false} BatchRows<F>(table: map<int, F>, batch: seq<Spec<F>>, ids: seq<int>)
    requires FreshIds(table, batch, ids)
    ensures forall k :: 0 <= k < |ids| ==> ids[k] in Insert(table, batch, ids) && Insert(table, batch, ids)[ids[k]] == batch[k].fields
    ensures forall id :: id in table ==> id in Insert(table, batch, ids) && Insert(table, batch, ids)[id] == table[id]
  {
    InsertContents(table, batch, ids);
  }

  /** Every position is the first one of its builder. */
  ghost predicate AllFirst<T>(s: seq<T>)
  {
    forall k :: 0 <= k < |s| ==> First(s, 0, k) == k
  }

  lemma {:induction false} AllFirstIffDistinct<T>(s: seq<T>)
    ensures AllFirst(s) <==> Ordering.Distinct(s)
  {
    if AllFirst(s) {
      forall j, l | 0 <= j < l < |s|
        ensures s[j] != s[l]
      {
        FirstSame(s, 0, j, l);
        assert First(s, 0, j) == j && First(s, 0, l) == l;
      }
    }
    if Ordering.Distinct(s) {
      forall k | 0 <= k < |s|
        ensures First(s, 0, k) == k
      {
        var j := First(s, 0, k);
        assert s[j] == s[k];
      }
    }
  }
}
