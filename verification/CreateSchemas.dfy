/** The two entities whose bulk creation is modelled: their defaults and checks. */
module CreateSchemas {
  import opened Wrappers
  import opened BulkCreate

  /** The clock readings that DefaultCreatedAt and DefaultUpdatedAt take for each builder, and DefaultStatus, which a library mixin sets. */
  datatype Clock = Clock(created: nat -> int, updated: nat -> int, status: int)

  datatype TaskFields = TaskFields(
    createdAt: Option<int>, updatedAt: Option<int>, status: Option<int>, name: Option<string>,
    taskGroup: Option<string>, cronExpression: Option<string>, pattern: Option<string>, payload: Option<string>,
    taskLogs: set<int>)

  function Or<T>(v: Option<T>, default_: T): Option<T>
  {
    if v.Some? then v else Some(default_)
  }

  function DefaultedTask(clock: Clock, f: TaskFields, i: nat): TaskFields
  {
    f.(createdAt := Or(f.createdAt, clock.created(i)), updatedAt := Or(f.updatedAt, clock.updated(i)),
       status := Or(f.status, clock.status))
  }

  /** The first missing required column, in the order of the generated checks. */
  function TaskCheck(f: TaskFields): Option<string>
  {
    if f.createdAt.None? then Some("created_at")
    else if f.updatedAt.None? then Some("updated_at")
    else if f.name.None? then Some("name")
    else if f.taskGroup.None? then Some("task_group")
    else if f.cronExpression.None? then Some("cron_expression")
    else if f.pattern.None? then Some("pattern")
    else if f.payload.None? then Some("payload")
    else None
  }

  function TaskSchema(clock: Clock): Schema<TaskFields>
  {
    Schema((f, i) => DefaultedTask(clock, f, i), TaskCheck, true)
  }

  datatype TokenFields = TokenFields(
    tokenId: Option<string>, chainId: Option<int>, address: Option<string>, symbol: Option<string>,
    decimals: Option<int>, supported: Option<bool>, createdAt: Option<int>, updatedAt: Option<int>)

  function DefaultedToken(clock: Clock, f: TokenFields, i: nat): TokenFields
  {
    f.(supported := Or(f.supported, true), createdAt := Or(f.createdAt, clock.created(i)),
       updatedAt := Or(f.updatedAt, clock.updated(i)))
  }

  /** Presence, then the validator of each column: not empty, positive, not negative. */
  function TokenCheck(f: TokenFields): Option<string>
  {
    if f.tokenId.None? || f.tokenId.value == "" then Some("token_id")
    else if f.chainId.None? || f.chainId.value <= 0 then Some("chain_id")
    else if f.address.None? || f.address.value == "" then Some("address")
    else if f.symbol.None? || f.symbol.value == "" then Some("symbol")
    else if f.decimals.None? || f.decimals.value < 0 then Some("decimals")
    else if f.supported.None? then Some("supported")
    else if f.createdAt.None? then Some("created_at")
    else if f.updatedAt.None? then Some("updated_at")
    else None
  }

  function TokenSchema(clock: Clock): Schema<TokenFields>
  {
    Schema((f, i) => DefaultedToken(clock, f, i), TokenCheck, false)
  }

  /** Both entities satisfy what bulk creation relies on. */
  lemma {:induction false} SchemasLawful(clock: Clock)
    ensures TaskSchema(clock).Lawful() && TokenSchema(clock).Lawful()
  {
  }

  predicate TaskComplete(f: TaskFields)
  {
    f.name.Some? && f.taskGroup.Some? && f.cronExpression.Some? && f.pattern.Some? && f.payload.Some?
  }

  predicate TokenComplete(f: TokenFields)
  {
    && f.tokenId.Some? && f.tokenId.value != ""
    && f.chainId.Some? && f.chainId.value > 0
    && f.address.Some? && f.address.value != ""
    && f.symbol.Some? && f.symbol.value != ""
    && f.decimals.Some? && f.decimals.value >= 0
  }

  /** A batch of tasks is sent exactly when every builder sets the five columns without a default; `moments` says which clock reading each got. */
  lemma {:induction false} TasksPassIff(clock: Clock, start: seq<TaskFields>, moments: seq<nat>, batch: seq<Spec<TaskFields>>)
    requires |start| == |moments| == |batch|
    requires forall k :: 0 <= k < |batch| ==> batch[k].fields == TaskSchema(clock).defaults(start[k], moments[k])
    ensures FirstComplaint(TaskSchema(clock).check, batch, 0) == None <==>
            forall k :: 0 <= k < |start| ==> TaskComplete(start[k])
  {
    var check := TaskSchema(clock).check;
    FirstComplaintMeaning(check, batch, 0);
    forall k | 0 <= k < |start|
      ensures check(batch[k].fields) == None <==> TaskComplete(start[k])
    {
      assert batch[k].fields == DefaultedTask(clock, start[k], moments[k]);
    }
  }

  /** A batch of tokens is sent exactly when every builder sets the five validated columns to valid values. */
  lemma {:induction false} TokensPassIff(clock: Clock, start: seq<TokenFields>, moments: seq<nat>, batch: seq<Spec<TokenFields>>)
    requires |start| == |moments| == |batch|
    requires forall k :: 0 <= k < |batch| ==> batch[k].fields == TokenSchema(clock).defaults(start[k], moments[k])
    ensures FirstComplaint(TokenSchema(clock).check, batch, 0) == None <==>
            forall k :: 0 <= k < |start| ==> TokenComplete(start[k])
  {
    var check := TokenSchema(clock).check;
    FirstComplaintMeaning(check, batch, 0);
    forall k | 0 <= k < |start|
      ensures check(batch[k].fields) == None <==> TokenComplete(start[k])
    {
      assert batch[k].fields == DefaultedToken(clock, start[k], moments[k]);
    }
  }

  /** After the defaults the first missing column, in the order of the schema, is complained about. */
  lemma {:induction false} TaskComplaint(clock: Clock, given: TaskFields, i: nat)
    ensures var complaint := TaskSchema(clock).check(TaskSchema(clock).defaults(given, i));
            && (given.name.None? ==> complaint == Some("name"))
            && (given.name.Some? && given.taskGroup.None? ==> complaint == Some("task_group"))
            && (given.name.Some? && given.taskGroup.Some? && given.cronExpression.None? ==> complaint == Some("cron_expression"))
            && (given.name.Some? && given.taskGroup.Some? && given.cronExpression.Some? && given.pattern.None? ==>
                  complaint == Some("pattern"))
            && (given.name.Some? && given.taskGroup.Some? && given.cronExpression.Some? && given.pattern.Some? && given.payload.None? ==>
                  complaint == Some("payload"))
  {
    assert TaskSchema(clock).defaults(given, i) == DefaultedTask(clock, given, i);
  }

  /** The first column that is missing or not accepted by its validator. */
  lemma {:induction false} TokenComplaint(clock: Clock, given: TokenFields, i: nat)
    ensures var complaint := TokenSchema(clock).check(TokenSchema(clock).defaults(given, i));
            var id := given.tokenId.Some? && given.tokenId.value != "";
            var chain := given.chainId.Some? && given.chainId.value > 0;
            var address := given.address.Some? && given.address.value != "";
            var symbol := given.symbol.Some? && given.symbol.value != "";
            var decimals := given.decimals.Some? && given.decimals.value >= 0;
            && (!id ==> complaint == Some("token_id"))
            && (id && !chain ==> complaint == Some("chain_id"))
            && (id && chain && !address ==> complaint == Some("address"))
            && (id && chain && address && !symbol ==> complaint == Some("symbol"))
            && (id && chain && address && symbol && !decimals ==> complaint == Some("decimals"))
  {
    assert TokenSchema(clock).defaults(given, i) == DefaultedToken(clock, given, i);
  }

  // ---------------------------------------------------------------- what a caller gets

  /** Every column that the caller set is in the row as set; the three columns with a default hold it only where the caller set none. */
  ghost predicate TaskKept(given: TaskFields, row: TaskFields, created: int, updated: int, status: int)
  {
    && row.createdAt == (if given.createdAt.Some? then given.createdAt else Some(created))
    && row.updatedAt == (if given.updatedAt.Some? then given.updatedAt else Some(updated))
    && row.status == (if given.status.Some? then given.status else Some(status))
    && row.name == given.name && row.taskGroup == given.taskGroup && row.cronExpression == given.cronExpression
    && row.pattern == given.pattern && row.payload == given.payload && row.taskLogs == given.taskLogs
  }

  ghost predicate TokenKept(given: TokenFields, row: TokenFields, created: int, updated: int)
  {
    && row.createdAt == (if given.createdAt.Some? then given.createdAt else Some(created))
    && row.updatedAt == (if given.updatedAt.Some? then given.updatedAt else Some(updated))
    && row.supported == (if given.supported.Some? then given.supported else Some(true))
    && row.tokenId == given.tokenId && row.chainId == given.chainId && row.address == given.address
    && row.symbol == given.symbol && row.decimals == given.decimals
  }

  /** Position `k` of a list holds a builder that position `i` holds too, and not before. */
  ghost predicate FirstAt<T>(s: seq<T>, i: int, k: int)
  {
    0 <= i <= k < |s| && s[i] == s[k] && forall j :: 0 <= j < i ==> s[j] != s[k]
  }

  lemma {:induction false} FirstAtIsFirst<T>(s: seq<T>, i: int, k: int)
    requires FirstAt(s, i, k)
    ensures First(s, 0, k) == i
  {
    FirstIsSmallest(s, 0, i, k);
  }

  lemma {:induction false} FirstIsSmallest<T>(s: seq<T>, from: nat, i: nat, k: nat)
    requires from <= i <= k < |s| && s[i] == s[k]
    ensures First(s, from, k) <= i
    decreases i - from
  {
    if s[from] != s[k] {
      FirstIsSmallest(s, from + 1, i, k);
    }
  }

  /**
   TaskCreateBulk.Save: on success each position has a new row, holding what its caller set and the defaults elsewhere,
   under the id its caller chose, if any; the nodes that are returned are those rows.
   */
  method SaveTasks(bulk: Bulk<TaskFields>, clock: Clock) returns (r: Result<array<Node?<TaskFields>>, Error>, ghost ids: seq<int>)
    requires bulk.schema == TaskSchema(clock) && bulk.err == None
    modifies bulk.driver, bulk.Members()
    ensures r.Err? ==> bulk.driver.table == old(bulk.driver.table)
    ensures r.Ok? ==> |ids| == |bulk.builders| == r.value.Length
    ensures r.Ok? ==> forall k :: 0 <= k < |ids| ==>
              && ids[k] !in old(bulk.driver.table) && ids[k] in bulk.driver.table
              && (forall i :: FirstAt(bulk.builders, i, k) ==>
                    TaskKept(old(bulk.builders[k].fields), bulk.driver.table[ids[k]], clock.created(i), clock.updated(i), clock.status))
              && r.value[k] != null && r.value[k].fields == bulk.driver.table[ids[k]] && r.value[k].id.value == ids[k]
              && (old(bulk.builders[k].id) != null && old(bulk.builders[k].id.value) != 0 ==> ids[k] == old(bulk.builders[k].id.value))
    ensures r.Ok? ==> forall id :: id in old(bulk.driver.table) ==> id in bulk.driver.table && bulk.driver.table[id] == old(bulk.driver.table)[id]
  {
    SchemasLawful(clock);
    ghost var batch := bulk.Planned();
    r, ids := bulk.SaveRows();
    forall i, k | FirstAt(bulk.builders, i, k)
      ensures batch[k].fields == DefaultedTask(clock, old(bulk.builders[k].fields), i)
    {
      FirstAtIsFirst(bulk.builders, i, k);
    }
  }

  /** RelayTokenCreateBulk.Save, whose ids all come from the database. */
  method SaveTokens(bulk: Bulk<TokenFields>, clock: Clock) returns (r: Result<array<Node?<TokenFields>>, Error>, ghost ids: seq<int>)
    requires bulk.schema == TokenSchema(clock) && bulk.err == None
    modifies bulk.driver, bulk.Members()
    ensures r.Err? ==> bulk.driver.table == old(bulk.driver.table)
    ensures r.Ok? ==> |ids| == |bulk.builders| == r.value.Length
    ensures r.Ok? ==> forall k :: 0 <= k < |ids| ==>
              && ids[k] !in old(bulk.driver.table) && ids[k] in bulk.driver.table
              && (forall i :: FirstAt(bulk.builders, i, k) ==>
                    TokenKept(old(bulk.builders[k].fields), bulk.driver.table[ids[k]], clock.created(i), clock.updated(i)))
              && r.value[k] != null && r.value[k].fields == bulk.driver.table[ids[k]] && r.value[k].id.value == ids[k]
    ensures r.Ok? ==> forall id :: id in old(bulk.driver.table) ==> id in bulk.driver.table && bulk.driver.table[id] == old(bulk.driver.table)[id]
  {
    SchemasLawful(clock);
    ghost var batch := bulk.Planned();
    r, ids := bulk.SaveRows();
    forall i, k | FirstAt(bulk.builders, i, k)
      ensures batch[k].fields == DefaultedToken(clock, old(bulk.builders[k].fields), i)
    {
      FirstAtIsFirst(bulk.builders, i, k);
    }
  }
}
