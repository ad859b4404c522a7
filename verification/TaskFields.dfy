/**
 The field part of TaskMutation (ent/mutation.go) and the status calls of the task update
 builder (ent/task_update.go).
 */
module TaskFields {
  import opened Wrappers
  import opened Ordering
  import opened Runs

  const CREATED_AT := "created_at"
  const UPDATED_AT := "updated_at"
  const STATUS := "status"
  const NAME := "name"
  const TASK_GROUP := "task_group"
  const CRON_EXPRESSION := "cron_expression"
  const PATTERN := "pattern"
  const PAYLOAD := "payload"

  type uint8 = n: int | 0 <= n < 256

  type int8 = n: int | -128 <= n < 128

  /** ent.Value: what a dynamically typed setter may be handed. */
  datatype Value = Time(t: int) | Uint8(u: uint8) | Int8(i: int8) | Str(s: string)

  datatype Fault = UnknownField(name: string) | WrongType(name: string)

  /** int8 addition wraps around. */
  function WrapInt8(n: int): int8
  {
    (n + 128) % 256 - 128
  }

  datatype Fields = Fields(
    createdAt: Option<int>,
    updatedAt: Option<int>,
    status: Option<uint8>,
    addStatus: Option<int8>,
    name: Option<string>,
    taskGroup: Option<string>,
    cronExpression: Option<string>,
    pattern: Option<string>,
    payload: Option<string>,
    cleared: set<string>)

  const FRESH := Fields(None, None, None, None, None, None, None, None, None, {})

  /** The column names in the order Fields lists them. */
  const COLUMNS := [CREATED_AT, UPDATED_AT, STATUS, NAME, TASK_GROUP, CRON_EXPRESSION, PATTERN, PAYLOAD]

  // ---------------------------------------------------------------- reading a mutation

  function AsTime(v: Option<int>): Option<Value>
  {
    if v.Some? then Some(Time(v.value)) else None
  }

  function AsStr(v: Option<string>): Option<Value>
  {
    if v.Some? then Some(Str(v.value)) else None
  }

  /** Field. */
  function Field(f: Fields, name: string): Option<Value>
  {
    if name == CREATED_AT then AsTime(f.createdAt)
    else if name == UPDATED_AT then AsTime(f.updatedAt)
    else if name == STATUS then (if f.status.Some? then Some(Uint8(f.status.value)) else None)
    else if name == NAME then AsStr(f.name)
    else if name == TASK_GROUP then AsStr(f.taskGroup)
    else if name == CRON_EXPRESSION then AsStr(f.cronExpression)
    else if name == PATTERN then AsStr(f.pattern)
    else if name == PAYLOAD then AsStr(f.payload)
    else None
  }

  function IsSet(f: Fields): string -> bool
  {
    (name: string) => Field(f, name).Some?
  }

  /** AddedFields and ClearedFields: status is the only numeric and the only nullable column. */
  function AddedFields(f: Fields): seq<string>
  {
    if f.addStatus.Some? then [STATUS] else []
  }

  function ClearedFields(f: Fields): seq<string>
  {
    if STATUS in f.cleared then [STATUS] else []
  }

  /** Only nullable columns are ever marked cleared. */
  predicate Valid(f: Fields)
  {
    f.cleared <= {STATUS}
  }

  function When(b: bool, name: string): seq<string>
  {
    if b then [name] else []
  }

  /** Fields: one column after the other is appended if it holds a new value. */
  function ChangedFields(f: Fields): seq<string>
  {
    When(f.createdAt.Some?, CREATED_AT) + When(f.updatedAt.Some?, UPDATED_AT) + When(f.status.Some?, STATUS)
    + When(f.name.Some?, NAME) + When(f.taskGroup.Some?, TASK_GROUP) + When(f.cronExpression.Some?, CRON_EXPRESSION)
    + When(f.pattern.Some?, PATTERN) + When(f.payload.Some?, PAYLOAD)
  }

  lemma {:induction false} ColumnsFiltered(p: string -> bool)
    ensures Filter(p, COLUMNS) ==
            When(p(CREATED_AT), CREATED_AT) + When(p(UPDATED_AT), UPDATED_AT) + When(p(STATUS), STATUS)
            + When(p(NAME), NAME) + When(p(TASK_GROUP), TASK_GROUP) + When(p(CRON_EXPRESSION), CRON_EXPRESSION)
            + When(p(PATTERN), PATTERN) + When(p(PAYLOAD), PAYLOAD)
  {
    var last4 := [TASK_GROUP, CRON_EXPRESSION, PATTERN, PAYLOAD];
    var first4 := [CREATED_AT, UPDATED_AT, STATUS, NAME];
    assert COLUMNS == first4 + last4;
    FilterAppend(p, first4, last4);
    FilterFour(p, CREATED_AT, UPDATED_AT, STATUS, NAME);
    FilterFour(p, TASK_GROUP, CRON_EXPRESSION, PATTERN, PAYLOAD);
  }

  lemma {:induction false} FilterTwo(p: string -> bool, a: string, b: string)
    ensures Filter(p, [a, b]) == When(p(a), a) + When(p(b), b)
  {
    assert [a, b][1..] == [b] && [b][1..] == [];
    assert Filter(p, [b]) == When(p(b), b);
  }

  lemma {:induction false} FilterFour(p: string -> bool, a: string, b: string, c: string, d: string)
    ensures Filter(p, [a, b, c, d]) == When(p(a), a) + When(p(b), b) + When(p(c), c) + When(p(d), d)
  {
    assert [a, b, c, d] == [a, b] + [c, d];
    FilterAppend(p, [a, b], [c, d]);
    FilterTwo(p, a, b);
    FilterTwo(p, c, d);
  }

  lemma {:induction false} FieldByColumn(f: Fields)
    ensures IsSet(f)(CREATED_AT) == f.createdAt.Some? && IsSet(f)(UPDATED_AT) == f.updatedAt.Some?
    ensures IsSet(f)(STATUS) == f.status.Some? && IsSet(f)(NAME) == f.name.Some?
    ensures IsSet(f)(TASK_GROUP) == f.taskGroup.Some? && IsSet(f)(CRON_EXPRESSION) == f.cronExpression.Some?
    ensures IsSet(f)(PATTERN) == f.pattern.Some? && IsSet(f)(PAYLOAD) == f.payload.Some?
  {
  }

  lemma {:induction false} FieldsAreColumns(f: Fields)
    ensures ChangedFields(f) == Filter(IsSet(f), COLUMNS)
  {
    var p := IsSet(f);
    FieldByColumn(f);
    ColumnsFiltered(p);
  }

  /** Fields lists exactly the columns that Field reports, each once, in schema order, and Field knows no other name. */
  lemma {:induction false} FieldsIffField(f: Fields)
    ensures ChangedFields(f) == Filter(IsSet(f), COLUMNS)
    ensures forall name :: name in ChangedFields(f) <==> Field(f, name).Some?
  {
    FieldsAreColumns(f);
    forall name
      ensures name in Filter(IsSet(f), COLUMNS) <==> Field(f, name).Some?
    {
      FilterMember(IsSet(f), COLUMNS, name);
      FieldIsColumn(f, name);
    }
  }

  lemma {:induction false} FieldIsColumn(f: Fields, name: string)
    ensures Field(f, name).Some? ==> name in COLUMNS
  {
    if Field(f, name).Some? {
      assert name == COLUMNS[0] || name == COLUMNS[1] || name == COLUMNS[2] || name == COLUMNS[3]
          || name == COLUMNS[4] || name == COLUMNS[5] || name == COLUMNS[6] || name == COLUMNS[7];
    }
  }

  // ---------------------------------------------------------------- setters by name

  /** SetField: nothing changes unless the name is a column and the value has its type. */
  function WithField(f: Fields, name: string, v: Value): Result<Fields, Fault>
  {
    if name == CREATED_AT then if v.Time? then Ok(f.(createdAt := Some(v.t))) else Err(WrongType(name))
    else if name == UPDATED_AT then if v.Time? then Ok(f.(updatedAt := Some(v.t))) else Err(WrongType(name))
    else if name == STATUS then if v.Uint8? then Ok(f.(status := Some(v.u), addStatus := None)) else Err(WrongType(name))
    else if name == NAME then if v.Str? then Ok(f.(name := Some(v.s))) else Err(WrongType(name))
    else if name == TASK_GROUP then if v.Str? then Ok(f.(taskGroup := Some(v.s))) else Err(WrongType(name))
    else if name == CRON_EXPRESSION then if v.Str? then Ok(f.(cronExpression := Some(v.s))) else Err(WrongType(name))
    else if name == PATTERN then if v.Str? then Ok(f.(pattern := Some(v.s))) else Err(WrongType(name))
    else if name == PAYLOAD then if v.Str? then Ok(f.(payload := Some(v.s))) else Err(WrongType(name))
    else Err(UnknownField(name))
  }

  /** ResetField. */
  function WithoutField(f: Fields, name: string): Result<Fields, Fault>
  {
    if name == CREATED_AT then Ok(f.(createdAt := None))
    else if name == UPDATED_AT then Ok(f.(updatedAt := None))
    else if name == STATUS then Ok(f.(status := None, addStatus := None, cleared := f.cleared - {STATUS}))
    else if name == NAME then Ok(f.(name := None))
    else if name == TASK_GROUP then Ok(f.(taskGroup := None))
    else if name == CRON_EXPRESSION then Ok(f.(cronExpression := None))
    else if name == PATTERN then Ok(f.(pattern := None))
    else if name == PAYLOAD then Ok(f.(payload := None))
    else Err(UnknownField(name))
  }

  /** A successful SetField is read back by Field, and no other column changes. */
  lemma {:induction false} SetThenField(f: Fields, name: string, v: Value)
    ensures WithField(f, name, v).Ok? ==>
              forall n :: Field(WithField(f, name, v).value, n) == if n == name then Some(v) else Field(f, n)
    ensures WithField(f, name, v).Err? <==> name !in COLUMNS || !Fits(name, v)
  {
  }

  /** The value has the column's type. */
  predicate Fits(name: string, v: Value)
  {
    if name == CREATED_AT || name == UPDATED_AT then v.Time?
    else if name == STATUS then v.Uint8?
    else v.Str?
  }

  // ---------------------------------------------------------------- the mutation object

  class Mutation {
    var fields: Fields

    constructor ()
      ensures fields == FRESH
    {
      fields := FRESH;
    }

    method SetStatus(u: uint8)
      modifies this
      ensures fields == old(fields).(status := Some(u), addStatus := None) == Direct(old(fields), SetTo(u))
    {
      fields := fields.(status := Some(u));
      fields := fields.(addStatus := None);
    }

    method AddStatus(i: int8)
      modifies this
      ensures fields == old(fields).(addStatus := fields.addStatus) == Direct(old(fields), Add(i))
      ensures fields.addStatus == Some(if old(fields).addStatus.Some? then WrapInt8(old(fields).addStatus.value + i) else i)
    {
      if fields.addStatus.Some? {
        fields := fields.(addStatus := Some(WrapInt8(fields.addStatus.value + i)));
      } else {
        fields := fields.(addStatus := Some(i));
      }
    }

    method ClearStatus()
      modifies this
      ensures fields == old(fields).(status := None, addStatus := None, cleared := old(fields).cleared + {STATUS}) == Direct(old(fields), Clear)
    {
      fields := fields.(status := None);
      fields := fields.(addStatus := None);
      fields := fields.(cleared := fields.cleared + {STATUS});
    }

    method ResetStatus()
      modifies this
      ensures fields == old(fields).(status := None, addStatus := None, cleared := old(fields).cleared - {STATUS}) == Direct(old(fields), Reset)
    {
      fields := fields.(status := None);
      fields := fields.(addStatus := None);
      fields := fields.(cleared := fields.cleared - {STATUS});
    }

    method SetCreatedAt(t: int)
      modifies this
      ensures fields == old(fields).(createdAt := Some(t))
    {
      fields := fields.(createdAt := Some(t));
    }

    method ResetCreatedAt()
      modifies this
      ensures fields == old(fields).(createdAt := None)
    {
      fields := fields.(createdAt := None);
    }

    method SetUpdatedAt(t: int)
      modifies this
      ensures fields == old(fields).(updatedAt := Some(t))
    {
      fields := fields.(updatedAt := Some(t));
    }

    method ResetUpdatedAt()
      modifies this
      ensures fields == old(fields).(updatedAt := None)
    {
      fields := fields.(updatedAt := None);
    }

    method SetName(s: string)
      modifies this
      ensures fields == old(fields).(name := Some(s))
    {
      fields := fields.(name := Some(s));
    }

    method ResetName()
      modifies this
      ensures fields == old(fields).(name := None)
    {
      fields := fields.(name := None);
    }

    method SetTaskGroup(s: string)
      modifies this
      ensures fields == old(fields).(taskGroup := Some(s))
    {
      fields := fields.(taskGroup := Some(s));
    }

    method ResetTaskGroup()
      modifies this
      ensures fields == old(fields).(taskGroup := None)
    {
      fields := fields.(taskGroup := None);
    }

    method SetCronExpression(s: string)
      modifies this
      ensures fields == old(fields).(cronExpression := Some(s))
    {
      fields := fields.(cronExpression := Some(s));
    }

    method ResetCronExpression()
      modifies this
      ensures fields == old(fields).(cronExpression := None)
    {
      fields := fields.(cronExpression := None);
    }

    method SetPattern(s: string)
      modifies this
      ensures fields == old(fields).(pattern := Some(s))
    {
      fields := fields.(pattern := Some(s));
    }

    method ResetPattern()
      modifies this
      ensures fields == old(fields).(pattern := None)
    {
      fields := fields.(pattern := None);
    }

    method SetPayload(s: string)
      modifies this
      ensures fields == old(fields).(payload := Some(s))
    {
      fields := fields.(payload := Some(s));
    }

    method ResetPayload()
      modifies this
      ensures fields == old(fields).(payload := None)
    {
      fields := fields.(payload := None);
    }

    /**
     SetField: a known name with a value of the column's type is read back by Field, no other column changes, and
     neither does a cleared mark; anything else is reported and changes nothing.
     */
    method SetField(name: string, v: Value) returns (fault: Option<Fault>)
      modifies this
      ensures fault == if name !in COLUMNS then Some(UnknownField(name)) else if !Fits(name, v) then Some(WrongType(name)) else None
      ensures fault.Some? ==> fields == old(fields)
      ensures fault == None ==> forall n :: Field(fields, n) == if n == name then Some(v) else Field(old(fields), n)
      ensures fault == None ==> fields.addStatus == (if name == STATUS then None else old(fields).addStatus)
      ensures fields.cleared == old(fields).cleared
      ensures fault == None ==> Ok(fields) == WithField(old(fields), name, v)
    {
      if name == CREATED_AT {
        if !v.Time? {
          return Some(WrongType(name));
        }
        SetCreatedAt(v.t);
      } else if name == UPDATED_AT {
        if !v.Time? {
          return Some(WrongType(name));
        }
        SetUpdatedAt(v.t);
      } else if name == STATUS {
        if !v.Uint8? {
          return Some(WrongType(name));
        }
        SetStatus(v.u);
      } else if name == NAME {
        if !v.Str? {
          return Some(WrongType(name));
        }
        SetName(v.s);
      } else if name == TASK_GROUP {
        if !v.Str? {
          return Some(WrongType(name));
        }
        SetTaskGroup(v.s);
      } else if name == CRON_EXPRESSION {
        if !v.Str? {
          return Some(WrongType(name));
        }
        SetCronExpression(v.s);
      } else if name == PATTERN {
        if !v.Str? {
          return Some(WrongType(name));
        }
        SetPattern(v.s);
      } else if name == PAYLOAD {
        if !v.Str? {
          return Some(WrongType(name));
        }
        SetPayload(v.s);
      } else {
        return Some(UnknownField(name));
      }
      return None;
    }

    /** AddField and ClearField know only status. */
    method AddField(name: string, v: Value) returns (fault: Option<Fault>)
      modifies this
      ensures name != STATUS ==> fault == Some(UnknownField(name))
      ensures name == STATUS && !v.Int8? ==> fault == Some(WrongType(name))
      ensures fault.Some? ==> fields == old(fields)
      ensures name == STATUS && v.Int8? ==> fault == None && fields == AfterCall(old(fields), AddedStatus(v.i))
    {
      if name != STATUS {
        return Some(UnknownField(name));
      }
      if !v.Int8? {
        return Some(WrongType(name));
      }
      AddStatus(v.i);
      return None;
    }

    method ClearField(name: string) returns (fault: Option<Fault>)
      modifies this
      ensures name != STATUS ==> fault == Some(UnknownField(name)) && fields == old(fields)
      ensures name == STATUS ==> fault == None && fields == AfterCall(old(fields), ClearedStatus)
    {
      if name != STATUS {
        return Some(UnknownField(name));
      }
      ClearStatus();
      return None;
    }

    /** ResetField: afterwards the column holds nothing and is not marked, and no other column changes. */
    method ResetField(name: string) returns (fault: Option<Fault>)
      modifies this
      ensures fault == if name in COLUMNS then None else Some(UnknownField(name))
      ensures fault.Some? ==> fields == old(fields)
      ensures fault == None ==> forall n :: Field(fields, n) == if n == name then None else Field(old(fields), n)
      ensures fault == None ==> fields.addStatus == (if name == STATUS then None else old(fields).addStatus)
      ensures fault == None ==> fields.cleared == old(fields).cleared - (if name == STATUS then {STATUS} else {})
      ensures fault == None ==> Ok(fields) == WithoutField(old(fields), name)
    {
      if name == CREATED_AT {
        ResetCreatedAt();
      } else if name == UPDATED_AT {
        ResetUpdatedAt();
      } else if name == STATUS {
        ResetStatus();
      } else if name == NAME {
        ResetName();
      } else if name == TASK_GROUP {
        ResetTaskGroup();
      } else if name == CRON_EXPRESSION {
        ResetCronExpression();
      } else if name == PATTERN {
        ResetPattern();
      } else if name == PAYLOAD {
        ResetPayload();
      } else {
        return Some(UnknownField(name));
      }
      return None;
    }
  }

  // ---------------------------------------------------------------- the status calls of the update builder

  datatype StatusCall = NewStatus(u: uint8) | AddedStatus(i: int8) | ClearedStatus

  /** SetStatus of the builder resets first. */
  class TaskUpdate {
    const mutation: Mutation

    constructor ()
      ensures fresh(mutation) && mutation.fields == FRESH
    {
      mutation := new Mutation();
    }

    method SetStatus(u: uint8)
      modifies mutation
      ensures mutation.fields == AfterCall(old(mutation.fields), NewStatus(u))
    {
      mutation.ResetStatus();
      mutation.SetStatus(u);
    }

    method AddStatus(i: int8)
      modifies mutation
      ensures mutation.fields == AfterCall(old(mutation.fields), AddedStatus(i))
    {
      mutation.AddStatus(i);
    }

    method ClearStatus()
      modifies mutation
      ensures mutation.fields == AfterCall(old(mutation.fields), ClearedStatus)
    {
      mutation.ClearStatus();
    }
  }

  function AfterCall(f: Fields, c: StatusCall): Fields
  {
    match c
    case NewStatus(u) => f.(status := Some(u), addStatus := None, cleared := f.cleared - {STATUS})
    case AddedStatus(i) => f.(addStatus := Some(if f.addStatus.Some? then WrapInt8(f.addStatus.value + i) else i))
    case ClearedStatus => f.(status := None, addStatus := None, cleared := f.cleared + {STATUS})
  }

  ghost function Run(calls: seq<StatusCall>): Fields
  {
    if calls == [] then FRESH else AfterCall(Run(calls[..|calls| - 1]), calls[|calls| - 1])
  }

  /** The amounts added since the last Set or Clear. */
  ghost function Pending(calls: seq<StatusCall>): seq<int>
  {
    if calls == [] || !calls[|calls| - 1].AddedStatus? then []
    else Pending(calls[..|calls| - 1]) + [calls[|calls| - 1].i]
  }

  ghost function Sum(s: seq<int>): int
  {
    if s == [] then 0 else Sum(s[..|s| - 1]) + s[|s| - 1]
  }

  /** Call `i` is the last one that sets or clears. */
  ghost predicate LastDecides(calls: seq<StatusCall>, i: int)
  {
    && 0 <= i < |calls| && !calls[i].AddedStatus?
    && forall j :: i < j < |calls| ==> calls[j].AddedStatus?
  }

  /** After any run: the last Set or Clear decides both the value and the cleared mark, which therefore never coexist. */
  lemma {:induction false} LastSetOrClearDecides(calls: seq<StatusCall>)
    ensures Run(calls).status.Some? ==> STATUS !in Run(calls).cleared
    ensures forall i :: LastDecides(calls, i) ==>
              && Run(calls).status == (if calls[i].NewStatus? then Some(calls[i].u) else None)
              && (STATUS in Run(calls).cleared <==> calls[i].ClearedStatus?)
    ensures (forall i :: !LastDecides(calls, i)) ==> Run(calls).status == None && Run(calls).cleared == {}
    ensures Valid(Run(calls))
  {
    if calls != [] {
      var n := |calls| - 1;
      LastSetOrClearDecides(calls[..n]);
      if calls[n].AddedStatus? {
        forall i
          ensures LastDecides(calls, i) <==> LastDecides(calls[..n], i)
        {
          assert forall j :: 0 <= j < n ==> calls[..n][j] == calls[j];
        }
      } else {
        assert LastDecides(calls, n);
      }
    }
  }

  lemma {:induction false} WrapAgain(a: int, b: int)
    ensures WrapInt8(WrapInt8(a) + b) == WrapInt8(a + b)
    ensures -128 <= b < 128 ==> WrapInt8(b) == b
  {
  }

  /** The added amount is the wrapped sum since the last Set or Clear, and absent if nothing was added since. */
  lemma {:induction false} AddedIsWrappedSum(calls: seq<StatusCall>)
    ensures Run(calls).addStatus == if Pending(calls) == [] then None else Some(WrapInt8(Sum(Pending(calls))))
  {
    if calls != [] {
      var n := |calls| - 1;
      AddedIsWrappedSum(calls[..n]);
      if calls[n].AddedStatus? {
        var pending := Pending(calls[..n]);
        assert Pending(calls)[..|Pending(calls)| - 1] == pending;
        WrapAgain(Sum(pending), calls[n].i);
      }
    }
  }

  /** After any run of builder calls the lists of added and of cleared fields hold status exactly if an amount is pending, or the last Set or Clear is a Clear. */
  lemma {:induction false} ListsAfterRun(calls: seq<StatusCall>)
    ensures AddedFields(Run(calls)) == if Pending(calls) == [] then [] else ["status"]
    ensures ClearedFields(Run(calls)) == if exists i :: LastDecides(calls, i) && calls[i].ClearedStatus? then ["status"] else []
  {
    AddedIsWrappedSum(calls);
    LastSetOrClearDecides(calls);
  }

  // ---------------------------------------------------------------- status calls on the mutation itself

  datatype DirectCall = SetTo(u: uint8) | Add(i: int8) | Clear | Reset

  function Direct(f: Fields, c: DirectCall): Fields
  {
    match c
    case SetTo(u) => f.(status := Some(u), addStatus := None)
    case Add(i) => f.(addStatus := Some(if f.addStatus.Some? then WrapInt8(f.addStatus.value + i) else i))
    case Clear => f.(status := None, addStatus := None, cleared := f.cleared + {STATUS})
    case Reset => f.(status := None, addStatus := None, cleared := f.cleared - {STATUS})
  }

  ghost function RunDirect(calls: seq<DirectCall>): Fields
  {
    if calls == [] then FRESH else Direct(RunDirect(calls[..|calls| - 1]), calls[|calls| - 1])
  }

  function IsSetTo(): DirectCall -> bool
  {
    (c: DirectCall) => c.SetTo?
  }

  function IsClear(): DirectCall -> bool
  {
    (c: DirectCall) => c.Clear?
  }

  function IsReset(): DirectCall -> bool
  {
    (c: DirectCall) => c.Reset?
  }

  function ClearsOrResets(): DirectCall -> bool
  {
    (c: DirectCall) => c.Clear? || c.Reset?
  }

  /** After any direct calls: a value is set if a Set stands against Clear and Reset, and the mark if a Clear stands against Reset alone. */
  lemma {:induction false} DirectRunDecides(calls: seq<DirectCall>)
    ensures RunDirect(calls).status.Some? <==> exists j :: Stands(calls, j, IsSetTo(), ClearsOrResets())
    ensures STATUS in RunDirect(calls).cleared <==> exists i :: Stands(calls, i, IsClear(), IsReset())
  {
    if calls != [] {
      DirectRunDecides(calls[..|calls| - 1]);
      StandsStep(calls, IsSetTo(), ClearsOrResets());
      StandsStep(calls, IsClear(), IsReset());
    }
  }

  /** A Clear that no Reset follows, and after it a Set that no Clear follows. */
  ghost predicate ClearThenSet(calls: seq<DirectCall>, i: int, j: int)
  {
    && 0 <= i < j < |calls| && calls[i].Clear? && calls[j].SetTo?
    && (forall k :: i < k < |calls| ==> !calls[k].Reset?)
    && (forall k :: j < k < |calls| ==> !calls[k].Clear?)
  }

  /** Without the builder's reset a status ends both set and cleared exactly when a Clear was never reset and a Set came after the last Clear. */
  lemma {:induction false} SetAndClearedIff(calls: seq<DirectCall>)
    ensures RunDirect(calls).status.Some? && STATUS in RunDirect(calls).cleared <==> exists i, j :: ClearThenSet(calls, i, j)
  {
    DirectRunDecides(calls);
    if RunDirect(calls).status.Some? && STATUS in RunDirect(calls).cleared {
      var i :| Stands(calls, i, IsClear(), IsReset());
      var j :| Stands(calls, j, IsSetTo(), ClearsOrResets());
      assert i != j && !(j < i);
      assert ClearThenSet(calls, i, j);
    }
    forall i, j | ClearThenSet(calls, i, j)
      ensures Stands(calls, i, IsClear(), IsReset()) && Stands(calls, j, IsSetTo(), ClearsOrResets())
    {
    }
  }

  /** A Clear and then a Set leave the status both set and cleared. */
  lemma {:induction false} ClearThenSetCoexist(u: uint8)
    ensures RunDirect([Clear, SetTo(u)]).status == Some(u) && STATUS in RunDirect([Clear, SetTo(u)]).cleared
  {
    assert [Clear, SetTo(u)][..1] == [Clear] && [Clear][..0] == [];
    assert RunDirect([Clear]) == Direct(FRESH, Clear);
  }

  /** The builder's three calls in terms of direct ones: its SetStatus resets first, so it never lets the two coexist. */
  lemma {:induction false} BuilderCallsAreDirect(f: Fields, u: uint8, i: int8)
    ensures AfterCall(f, NewStatus(u)) == Direct(Direct(f, Reset), SetTo(u))
    ensures AfterCall(f, AddedStatus(i)) == Direct(f, Add(i)) && AfterCall(f, ClearedStatus) == Direct(f, Clear)
  {
  }

  // ---------------------------------------------------------------- resetting

  ghost function ResetOne(f: Fields, name: string): Fields
  {
    match WithoutField(f, name)
    case Ok(g) => g
    case Err(_) => f
  }

  ghost function ResetFields(f: Fields, names: seq<string>): Fields
  {
    if names == [] then f else ResetOne(ResetFields(f, names[..|names| - 1]), names[|names| - 1])
  }

  lemma {:induction false} ResetOneKeeps(f: Fields, reset: string, name: string)
    requires name in COLUMNS && (reset == name || Untouched(f, name))
    ensures Untouched(ResetOne(f, reset), name)
  {
  }

  ghost predicate Untouched(f: Fields, name: string)
  {
    Field(f, name) == None && (name == STATUS ==> f.addStatus == None && STATUS !in f.cleared)
  }

  lemma {:induction false} ResetSticks(f: Fields, names: seq<string>, name: string)
    requires name in names && name in COLUMNS
    ensures Untouched(ResetFields(f, names), name)
  {
    var n := |names| - 1;
    if names[n] != name {
      assert names == names[..n] + [names[n]];
      ResetSticks(f, names[..n], name);
    }
    ResetOneKeeps(ResetFields(f, names[..n]), names[n], name);
  }

  lemma {:induction false} ResetKeepsValid(f: Fields, names: seq<string>)
    requires Valid(f)
    ensures Valid(ResetFields(f, names))
  {
    if names != [] {
      ResetKeepsValid(f, names[..|names| - 1]);
    }
  }

  /** Resetting every column, in any order and with any repetitions or unknown names between, gives back a fresh mutation with three empty lists. */
  lemma {:induction false} ResetEverything(f: Fields, names: seq<string>)
    requires Valid(f) && forall c :: c in COLUMNS ==> c in names
    ensures ResetFields(f, names) == FRESH
    ensures ChangedFields(FRESH) == [] && AddedFields(FRESH) == [] && ClearedFields(FRESH) == []
  {
    ResetKeepsValid(f, names);
    forall i | 0 <= i < |COLUMNS|
      ensures Untouched(ResetFields(f, names), COLUMNS[i])
    {
      ResetSticks(f, names, COLUMNS[i]);
    }
    var r := ResetFields(f, names);
    assert Untouched(r, COLUMNS[0]) && Untouched(r, COLUMNS[1]) && Untouched(r, COLUMNS[2]) && Untouched(r, COLUMNS[3]);
    assert Untouched(r, COLUMNS[4]) && Untouched(r, COLUMNS[5]) && Untouched(r, COLUMNS[6]) && Untouched(r, COLUMNS[7]);
  }
}
