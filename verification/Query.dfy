/**
 Query builders over one table (TaskQuery, TaskLogQuery, RelayChainQuery, RelayTokenQuery of
 the ent package) and their paging.  All runs what the database promises: the rows that
 satisfy every predicate, in the requested order, after the offset, up to the limit.
 */
module Query {
  import opened Wrappers
  import opened Machine
  import opened Ordering

  type Predicate<!Row> = Row -> bool

  datatype QueryError = NotFound | NotSingular | NegativeBound | Unavailable

  predicate Satisfies<Row>(ps: seq<Predicate<Row>>, row: Row)
  {
    forall i :: 0 <= i < |ps| ==> ps[i](row)
  }

  /** Every row of the table that matches, in the requested order. */
  ghost function Matching<Row>(table: seq<Row>, ps: seq<Predicate<Row>>, keys: seq<Key<Row>>): seq<Row>
  {
    Sort(keys, Filter(row => Satisfies(ps, row), table))
  }

  lemma {:induction false} MatchingIs<Row>(table: seq<Row>, ps: seq<Predicate<Row>>, keys: seq<Key<Row>>, p: Predicate<Row>)
    requires forall x :: x in table ==> (Satisfies(ps, x) <==> p(x))
    ensures Matching(table, ps, keys) == Sort(keys, Filter(p, table))
  {
    FilterSame(row => Satisfies(ps, row), p, table);
  }

  function Window<Row>(s: seq<Row>, offset: nat, limit: nat): seq<Row>
  {
    var start := if offset <= |s| then offset else |s|;
    var end := if limit <= |s| - start then start + limit else |s|;
    s[start..end]
  }

  /**
   One table; while `broken`, every query on it fails.  `windowedCount` is what the library makes of
   counting so many rows through a limit and an offset.
   */
  class Table<Row> {
    var rows: seq<Row>
    var broken: bool
    const windowedCount: (nat, int, int) -> Result<nat, QueryError>

    constructor (rows: seq<Row>, broken: bool, windowedCount: (nat, int, int) -> Result<nat, QueryError>)
      ensures this.rows == rows && this.broken == broken && this.windowedCount == windowedCount
    {
      this.rows, this.broken, this.windowedCount := rows, broken, windowedCount;
    }
  }

  /** ent's QueryContext: shared by reference, so a clone of a query must copy it. */
  class QueryContext {
    var fields: seq<string>
    var limit: Option<int>
    var offset: Option<int>

    constructor (fields: seq<string>, limit: Option<int>, offset: Option<int>)
      ensures this.fields == fields && this.limit == limit && this.offset == offset
    {
      this.fields, this.limit, this.offset := fields, limit, offset;
    }
  }

  class Builder<Row> {
    const driver: Table<Row>
    const ctx: QueryContext
    var predicates: seq<Predicate<Row>>
    var order: seq<Key<Row>>

    constructor (driver: Table<Row>)
      ensures this.driver == driver && fresh(ctx)
      ensures predicates == [] && order == []
      ensures ctx.fields == [] && ctx.limit == None && ctx.offset == None
    {
      this.driver, predicates, order := driver, [], [];
      ctx := new QueryContext([], None, None);
    }

    /** The constructor Clone uses. */
    constructor Copy(driver: Table<Row>, ctx: QueryContext, predicates: seq<Predicate<Row>>, order: seq<Key<Row>>)
      ensures this.driver == driver && this.ctx == ctx
      ensures this.predicates == predicates && this.order == order
    {
      this.driver, this.ctx, this.predicates, this.order := driver, ctx, predicates, order;
    }

    method Where(ps: seq<Predicate<Row>>)
      modifies this`predicates
      ensures predicates == old(predicates) + ps
    {
      predicates := predicates + ps;
    }

    method Order(keys: seq<Key<Row>>)
      modifies this`order
      ensures order == old(order) + keys
    {
      order := order + keys;
    }

    method Limit(limit: int)
      modifies ctx`limit
      ensures ctx.limit == Some(limit)
    {
      ctx.limit := Some(limit);
    }

    method Offset(offset: int)
      modifies ctx`offset
      ensures ctx.offset == Some(offset)
    {
      ctx.offset := Some(offset);
    }

    /** Clone: same query, nothing mutable in common. */
    method Clone() returns (q: Builder<Row>)
      ensures fresh(q) && fresh(q.ctx)
      ensures q.driver == driver && q.predicates == predicates && q.order == order
      ensures q.ctx.fields == ctx.fields && q.ctx.limit == ctx.limit && q.ctx.offset == ctx.offset
    {
      var c := new QueryContext(ctx.fields, ctx.limit, ctx.offset);
      q := new Builder.Copy(driver, c, predicates, order);
    }

    /** The rows the query selects before offset and limit. */
    ghost function Selected(): seq<Row>
      reads this, driver
    {
      Matching(driver.rows, predicates, order)
    }

    /** All: the database refuses negative bounds; in a query spec a limit of zero is the same as none. */
    method All() returns (r: Result<seq<Row>, QueryError>)
      ensures r == Fetch(driver.broken, Selected(), ctx.offset, ctx.limit)
    {
      if driver.broken {
        return Err(Unavailable);
      }
      var ps := predicates;
      var rows := Sort(order, Filter(row => Satisfies(ps, row), driver.rows));
      var offset := if ctx.offset.Some? then ctx.offset.value else 0;
      var limit := if ctx.limit.Some? && ctx.limit.value != 0 then ctx.limit.value else |rows|;
      if offset < 0 || limit < 0 {
        return Err(NegativeBound);
      }
      return Ok(Window(rows, offset, limit));
    }

    /** Count: without an offset and a limit, the number of selected rows. */
    method Count() returns (r: Result<nat, QueryError>)
      ensures r == if driver.broken then Err(Unavailable) else Counted(driver.windowedCount, |Selected()|, ctx.offset, ctx.limit)
      ensures !driver.broken && ctx.offset == None && ctx.limit == None ==> r == Ok(|Selected()|)
    {
      if driver.broken {
        return Err(Unavailable);
      }
      var ps := predicates;
      var rows := Filter(row => Satisfies(ps, row), driver.rows);
      SortKeeps(order, rows);
      return Counted(driver.windowedCount, |rows|, ctx.offset, ctx.limit);
    }

    /** Only: two rows are enough to know whether exactly one is left after the offset. */
    method Only() returns (r: Result<Row, QueryError>)
      modifies ctx`limit
      ensures ctx.limit == Some(2)
      ensures var left := Fetch(driver.broken, Selected(), ctx.offset, None);
              r == if left.Err? then Err(left.error)
                   else if |left.value| == 0 then Err(NotFound)
                   else if |left.value| == 1 then Ok(left.value[0])
                   else Err(NotSingular)
    {
      Limit(2);
      var list := All();
      if list.Err? {
        return Err(list.error);
      }
      if |list.value| == 1 {
        return Ok(list.value[0]);
      } else if |list.value| == 0 {
        return Err(NotFound);
      } else {
        return Err(NotSingular);
      }
    }
  }

  /** What the database answers, given the selected rows in order. */
  ghost function Fetch<Row>(broken: bool, selected: seq<Row>, offset: Option<int>, limit: Option<int>): Result<seq<Row>, QueryError>
  {
    var from := if offset.Some? then offset.value else 0;
    var size := if limit.Some? && limit.value != 0 then limit.value else |selected|;
    if broken then Err(Unavailable)
    else if from < 0 || size < 0 then Err(NegativeBound)
    else Ok(Window(selected, from, size))
  }

  /** What comes back: a failure, a refusal of negative bounds, or the rows after the offset, up to the limit; zero and no limit are the same. */
  lemma {:induction false} FetchSpelledOut<Row>(broken: bool, selected: seq<Row>, offset: Option<int>, limit: Option<int>)
    ensures var r := Fetch(broken, selected, offset, limit);
            var from := if offset == None then 0 else offset.value;
            && (broken <==> r == Err(Unavailable))
            && (!broken && (from < 0 || (limit.Some? && limit.value < 0)) <==> r == Err(NegativeBound))
            && (!broken && from >= 0 && (limit == None || limit == Some(0)) ==> r == Ok(selected[Least(from, |selected|)..]))
            && (!broken && from >= 0 && limit.Some? && limit.value > 0 ==>
                  r == Ok(selected[Least(from, |selected|)..Least(from + limit.value, |selected|)]))
  {
    var from := if offset == None then 0 else offset.value;
    assert from >= 0 ==> selected[Least(from, |selected|)..|selected|] == selected[Least(from, |selected|)..];
  }

  /** What counting `n` selected rows yields. */
  function Counted(windowedCount: (nat, int, int) -> Result<nat, QueryError>, n: nat, offset: Option<int>, limit: Option<int>): Result<nat, QueryError>
  {
    var from := if offset.Some? then offset.value else 0;
    var size := if limit.Some? then limit.value else 0;
    if from == 0 && size == 0 then Ok(n) else windowedCount(n, from, size)
  }

  // ---------------------------------------------------------------- paging

  datatype PageList<Row> = PageList(list: seq<Row>, page: int, size: int, total: nat)

  /** int((page - 1) * size). */
  function OffsetOf(page: int, size: int): int
  {
    ToInt(Wrap(Wrap(page - 1) * size))
  }

  /** The page of the ordered list `full` that a request gets. */
  ghost function PageOf<Row>(full: seq<Row>, page: int, size: int): Result<seq<Row>, QueryError>
  {
    if OffsetOf(page, size) < 0 || ToInt(size) < 0 then Err(NegativeBound)
    else Ok(Window(full, OffsetOf(page, size), if size == 0 then |full| else ToInt(size)))
  }

  /** Rows number (page - 1) * size to page * size of the list, as far as it goes. */
  ghost function Slice<Row>(full: seq<Row>, page: int, size: int): seq<Row>
    requires 1 <= page && 1 <= size
  {
    Scaled(0, page - 1, size);
    Scaled(page - 1, page, size);
    full[Least((page - 1) * size, |full|)..Least(page * size, |full|)]
  }

  function Least(a: int, b: int): (m: int)
    ensures m <= a && m <= b && (m == a || m == b)
  {
    if a <= b then a else b
  }

  /** While the offset fits a signed word, a page is just those rows. */
  lemma {:induction false} PageIsSlice<Row>(full: seq<Row>, page: int, size: int)
    requires 1 <= page < TWO64 && 1 <= size < TWO63 && (page - 1) * size < TWO63
    ensures PageOf(full, page, size) == Ok(Slice(full, page, size))
  {
    OffsetExact(page, size);
    Scaled(0, page - 1, size);
    assert page * size == (page - 1) * size + size;
  }

  /** The same with the request's numbers and the total beside it. */
  ghost function PageResult<Row>(full: seq<Row>, page: int, size: int, total: Result<nat, QueryError>): Result<PageList<Row>, QueryError>
  {
    if total.Err? then Err(total.error)
    else
      match PageOf(full, page, size)
      case Err(e) => Err(e)
      case Ok(list) => Ok(PageList(list, page, size, total.value))
  }

  /**
   TaskQuery.Page and TaskLogQuery.Page, without a filter option.  A query without an offset and a limit of
   its own has the length of the whole list as its total; a page size of zero asks for all rows.
   */
  method Page<Row>(q: Builder<Row>, pageNum: int, pageSize: int, pagerOrder: Option<Key<Row>>, defaultOrder: Key<Row>)
    returns (r: Result<PageList<Row>, QueryError>)
    requires 0 <= pageNum < TWO64 && 0 <= pageSize < TWO64
    modifies q`order, q.ctx`limit, q.ctx`offset
    ensures r.Ok? ==> q.order == old(q.order) + [if pagerOrder.Some? then pagerOrder.value else defaultOrder]
    ensures r.Ok? ==> q.ctx.offset == Some(OffsetOf(pageNum, pageSize)) && q.ctx.limit == Some(ToInt(pageSize))
    ensures var full := Matching(q.driver.rows, q.predicates, old(q.order) + [if pagerOrder.Some? then pagerOrder.value else defaultOrder]);
            r == if q.driver.broken then Err(Unavailable)
                 else PageResult(full, pageNum, pageSize, Counted(q.driver.windowedCount, |full|, old(q.ctx.offset), old(q.ctx.limit)))
    ensures var full := Matching(q.driver.rows, q.predicates, old(q.order) + [if pagerOrder.Some? then pagerOrder.value else defaultOrder]);
            !q.driver.broken && old(q.ctx.offset) == None && old(q.ctx.limit) == None
            && 1 <= pageNum && 1 <= pageSize < TWO63 && (pageNum - 1) * pageSize < TWO63 ==>
              r == Ok(PageList(Slice(full, pageNum, pageSize), pageNum, pageSize, |full|))
  {
    ghost var all := Matching(q.driver.rows, q.predicates, q.order + [if pagerOrder.Some? then pagerOrder.value else defaultOrder]);
    if 1 <= pageNum && 1 <= pageSize < TWO63 && (pageNum - 1) * pageSize < TWO63 {
      PageIsSlice(all, pageNum, pageSize);
    }
    var total := CountClone(q);
    if total.Err? {
      return Err(total.error);
    }
    var key := if pagerOrder.Some? then pagerOrder.value else defaultOrder;
    SameSize(q.driver.rows, q.predicates, q.order, [key]);
    var list := ListPage(q, [key], pageNum, pageSize);
    if list.Err? {
      return Err(list.error);
    }
    return Ok(PageList(list.value, pageNum, pageSize, total.value));
  }

  /** Counts the whole selection on an independent clone, which forgets the selected fields. */
  method CountClone<Row>(q: Builder<Row>) returns (r: Result<nat, QueryError>)
    ensures r == if q.driver.broken then Err(Unavailable)
                 else Counted(q.driver.windowedCount, |q.Selected()|, q.ctx.offset, q.ctx.limit)
    ensures !q.driver.broken && q.ctx.offset == None && q.ctx.limit == None ==> r == Ok(|q.Selected()|)
  {
    var counting := q.Clone();
    counting.ctx.fields := [];
    r := counting.Count();
  }

  /** The chain Order, Offset, Limit, All that ends every listing. */
  method ListPage<Row>(q: Builder<Row>, keys: seq<Key<Row>>, page: int, size: int) returns (r: Result<seq<Row>, QueryError>)
    requires 0 <= size < TWO64
    modifies q`order, q.ctx`limit, q.ctx`offset
    ensures q.order == old(q.order) + keys
    ensures q.ctx.offset == Some(OffsetOf(page, size)) && q.ctx.limit == Some(ToInt(size))
    ensures r == if q.driver.broken then Err(Unavailable)
                 else PageOf(Matching(q.driver.rows, q.predicates, old(q.order) + keys), page, size)
  {
    q.Order(keys);
    q.Offset(OffsetOf(page, size));
    q.Limit(ToInt(size));
    r := q.All();
  }

  /** A fresh query with predicates and an order, and no window. */
  method SelectAll<Row>(driver: Table<Row>, ps: seq<Predicate<Row>>, keys: seq<Key<Row>>) returns (r: Result<seq<Row>, QueryError>)
    ensures r == if driver.broken then Err(Unavailable) else Ok(Matching(driver.rows, ps, keys))
  {
    var q := new Builder(driver);
    q.Where(ps);
    q.Order(keys);
    assert q.predicates == ps && q.order == keys;
    ghost var found := q.Selected();
    r := q.All();
    assert found[0..|found|] == found;
  }

  lemma {:induction false} SameSize<Row>(rows: seq<Row>, ps: seq<Predicate<Row>>, keys: seq<Key<Row>>, more: seq<Key<Row>>)
    ensures |Matching(rows, ps, keys)| == |Matching(rows, ps, keys + more)|
  {
    var kept := Filter(row => Satisfies(ps, row), rows);
    SortKeeps(keys, kept);
    SortKeeps(keys + more, kept);
  }

  /** The offset is the one asked for exactly when the product fits a signed machine word. */
  lemma {:induction false} OffsetExact(page: int, size: int)
    requires 1 <= page < TWO64 && 1 <= size < TWO64
    ensures OffsetOf(page, size) == (page - 1) * size <==> (page - 1) * size < TWO63
  {
    var product := (page - 1) * size;
    Scaled(0, page - 1, size);
    assert Wrap(page - 1) == page - 1;
    assert OffsetOf(page, size) == ToInt(Wrap(product));
    SurvivesIffSigned(product);
  }

  function PageCount(total: nat, size: int): nat
    requires size >= 1
  {
    (total + size - 1) / size
  }

  /** Pages 1 to n, one after the other. */
  ghost function FirstPages<Row>(full: seq<Row>, size: int, n: nat): seq<Row>
  {
    if n == 0 then []
    else FirstPages(full, size, n - 1) + match PageOf(full, n, size) case Ok(list) => list case Err(_) => []
  }

  lemma {:induction false} FirstPagesArePrefix<Row>(full: seq<Row>, size: int, n: nat)
    requires 1 <= size < TWO63 && |full| < TWO63
    requires n <= PageCount(|full|, size)
    ensures FirstPages(full, size, n) == full[..if n * size <= |full| then n * size else |full|]
    ensures n >= 1 ==> PageOf(full, n, size).Ok?
  {
    if n > 0 {
      FirstPagesArePrefix(full, size, n - 1);
      PageStartsInside(|full|, size, n);
      assert (n - 1) * size + size == n * size;
    }
  }

  lemma {:induction false} Ceiling(total: nat, size: int)
    requires 1 <= size
    ensures total <= PageCount(total, size) * size < total + size
  {
    var x := total + size - 1;
    assert x == (x / size) * size + x % size;
  }

  lemma {:induction false} Scaled(a: int, b: int, size: int)
    requires a <= b && 1 <= size
    ensures a * size <= b * size
  {
  }

  lemma {:induction false} ScaledUp(a: nat, size: int)
    requires 1 <= size
    ensures a <= a * size
  {
  }

  lemma {:induction false} PageStartsInside(total: nat, size: int, n: nat)
    requires 1 <= size < TWO63 && 1 <= n <= PageCount(total, size) && total < TWO63
    ensures 0 <= (n - 1) * size < total && n < TWO64 && OffsetOf(n, size) == (n - 1) * size
  {
    assert 0 <= (n - 1) * size < total by {
      Ceiling(total, size);
      Scaled(n, PageCount(total, size), size);
      Scaled(0, n - 1, size);
    }
    assert n - 1 <= (n - 1) * size by {
      ScaledUp(n - 1, size);
    }
    OffsetExact(n, size);
  }

  /** Pages 1 to ceil(total / size) are all served and together are the whole list in order, each row once. */
  lemma {:induction false} PagesPartition<Row>(full: seq<Row>, size: int)
    requires 1 <= size < TWO63 && |full| < TWO63
    ensures FirstPages(full, size, PageCount(|full|, size)) == full
    ensures forall n :: 1 <= n <= PageCount(|full|, size) ==> PageOf(full, n, size).Ok?
  {
    var last := PageCount(|full|, size);
    FirstPagesArePrefix(full, size, last);
    Ceiling(|full|, size);
    forall n | 1 <= n <= last
      ensures PageOf(full, n, size).Ok?
    {
      FirstPagesArePrefix(full, size, n);
    }
  }

  /** A page is empty exactly when its machine offset is at or beyond the end; without overflow that is every page after the last. */
  lemma {:induction false} LaterPagesEmpty<Row>(full: seq<Row>, page: int, size: int)
    requires 1 <= page < TWO64 && 1 <= size < TWO63
    ensures PageOf(full, page, size) == Ok([]) <==> OffsetOf(page, size) >= |full|
    ensures page > PageCount(|full|, size) && (page - 1) * size < TWO63 ==> PageOf(full, page, size) == Ok([])
  {
    OffsetExact(page, size);
    if page > PageCount(|full|, size) {
      Ceiling(|full|, size);
      Scaled(PageCount(|full|, size), page - 1, size);
    }
  }

  /** A page is refused exactly when its machine offset or its machine size is negative. */
  lemma {:induction false} PageRefusedIff<Row>(full: seq<Row>, page: int, size: int)
    requires 1 <= page < TWO64 && 0 <= size < TWO64
    ensures PageOf(full, page, size).Err? <==> OffsetOf(page, size) < 0 || size >= TWO63
    ensures PageOf(full, page, size).Err? ==> PageOf(full, page, size).error == NegativeBound
  {
  }

  /** With overflow a far page repeats the first one. */
  lemma {:induction false} OverflowRepeatsFirstPage<Row>(full: seq<Row>)
    ensures PageOf(full, TWO63 + 1, 2) == PageOf(full, 1, 2)
    ensures TWO63 + 1 > PageCount(|full|, 2) && full != [] ==> PageOf(full, TWO63 + 1, 2) != Ok([])
  {
  }
}
