/**
 One synchronisation of relay chains and tokens with Relay's answer: sync and what it calls in
 internal/mqs/amq/handler/amq/relaychains/relay_chains.go.  The unique index on (token_id, chain_id) makes the tokens of a
 chain a map from token ids to rows; the one on (chain_id, address) is an invariant.
 */
module RelaySync {
  import opened Wrappers
  import opened Ordering
  import opened RelayFeed

  datatype Row = Row(address: string, details: Details, supported: bool)

  type Rows = map<string, Row>

  /** The unique index on (chain_id, address). */
  ghost predicate OneRowPerAddress(rows: Rows)
  {
    forall p, q :: p in rows && q in rows && rows[p].address == rows[q].address ==> p == q
  }

  /** The validators of the columns that a create or an update writes. */
  predicate Valid(t: Token)
  {
    t.id != "" && t.address != "" && t.details.symbol != "" && t.details.decimals >= 0
  }

  function RowOf(t: Token): Row
  {
    Row(t.address, t.details, t.supported)
  }

  function HeldBy(rows: Rows, address: string): set<string>
  {
    set q | q in rows && rows[q].address == address
  }

  /** updateRelayToken on the row with this id: refused if invalid or if another row has the address. */
  function Updated(rows: Rows, id: string, t: Token): Option<Rows>
  {
    if Valid(t) && HeldBy(rows, t.address) <= {id} then Some(rows[id := RowOf(t)]) else None
  }

  /**
   upsertRelayToken: by id; else a new row; else, if another row has the address, that row keeps its id and takes the
   rest, provided the failed insert has not aborted the transaction.
   */
  ghost function Upserted(rows: Rows, t: Token, aborts: bool): Option<Rows>
  {
    if t.id in rows then Updated(rows, t.id, t)
    else if !Valid(t) then None
    else if HeldBy(rows, t.address) == {} then Some(rows[t.id := RowOf(t)])
    else if aborts then None
    else var q :| q in HeldBy(rows, t.address); Updated(rows, q, t)
  }

  ghost function UpsertedAll(rows: Rows, tokens: seq<Token>, aborts: bool): Option<Rows>
  {
    if tokens == [] then Some(rows)
    else
      match UpsertedAll(rows, tokens[..|tokens| - 1], aborts)
      case None => None
      case Some(r) => Upserted(r, tokens[|tokens| - 1], aborts)
  }

  /** The update that turns off every row of a chain whose id is not listed. */
  function TurnedOff(rows: Rows, keep: set<string>): Rows
  {
    map q | q in rows :: if q in keep then rows[q] else rows[q].(supported := false)
  }

  function Ids(tokens: seq<Token>): set<string>
  {
    set i | 0 <= i < |tokens| :: tokens[i].id
  }

  /** syncRelayTokens. */
  ghost function SyncedRows(rows: Rows, supported: bool, tokens: seq<Token>, aborts: bool): Option<Rows>
  {
    if !supported || tokens == [] then Some(TurnedOff(rows, {}))
    else
      match UpsertedAll(rows, tokens, aborts)
      case None => None
      case Some(r) => Some(TurnedOff(r, Ids(tokens)))
  }

  // ---------------------------------------------------------------- what one chain converges to

  ghost function SupportedIds(rows: Rows): set<string>
  {
    set q | q in rows && rows[q].supported
  }

  ghost predicate DistinctIds(tokens: seq<Token>)
  {
    forall i, j :: 0 <= i < j < |tokens| ==> tokens[i].id != tokens[j].id
  }

  /** When its turn comes, token `i` has no row of its own and finds its address taken. */
  ghost predicate FallsBack(rows: Rows, tokens: seq<Token>, i: int, aborts: bool)
  {
    && 0 <= i < |tokens|
    && var r := UpsertedAll(rows, tokens[..i], aborts);
       r.Some? && tokens[i].id !in r.value && HeldBy(r.value, tokens[i].address) != {}
  }

  lemma {:induction false} UpsertKeepsIndex(rows: Rows, t: Token, aborts: bool)
    requires OneRowPerAddress(rows) && Upserted(rows, t, aborts).Some?
    ensures var r := Upserted(rows, t, aborts).value;
            && OneRowPerAddress(r)
            && (t.id in rows || HeldBy(rows, t.address) == {} ==> r == rows[t.id := RowOf(t)])
            && (t.id !in rows && HeldBy(rows, t.address) != {} ==>
                  exists q :: q in rows && q != t.id && rows[q].address == t.address && r == rows[q := RowOf(t)])
  {
    forall p | p in rows && rows[p].address == t.address
      ensures p in HeldBy(rows, t.address)
    {
    }
  }

  /**
   One upsert: the token gets its row unless it falls back, and then writes its content to the row with its address;
   all other rows stay, and only the token's own row can move to another address.
   */
  lemma {:induction false} UpsertStep(rows: Rows, t: Token, aborts: bool)
    requires OneRowPerAddress(rows) && Upserted(rows, t, aborts).Some?
    ensures var r := Upserted(rows, t, aborts).value;
            && OneRowPerAddress(r)
            && (t.id in r <==> t.id in rows || HeldBy(rows, t.address) == {})
            && (t.id in r ==> r[t.id] == RowOf(t))
            && (forall q :: q in r && q != t.id ==> q in rows)
            && (forall q :: q in rows ==> q in r)
            && (forall q :: q in rows && q != t.id ==>
                  r[q] == (if t.id !in r && rows[q].address == t.address then RowOf(t) else rows[q]) && r[q].address == rows[q].address)
  {
    UpsertKeepsIndex(rows, t, aborts);
  }

  lemma {:induction false} FallsBackEarlier(rows: Rows, tokens: seq<Token>, i: int, aborts: bool)
    requires tokens != [] && i < |tokens| - 1
    ensures FallsBack(rows, tokens, i, aborts) <==> FallsBack(rows, tokens[..|tokens| - 1], i, aborts)
  {
    if 0 <= i {
      assert tokens[..|tokens| - 1][..i] == tokens[..i];
    }
  }

  lemma {:induction false} IdsSnoc(tokens: seq<Token>)
    requires tokens != []
    ensures var n := |tokens| - 1; Ids(tokens) == Ids(tokens[..n]) + {tokens[n].id}
  {
    var n := |tokens| - 1;
    assert forall i :: 0 <= i < n ==> tokens[..n][i] == tokens[i];
    forall id | id in Ids(tokens)
      ensures id in Ids(tokens[..n]) + {tokens[n].id}
    {
      var i :| 0 <= i < |tokens| && tokens[i].id == id;
      assert i < n ==> tokens[..n][i].id in Ids(tokens[..n]);
    }
  }

  /** No row is lost, and new rows are for feed tokens only. */
  lemma {:induction false} UpsertsKeepRows(rows: Rows, tokens: seq<Token>, aborts: bool)
    requires OneRowPerAddress(rows) && UpsertedAll(rows, tokens, aborts).Some?
    ensures var r := UpsertedAll(rows, tokens, aborts).value;
            OneRowPerAddress(r) && (forall q :: q in rows ==> q in r) && (forall q :: q in r ==> q in rows || q in Ids(tokens))
  {
    if tokens != [] {
      var n := |tokens| - 1;
      UpsertsKeepRows(rows, tokens[..n], aborts);
      UpsertStep(UpsertedAll(rows, tokens[..n], aborts).value, tokens[n], aborts);
      IdsSnoc(tokens);
    }
  }

  /** After all upserts a feed token has a row of its own, turned on, exactly if it never fell back. */
  lemma {:induction false} OwnRowIffNoFallback(rows: Rows, tokens: seq<Token>, i: nat, aborts: bool)
    requires OneRowPerAddress(rows) && DistinctIds(tokens) && UpsertedAll(rows, tokens, aborts).Some? && i < |tokens|
    requires forall j :: 0 <= j < |tokens| ==> tokens[j].supported
    ensures var r := UpsertedAll(rows, tokens, aborts).value;
            && (tokens[i].id in r <==> !FallsBack(rows, tokens, i, aborts))
            && (tokens[i].id in r ==> r[tokens[i].id].supported)
  {
    var n := |tokens| - 1;
    if i < n {
      var front := tokens[..n];
      assert front[i] == tokens[i];
      OwnRowIffNoFallback(rows, front, i, aborts);
      FallsBackEarlier(rows, tokens, i, aborts);
      UpsertsKeepRows(rows, front, aborts);
      OtherRowStays(UpsertedAll(rows, front, aborts).value, tokens[n], tokens[i].id, aborts);
    } else {
      LastOwnRow(rows, tokens, aborts);
    }
  }

  lemma {:induction false} LastOwnRow(rows: Rows, tokens: seq<Token>, aborts: bool)
    requires OneRowPerAddress(rows) && tokens != [] && UpsertedAll(rows, tokens, aborts).Some? && tokens[|tokens| - 1].supported
    ensures var r, n := UpsertedAll(rows, tokens, aborts).value, |tokens| - 1;
            && (tokens[n].id in r <==> !FallsBack(rows, tokens, n, aborts))
            && (tokens[n].id in r ==> r[tokens[n].id].supported)
  {
    var n := |tokens| - 1;
    UpsertsKeepRows(rows, tokens[..n], aborts);
    UpsertStep(UpsertedAll(rows, tokens[..n], aborts).value, tokens[n], aborts);
  }

  lemma {:induction false} OtherRowStays(rows: Rows, t: Token, q: string, aborts: bool)
    requires OneRowPerAddress(rows) && Upserted(rows, t, aborts).Some? && q != t.id && t.supported
    ensures var r := Upserted(rows, t, aborts).value; (q in r <==> q in rows) && (q in rows && rows[q].supported ==> r[q].supported)
  {
    UpsertStep(rows, t, aborts);
  }

  /** The rows of `r` are the feed's for its ids and those of `rows` for all others. */
  ghost predicate Overlaid(rows: Rows, tokens: seq<Token>, r: Rows)
  {
    && (forall q :: q in r <==> q in rows || q in Ids(tokens))
    && (forall i :: 0 <= i < |tokens| ==> tokens[i].id in r && r[tokens[i].id] == RowOf(tokens[i]))
    && (forall q :: q in rows && q !in Ids(tokens) ==> r[q] == rows[q])
  }

  lemma {:induction false} OverlaySnoc(rows: Rows, tokens: seq<Token>, before: Rows)
    requires tokens != [] && DistinctIds(tokens) && Overlaid(rows, tokens[..|tokens| - 1], before)
    ensures var last := tokens[|tokens| - 1]; Overlaid(rows, tokens, before[last.id := RowOf(last)])
  {
    var n := |tokens| - 1;
    IdsSnoc(tokens);
    var r := before[tokens[n].id := RowOf(tokens[n])];
    forall i | 0 <= i < |tokens|
      ensures tokens[i].id in r && r[tokens[i].id] == RowOf(tokens[i])
    {
      assert i < n ==> tokens[..n][i] == tokens[i];
    }
  }

  /** While nothing has fallen back, the rows are the feed's for its ids and the old ones for all others. */
  lemma {:induction false} RowsWithoutFallback(rows: Rows, tokens: seq<Token>, aborts: bool)
    requires OneRowPerAddress(rows) && DistinctIds(tokens) && UpsertedAll(rows, tokens, aborts).Some?
    requires forall i :: !FallsBack(rows, tokens, i, aborts)
    ensures var r := UpsertedAll(rows, tokens, aborts).value; OneRowPerAddress(r) && Overlaid(rows, tokens, r)
  {
    if tokens != [] {
      var n := |tokens| - 1;
      var front, last := tokens[..n], tokens[n];
      forall i
        ensures !FallsBack(rows, front, i, aborts)
      {
        if i < n {
          FallsBackEarlier(rows, tokens, i, aborts);
        }
      }
      RowsWithoutFallback(rows, front, aborts);
      var before := UpsertedAll(rows, front, aborts).value;
      assert !FallsBack(rows, tokens, n, aborts);
      assert UpsertedAll(rows, tokens, aborts) == Upserted(before, last, aborts);
      UpsertKeepsIndex(before, last, aborts);
      IdsSnoc(tokens);
      OverlaySnoc(rows, tokens, before);
    }
  }

  /**
   Before the sync: token `i` is new to the chain, and its address belongs to an earlier token of the feed or to a row
   of the chain that no earlier token of the feed takes over by its id.
   */
  ghost predicate MeetsByAddress(rows: Rows, tokens: seq<Token>, i: int)
  {
    && 0 <= i < |tokens| && tokens[i].id !in rows
    && ((exists j :: 0 <= j < i && tokens[j].address == tokens[i].address)
        || (exists q :: q in rows && q !in Ids(tokens[..i]) && rows[q].address == tokens[i].address))
  }

  ghost predicate Clash(rows: Rows, tokens: seq<Token>)
  {
    exists i :: MeetsByAddress(rows, tokens, i)
  }

  lemma {:induction false} PrefixSucceeds(rows: Rows, tokens: seq<Token>, n: nat, aborts: bool)
    requires n <= |tokens| && UpsertedAll(rows, tokens, aborts).Some?
    ensures UpsertedAll(rows, tokens[..n], aborts).Some?
  {
    if n < |tokens| {
      var front := tokens[..|tokens| - 1];
      PrefixSucceeds(rows, front, n, aborts);
      assert front[..n] == tokens[..n];
    } else {
      assert tokens[..n] == tokens;
    }
  }

  /** Whether a token falls back can be read off the table and the feed beforehand, as long as none before it does. */
  lemma {:induction false} FallsBackIffMeets(rows: Rows, tokens: seq<Token>, i: nat, aborts: bool)
    requires OneRowPerAddress(rows) && DistinctIds(tokens) && UpsertedAll(rows, tokens, aborts).Some? && i < |tokens|
    requires forall j :: 0 <= j < i ==> !FallsBack(rows, tokens, j, aborts)
    ensures FallsBack(rows, tokens, i, aborts) <==> MeetsByAddress(rows, tokens, i)
  {
    var before := tokens[..i];
    PrefixSucceeds(rows, tokens, i, aborts);
    forall j
      ensures !FallsBack(rows, before, j, aborts)
    {
      if 0 <= j < i {
        assert before[..j] == tokens[..j];
        assert !FallsBack(rows, tokens, j, aborts);
      }
    }
    RowsWithoutFallback(rows, before, aborts);
    HoldersBefore(rows, tokens, i, UpsertedAll(rows, before, aborts).value);
  }

  lemma {:induction false} HoldersBefore(rows: Rows, tokens: seq<Token>, i: nat, r: Rows)
    requires i < |tokens| && DistinctIds(tokens)
    requires Overlaid(rows, tokens[..i], r)
    ensures tokens[i].id !in r && HeldBy(r, tokens[i].address) != {} <==> MeetsByAddress(rows, tokens, i)
  {
    var a := tokens[i].address;
    assert forall j :: 0 <= j < i ==> tokens[..i][j] == tokens[j];
    assert tokens[i].id !in Ids(tokens[..i]);
    if HeldBy(r, a) != {} {
      var q :| q in HeldBy(r, a);
      if q in Ids(tokens[..i]) {
        var j :| 0 <= j < i && tokens[..i][j].id == q;
        assert tokens[j].address == a;
      }
    }
    forall j | 0 <= j < i && tokens[j].address == a
      ensures HeldBy(r, a) != {}
    {
      assert tokens[..i][j].id in HeldBy(r, a);
    }
    forall q | q in rows && q !in Ids(tokens[..i]) && rows[q].address == a
      ensures HeldBy(r, a) != {}
    {
      assert q in HeldBy(r, a);
    }
  }

  lemma {:induction false} SomeFallbackIffClash(rows: Rows, tokens: seq<Token>, n: nat, aborts: bool)
    requires OneRowPerAddress(rows) && DistinctIds(tokens) && UpsertedAll(rows, tokens, aborts).Some? && n <= |tokens|
    ensures (exists i :: i < n && FallsBack(rows, tokens, i, aborts)) <==> (exists i :: i < n && MeetsByAddress(rows, tokens, i))
  {
    if n > 0 {
      SomeFallbackIffClash(rows, tokens, n - 1, aborts);
      if forall j :: j < n - 1 ==> !FallsBack(rows, tokens, j, aborts) {
        FallsBackIffMeets(rows, tokens, n - 1, aborts);
      }
    }
  }

  /**
   After a sync of one chain without failure its supported tokens are exactly those of the feed if and only if no
   token of the feed, new to the chain, meets another row by its address.
   */
  lemma {:induction false} SupportedIffNoClash(rows: Rows, tokens: seq<Token>, aborts: bool)
    requires OneRowPerAddress(rows) && DistinctIds(tokens) && SyncedRows(rows, true, tokens, aborts).Some?
    requires forall i :: 0 <= i < |tokens| ==> tokens[i].supported
    ensures SupportedIds(SyncedRows(rows, true, tokens, aborts).value) == Ids(tokens) <==> !Clash(rows, tokens)
    ensures OneRowPerAddress(SyncedRows(rows, true, tokens, aborts).value)
  {
    if tokens == [] {
      assert SupportedIds(TurnedOff(rows, {})) == {};
    } else {
      var r, ids := UpsertedAll(rows, tokens, aborts).value, Ids(tokens);
      UpsertsKeepRows(rows, tokens, aborts);
      SomeFallbackIffClash(rows, tokens, |tokens|, aborts);
      forall i | 0 <= i < |tokens|
        ensures tokens[i].id in SupportedIds(TurnedOff(r, ids)) <==> !FallsBack(rows, tokens, i, aborts)
      {
        OwnRowIffNoFallback(rows, tokens, i, aborts);
        assert tokens[i].id in ids;
      }
      OnAmong(r, tokens);
    }
  }

  lemma {:induction false} OnAmong(r: Rows, tokens: seq<Token>)
    ensures var on := SupportedIds(TurnedOff(r, Ids(tokens)));
            on == Ids(tokens) <==> forall i :: 0 <= i < |tokens| ==> tokens[i].id in on
  {
    var on := SupportedIds(TurnedOff(r, Ids(tokens)));
    assert forall q :: q in on ==> q in Ids(tokens);
    forall i | 0 <= i < |tokens|
      ensures tokens[i].id in Ids(tokens)
    {
    }
  }

  /**
   Before the sync: the address of token `i` belongs to an earlier token of the feed or to another row of the chain
   that no earlier token of the feed takes over by its id.
   */
  ghost predicate Blocked(rows: Rows, tokens: seq<Token>, i: int)
  {
    && 0 <= i < |tokens|
    && ((exists j :: 0 <= j < i && tokens[j].address == tokens[i].address)
        || (exists q :: q in rows && q != tokens[i].id && q !in Ids(tokens[..i]) && rows[q].address == tokens[i].address))
  }

  /** Every token of the feed has an id, an address, a symbol and no negative decimals, and finds its address free. */
  ghost predicate Unobstructed(rows: Rows, tokens: seq<Token>)
  {
    forall i :: 0 <= i < |tokens| ==>
      && tokens[i].id != "" && tokens[i].address != "" && tokens[i].details.symbol != "" && tokens[i].details.decimals >= 0
      && !Blocked(rows, tokens, i)
  }

  /** When the earlier tokens have their rows, nothing but the token's own row holds its address exactly if it is not blocked. */
  lemma {:induction false} FreeIffNotBlocked(rows: Rows, tokens: seq<Token>, i: nat, r: Rows)
    requires i < |tokens| && DistinctIds(tokens) && Overlaid(rows, tokens[..i], r)
    ensures HeldBy(r, tokens[i].address) <= {tokens[i].id} <==> !Blocked(rows, tokens, i)
  {
    var a, id, before := tokens[i].address, tokens[i].id, tokens[..i];
    assert forall j :: 0 <= j < i ==> before[j] == tokens[j] && tokens[j].id != id;
    forall q | q in HeldBy(r, a) && q != id
      ensures Blocked(rows, tokens, i)
    {
      if q in Ids(before) {
        var j :| 0 <= j < i && before[j].id == q;
        assert tokens[j].address == a;
      }
    }
    forall j | 0 <= j < i && tokens[j].address == a
      ensures !(HeldBy(r, a) <= {id})
    {
      assert before[j].id in HeldBy(r, a);
    }
    forall q | q in rows && q != id && q !in Ids(before) && rows[q].address == a
      ensures !(HeldBy(r, a) <= {id})
    {
      assert q in HeldBy(r, a);
    }
  }

  /** A feed without obstructions goes through, and its tokens get their own rows. */
  lemma {:induction false} UnobstructedSucceeds(rows: Rows, tokens: seq<Token>, aborts: bool)
    requires OneRowPerAddress(rows) && DistinctIds(tokens) && Unobstructed(rows, tokens)
    ensures UpsertedAll(rows, tokens, aborts).Some?
    ensures var r := UpsertedAll(rows, tokens, aborts).value; OneRowPerAddress(r) && Overlaid(rows, tokens, r)
  {
    if tokens != [] {
      var n := |tokens| - 1;
      var front := tokens[..n];
      UnobstructedFront(rows, tokens);
      UnobstructedSucceeds(rows, front, aborts);
      UnobstructedLast(rows, tokens, UpsertedAll(rows, front, aborts).value, aborts);
    }
  }

  lemma {:induction false} UnobstructedLast(rows: Rows, tokens: seq<Token>, before: Rows, aborts: bool)
    requires tokens != [] && DistinctIds(tokens) && Unobstructed(rows, tokens)
    requires OneRowPerAddress(before) && Overlaid(rows, tokens[..|tokens| - 1], before)
    ensures var r := Upserted(before, tokens[|tokens| - 1], aborts); r.Some? && OneRowPerAddress(r.value) && Overlaid(rows, tokens, r.value)
  {
    var n := |tokens| - 1;
    FreeIffNotBlocked(rows, tokens, n, before);
    FreeUpsert(before, tokens[n], aborts);
    OverlaySnoc(rows, tokens, before);
  }

  lemma {:induction false} UnobstructedFront(rows: Rows, tokens: seq<Token>)
    requires tokens != [] && Unobstructed(rows, tokens)
    ensures Unobstructed(rows, tokens[..|tokens| - 1])
  {
    var front := tokens[..|tokens| - 1];
    forall i | 0 <= i < |front|
      ensures Valid(front[i]) && !Blocked(rows, front, i)
    {
      assert front[..i] == tokens[..i];
      assert !Blocked(rows, tokens, i);
    }
  }

  lemma {:induction false} FreeUpsert(rows: Rows, t: Token, aborts: bool)
    requires OneRowPerAddress(rows) && Valid(t) && HeldBy(rows, t.address) <= {t.id}
    ensures Upserted(rows, t, aborts) == Some(rows[t.id := RowOf(t)]) && OneRowPerAddress(rows[t.id := RowOf(t)])
  {
    assert t.id !in rows ==> t.id !in HeldBy(rows, t.address);
    UpsertKeepsIndex(rows, t, aborts);
  }

  /** Without a fallback, success shows that nothing was in the way. */
  lemma {:induction false} SuccessUnobstructed(rows: Rows, tokens: seq<Token>, i: nat, aborts: bool)
    requires OneRowPerAddress(rows) && DistinctIds(tokens) && UpsertedAll(rows, tokens, aborts).Some? && i < |tokens|
    requires forall j :: !FallsBack(rows, tokens, j, aborts)
    ensures Valid(tokens[i]) && !Blocked(rows, tokens, i)
  {
    var before := tokens[..i];
    AllValid(rows, tokens, i, aborts);
    PrefixSucceeds(rows, tokens, i, aborts);
    PrefixSucceeds(rows, tokens, i + 1, aborts);
    assert tokens[..i + 1][..i] == before;
    forall j
      ensures !FallsBack(rows, before, j, aborts)
    {
      assert 0 <= j < i ==> before[..j] == tokens[..j];
      assert !FallsBack(rows, tokens, j, aborts);
    }
    RowsWithoutFallback(rows, before, aborts);
    var r := UpsertedAll(rows, before, aborts).value;
    assert !FallsBack(rows, tokens, i, aborts);
    assert Upserted(r, tokens[i], aborts).Some?;
    FreeIffNotBlocked(rows, tokens, i, r);
  }

  /**
   Convergence of one chain: its sync succeeds and leaves exactly the feed's tokens supported if and only if every
   token of the feed is valid and finds its address free.
   */
  lemma {:induction false} ChainConvergesIff(rows: Rows, tokens: seq<Token>, aborts: bool)
    requires OneRowPerAddress(rows) && DistinctIds(tokens)
    requires forall i :: 0 <= i < |tokens| ==> tokens[i].supported
    ensures var r := SyncedRows(rows, true, tokens, aborts);
            r.Some? && SupportedIds(r.value) == Ids(tokens) <==> Unobstructed(rows, tokens)
  {
    var r := SyncedRows(rows, true, tokens, aborts);
    if Unobstructed(rows, tokens) {
      UnobstructedSucceeds(rows, tokens, aborts);
      OverlaidIsSupported(rows, tokens, aborts);
    }
    if r.Some? && SupportedIds(r.value) == Ids(tokens) && tokens != [] {
      SupportedIffNoClash(rows, tokens, aborts);
      SomeFallbackIffClash(rows, tokens, |tokens|, aborts);
      assert forall j :: !FallsBack(rows, tokens, j, aborts);
      forall i | 0 <= i < |tokens|
        ensures Valid(tokens[i]) && !Blocked(rows, tokens, i)
      {
        SuccessUnobstructed(rows, tokens, i, aborts);
      }
    }
  }

  lemma {:induction false} OverlaidIsSupported(rows: Rows, tokens: seq<Token>, aborts: bool)
    requires UpsertedAll(rows, tokens, aborts).Some? && Overlaid(rows, tokens, UpsertedAll(rows, tokens, aborts).value)
    requires forall i :: 0 <= i < |tokens| ==> tokens[i].supported
    ensures SupportedIds(SyncedRows(rows, true, tokens, aborts).value) == Ids(tokens)
  {
    if tokens == [] {
      assert SupportedIds(TurnedOff(rows, {})) == {};
    } else {
      OnAmong(UpsertedAll(rows, tokens, aborts).value, tokens);
      forall i | 0 <= i < |tokens|
        ensures tokens[i].id in Ids(tokens)
      {
      }
    }
  }

  /** Two tokens that swap their addresses block each other: nothing clashes, but the chain is refused, and a new token with it. */
  lemma {:induction false} SwappedAddressesAreRefused(a: Token, b: Token, d: Token, x: Row, y: Row, aborts: bool)
    requires a.id != b.id && x.address == b.address && y.address == a.address
    requires d.id != a.id && d.id != b.id && d.address != a.address && d.address != b.address
    ensures var rows: Rows := map[a.id := x, b.id := y];
            && !Clash(rows, [a, b, d])
            && SyncedRows(rows, true, [a, b, d], aborts) == None
            && SupportedIds(rows) != Ids([a, b, d])
  {
    var rows: Rows, tokens := map[a.id := x, b.id := y], [a, b, d];
    assert tokens[..1] == [a] && [a][..0] == [] && UpsertedAll(rows, [], aborts) == Some(rows);
    assert b.id in HeldBy(rows, a.address);
    assert UpsertedAll(rows, [a], aborts) == Upserted(rows, a, aborts) == None;
    FailsEarly(rows, tokens, 1, aborts);
    assert tokens[2].id in Ids(tokens) && d.id !in SupportedIds(rows);
  }

  /** Without a clash the feed's rows are exactly its tokens, and every other row of the chain only loses its support. */
  lemma {:induction false} ChainContents(rows: Rows, tokens: seq<Token>, aborts: bool)
    requires OneRowPerAddress(rows) && DistinctIds(tokens) && tokens != [] && SyncedRows(rows, true, tokens, aborts).Some?
    requires !Clash(rows, tokens)
    ensures var r := SyncedRows(rows, true, tokens, aborts).value;
            && OneRowPerAddress(r)
            && (forall i :: 0 <= i < |tokens| ==>
                  && tokens[i].id in r
                  && r[tokens[i].id].address == tokens[i].address
                  && r[tokens[i].id].details == tokens[i].details
                  && r[tokens[i].id].supported == tokens[i].supported)
            && (forall q :: q in rows && q !in Ids(tokens) ==> q in r && r[q] == rows[q].(supported := false))
            && (forall q :: q in r ==> q in rows || q in Ids(tokens))
  {
    SomeFallbackIffClash(rows, tokens, |tokens|, aborts);
    forall i
      ensures !FallsBack(rows, tokens, i, aborts)
    {
    }
    RowsWithoutFallback(rows, tokens, aborts);
    OverlaidContents(rows, tokens, UpsertedAll(rows, tokens, aborts).value);
  }

  lemma {:induction false} OverlaidContents(rows: Rows, tokens: seq<Token>, u: Rows)
    requires Overlaid(rows, tokens, u)
    ensures var r := TurnedOff(u, Ids(tokens));
            && (forall i :: 0 <= i < |tokens| ==> tokens[i].id in r && r[tokens[i].id] == Row(tokens[i].address, tokens[i].details, tokens[i].supported))
            && (forall q :: q in rows && q !in Ids(tokens) ==> q in r && r[q] == rows[q].(supported := false))
            && (forall q :: q in r ==> q in rows || q in Ids(tokens))
            && (OneRowPerAddress(u) ==> OneRowPerAddress(r))
  {
    forall i | 0 <= i < |tokens|
      ensures tokens[i].id in Ids(tokens)
    {
    }
  }

  lemma {:induction false} AllValid(rows: Rows, tokens: seq<Token>, i: nat, aborts: bool)
    requires UpsertedAll(rows, tokens, aborts).Some? && i < |tokens|
    ensures Valid(tokens[i])
  {
    var n := |tokens| - 1;
    if i < n {
      AllValid(rows, tokens[..n], i, aborts);
    } else {
      var before := UpsertedAll(rows, tokens[..n], aborts).value;
      assert Upserted(before, tokens[n], aborts).Some?;
    }
  }

  // ---------------------------------------------------------------- a second sync of the same feed

  /** A token with a row of its own leaves it at its address: no other token moves a row. */
  lemma {:induction false} OwnAddress(rows: Rows, tokens: seq<Token>, i: nat, aborts: bool)
    requires OneRowPerAddress(rows) && DistinctIds(tokens) && UpsertedAll(rows, tokens, aborts).Some?
    requires i < |tokens| && tokens[i].id in UpsertedAll(rows, tokens, aborts).value
    ensures UpsertedAll(rows, tokens, aborts).value[tokens[i].id].address == tokens[i].address
  {
    var n := |tokens| - 1;
    UpsertsKeepRows(rows, tokens[..n], aborts);
    UpsertStep(UpsertedAll(rows, tokens[..n], aborts).value, tokens[n], aborts);
    if i < n {
      OwnAddress(rows, tokens[..n], i, aborts);
    }
  }

  /** The last token that writes to the row `q` at address `a`, if those without a row in `own` fall back. */
  ghost function LastWriter(tokens: seq<Token>, q: string, a: string, own: set<string>): Option<Token>
  {
    if tokens == [] then None
    else
      var last := tokens[|tokens| - 1];
      if last.id == q || (last.id !in own && last.address == a) then Some(last)
      else LastWriter(tokens[..|tokens| - 1], q, a, own)
  }

  /** A row ends with the content of its last writer. */
  lemma {:induction false} ContentAfter(rows: Rows, tokens: seq<Token>, q: string, own: set<string>, aborts: bool)
    requires OneRowPerAddress(rows) && DistinctIds(tokens) && UpsertedAll(rows, tokens, aborts).Some?
    requires q in UpsertedAll(rows, tokens, aborts).value
    requires forall i :: 0 <= i < |tokens| ==> (tokens[i].id in own <==> tokens[i].id in UpsertedAll(rows, tokens, aborts).value)
    ensures var r := UpsertedAll(rows, tokens, aborts).value;
            var w := LastWriter(tokens, q, r[q].address, own);
            if w.None? then q in rows && r[q] == rows[q] else r[q] == RowOf(w.value)
  {
    if tokens != [] {
      var n := |tokens| - 1;
      var front, last := tokens[..n], tokens[n];
      UpsertsKeepRows(rows, front, aborts);
      RowAfterStep(UpsertedAll(rows, front, aborts).value, last, q, aborts);
      if last.id != q {
        OwnInFront(rows, tokens, own, aborts);
        ContentAfter(rows, front, q, own, aborts);
      }
    }
  }

  lemma {:induction false} RowAfterStep(rows: Rows, t: Token, q: string, aborts: bool)
    requires OneRowPerAddress(rows) && Upserted(rows, t, aborts).Some? && q in Upserted(rows, t, aborts).value
    ensures var r := Upserted(rows, t, aborts).value;
            if q == t.id then r[q] == RowOf(t)
            else q in rows && r[q].address == rows[q].address
                 && r[q] == if t.id !in r && rows[q].address == t.address then RowOf(t) else rows[q]
  {
    UpsertStep(rows, t, aborts);
  }

  lemma {:induction false} OwnInFront(rows: Rows, tokens: seq<Token>, own: set<string>, aborts: bool)
    requires OneRowPerAddress(rows) && DistinctIds(tokens) && tokens != [] && UpsertedAll(rows, tokens, aborts).Some?
    requires forall i :: 0 <= i < |tokens| ==> (tokens[i].id in own <==> tokens[i].id in UpsertedAll(rows, tokens, aborts).value)
    ensures var front := tokens[..|tokens| - 1];
            forall i :: 0 <= i < |front| ==> (front[i].id in own <==> front[i].id in UpsertedAll(rows, front, aborts).value)
  {
    var n := |tokens| - 1;
    var front := tokens[..n];
    UpsertsKeepRows(rows, front, aborts);
    UpsertStep(UpsertedAll(rows, front, aborts).value, tokens[n], aborts);
    assert forall i :: 0 <= i < n ==> front[i] == tokens[i] && tokens[i].id != tokens[n].id;
  }

  /** The rows agree on ids and addresses. */
  ghost predicate SameShape(a: Rows, b: Rows)
  {
    (forall q :: q in a <==> q in b) && forall q :: q in a && q in b ==> a[q].address == b[q].address
  }

  /** Every token has a row of its own or, falling back, finds another row with its address. */
  ghost predicate AllPlaced(r: Rows, tokens: seq<Token>)
  {
    forall i :: 0 <= i < |tokens| ==> tokens[i].id in r || HeldBy(r, tokens[i].address) != {}
  }

  /** What a first sync leaves behind for a second: the tokens are valid, and those with a row of their own are at its address. */
  ghost predicate Ready(r: Rows, tokens: seq<Token>, aborts: bool)
  {
    && OneRowPerAddress(r) && DistinctIds(tokens)
    && forall i :: 0 <= i < |tokens| ==>
         Valid(tokens[i]) && (if tokens[i].id in r then r[tokens[i].id].address == tokens[i].address else !aborts)
  }

  /** On such rows every upsert succeeds, no row moves, and if all tokens are placed no row is added. */
  lemma {:induction false} SecondRun(r: Rows, tokens: seq<Token>, aborts: bool)
    requires Ready(r, tokens, aborts)
    ensures UpsertedAll(r, tokens, aborts).Some?
    ensures var u := UpsertedAll(r, tokens, aborts).value;
            && OneRowPerAddress(u)
            && (forall q :: q in r ==> q in u && u[q].address == r[q].address)
            && (forall q :: q in u ==> q in r || q in Ids(tokens))
            && (AllPlaced(r, tokens) ==> SameShape(u, r))
  {
    if tokens != [] {
      var n := |tokens| - 1;
      var front, last := tokens[..n], tokens[n];
      assert forall i :: 0 <= i < n ==> front[i] == tokens[i];
      SecondRun(r, front, aborts);
      var u := UpsertedAll(r, front, aborts).value;
      assert last.id !in Ids(front);
      assert AllPlaced(r, tokens) ==> AllPlaced(r, front);
      SecondStep(r, u, last, aborts);
      IdsSnoc(tokens);
    }
  }

  lemma {:induction false} SecondStep(r: Rows, u: Rows, t: Token, aborts: bool)
    requires OneRowPerAddress(u) && Valid(t) && (t.id in u <==> t.id in r)
    requires forall q :: q in r ==> q in u && u[q].address == r[q].address
    requires if t.id in r then r[t.id].address == t.address else !aborts
    ensures Upserted(u, t, aborts).Some?
    ensures var v := Upserted(u, t, aborts).value;
            && OneRowPerAddress(v)
            && (forall q :: q in r ==> q in v && v[q].address == r[q].address)
            && (forall q :: q in v ==> q in u || q == t.id)
            && (SameShape(u, r) && (t.id in r || HeldBy(r, t.address) != {}) ==> SameShape(v, r))
  {
    OneHolder(u, t.address);
    if t.id in u {
      assert t.id in HeldBy(u, t.address);
    }
    UpsertStep(u, t, aborts);
    if SameShape(u, r) && HeldBy(r, t.address) != {} {
      var q :| q in HeldBy(r, t.address);
      assert q in HeldBy(u, t.address);
    }
  }

  /** What a successful sync leaves is ready for a second one. */
  lemma {:induction false} ReadyAfter(rows: Rows, tokens: seq<Token>, aborts: bool)
    requires OneRowPerAddress(rows) && DistinctIds(tokens) && UpsertedAll(rows, tokens, aborts).Some?
    ensures Ready(UpsertedAll(rows, tokens, aborts).value, tokens, aborts)
  {
    var u := UpsertedAll(rows, tokens, aborts).value;
    UpsertsKeepRows(rows, tokens, aborts);
    forall i | 0 <= i < |tokens|
      ensures Valid(tokens[i])
      ensures if tokens[i].id in u then u[tokens[i].id].address == tokens[i].address else !aborts
    {
      AllValid(rows, tokens, i, aborts);
      if tokens[i].id in u {
        OwnAddress(rows, tokens, i, aborts);
      } else {
        MissingFellBack(rows, tokens, i, aborts);
      }
    }
  }

  /** A token without a row of its own fell back, so the failed insert cannot have aborted the transaction. */
  lemma {:induction false} MissingFellBack(rows: Rows, tokens: seq<Token>, i: nat, aborts: bool)
    requires OneRowPerAddress(rows) && DistinctIds(tokens) && UpsertedAll(rows, tokens, aborts).Some?
    requires i < |tokens| && tokens[i].id !in UpsertedAll(rows, tokens, aborts).value
    ensures FallsBack(rows, tokens, i, aborts) && !aborts
  {
    var n := |tokens| - 1;
    UpsertsKeepRows(rows, tokens[..n], aborts);
    UpsertStep(UpsertedAll(rows, tokens[..n], aborts).value, tokens[n], aborts);
    if i < n {
      MissingFellBack(rows, tokens[..n], i, aborts);
      FallsBackEarlier(rows, tokens, i, aborts);
    }
  }

  /** When no row moves and none is added, the second run writes what the first one wrote. */
  lemma {:induction false} SameContent(rows: Rows, tokens: seq<Token>, first: Rows, second: Rows, aborts: bool)
    requires OneRowPerAddress(rows) && DistinctIds(tokens) && UpsertedAll(rows, tokens, aborts) == Some(first)
    requires OneRowPerAddress(TurnedOff(first, Ids(tokens)))
    requires UpsertedAll(TurnedOff(first, Ids(tokens)), tokens, aborts) == Some(second)
    requires SameShape(second, first)
    ensures TurnedOff(second, Ids(tokens)) == TurnedOff(first, Ids(tokens))
  {
    forall q | q in first
      ensures TurnedOff(second, Ids(tokens))[q] == TurnedOff(first, Ids(tokens))[q]
    {
      SameRow(rows, tokens, first, second, q, aborts);
    }
  }

  /** Two runs that end with the same ids and addresses have the same last writer for each row. */
  lemma {:induction false} SameRow(rows: Rows, tokens: seq<Token>, first: Rows, second: Rows, q: string, aborts: bool)
    requires OneRowPerAddress(rows) && DistinctIds(tokens) && UpsertedAll(rows, tokens, aborts) == Some(first)
    requires OneRowPerAddress(TurnedOff(first, Ids(tokens)))
    requires UpsertedAll(TurnedOff(first, Ids(tokens)), tokens, aborts) == Some(second)
    requires SameShape(second, first) && q in first
    ensures TurnedOff(second, Ids(tokens))[q] == TurnedOff(first, Ids(tokens))[q]
  {
    ContentAfter(rows, tokens, q, first.Keys, aborts);
    ContentAfter(TurnedOff(first, Ids(tokens)), tokens, q, first.Keys, aborts);
  }

  /** A token that stays without a row of its own in a second run finds its address taken in the rows that run starts from. */
  lemma {:induction false} UnchangedMeansPlaced(r: Rows, tokens: seq<Token>, i: nat, aborts: bool)
    requires Ready(r, tokens, aborts) && i < |tokens| && tokens[i].id !in r
    requires UpsertedAll(r, tokens, aborts).Some? && SameShape(UpsertedAll(r, tokens, aborts).value, r)
    ensures HeldBy(r, tokens[i].address) != {}
  {
    MissingFellBack(r, tokens, i, aborts);
    var before := tokens[..i];
    PrefixSucceeds(r, tokens, i, aborts);
    assert forall j :: 0 <= j < i ==> before[j] == tokens[j];
    var b := UpsertedAll(r, before, aborts).value;
    var q :| q in HeldBy(b, tokens[i].address);
    SecondRun(r, before, aborts);
    KeptToTheEnd(r, tokens, i, q, aborts);
    assert b[q].address == r[q].address;
    assert q in HeldBy(r, tokens[i].address);
  }

  lemma {:induction false} KeptToTheEnd(rows: Rows, tokens: seq<Token>, n: nat, q: string, aborts: bool)
    requires OneRowPerAddress(rows) && UpsertedAll(rows, tokens, aborts).Some? && n <= |tokens|
    requires UpsertedAll(rows, tokens[..n], aborts).Some? && q in UpsertedAll(rows, tokens[..n], aborts).value
    ensures q in UpsertedAll(rows, tokens, aborts).value
  {
    if n == |tokens| {
      assert tokens[..n] == tokens;
    } else {
      var front := tokens[..|tokens| - 1];
      assert front[..n] == tokens[..n];
      KeptToTheEnd(rows, front, n, q, aborts);
      UpsertsKeepRows(rows, front, aborts);
      UpsertStep(UpsertedAll(rows, front, aborts).value, tokens[|tokens| - 1], aborts);
    }
  }

  /**
   A second sync of the same feed changes nothing if and only if every token has a row of its own or still
   finds its address taken.
   */
  lemma {:induction false} ChainSettlesIff(rows: Rows, supported: bool, tokens: seq<Token>, aborts: bool)
    requires OneRowPerAddress(rows) && DistinctIds(tokens) && SyncedRows(rows, supported, tokens, aborts).Some?
    ensures var r := SyncedRows(rows, supported, tokens, aborts).value;
            SyncedRows(r, supported, tokens, aborts).Some?
            && (SyncedRows(r, supported, tokens, aborts) == Some(r) <==> !supported || AllPlaced(r, tokens))
  {
    var r := SyncedRows(rows, supported, tokens, aborts).value;
    if !supported || tokens == [] {
      assert TurnedOff(r, {}) == r;
    } else {
      ReadyAfter(rows, tokens, aborts);
      SecondRun(r, tokens, aborts);
      if AllPlaced(r, tokens) {
        SameContent(rows, tokens, UpsertedAll(rows, tokens, aborts).value, UpsertedAll(r, tokens, aborts).value, aborts);
      }
      if SyncedRows(r, true, tokens, aborts) == Some(r) {
        assert SameShape(TurnedOff(UpsertedAll(r, tokens, aborts).value, Ids(tokens)), r);
        forall i | 0 <= i < |tokens| && tokens[i].id !in r
          ensures HeldBy(r, tokens[i].address) != {}
        {
          UnchangedMeansPlaced(r, tokens, i, aborts);
        }
      }
    }
  }

  /** A feed that goes through without obstruction settles at once. */
  lemma {:induction false} UnobstructedSettles(rows: Rows, tokens: seq<Token>, aborts: bool)
    requires OneRowPerAddress(rows) && DistinctIds(tokens) && Unobstructed(rows, tokens)
    ensures var r := SyncedRows(rows, true, tokens, aborts); r.Some? && SyncedRows(r.value, true, tokens, aborts) == r
  {
    UnobstructedSucceeds(rows, tokens, aborts);
    ChainSettlesIff(rows, true, tokens, aborts);
  }

  /** A token that Relay gave a new id: its row takes the new content, keeps the old id, is turned off at once, and stays so. */
  lemma {:induction false} RenamedTokenIsTurnedOff(old_: string, t: Token, before: Row)
    requires old_ != t.id && before.address == t.address && Valid(t) && t.supported
    ensures SyncedRows(map[old_ := before], true, [t], false) == Some(map[old_ := RowOf(t).(supported := false)])
    ensures Clash(map[old_ := before], [t])
    ensures var r: Rows := map[old_ := RowOf(t).(supported := false)]; SyncedRows(r, true, [t], false) == Some(r)
  {
    var rows: Rows := map[old_ := before];
    assert HeldBy(rows, t.address) == {old_};
    assert [t][..0] == [] && UpsertedAll(rows, [], false) == Some(rows);
    assert rows[old_ := RowOf(t)] == map[old_ := RowOf(t)];
    OneHolder(rows, t.address);
    assert forall q :: q in HeldBy(rows, t.address) ==> q == old_;
    assert Upserted(rows, t, false) == Updated(rows, old_, t) == Some(map[old_ := RowOf(t)]);
    assert UpsertedAll(rows, [t], false) == Upserted(rows, t, false);
    assert Ids([t]) == {t.id} by {
      assert [t][0].id in Ids([t]);
    }
    assert TurnedOff(map[old_ := RowOf(t)], Ids([t])) == map[old_ := RowOf(t).(supported := false)];
    assert old_ in rows && old_ !in Ids([t][..0]) && rows[old_].address == [t][0].address;
    assert MeetsByAddress(rows, [t], 0);
    var r: Rows := map[old_ := RowOf(t).(supported := false)];
    assert old_ in HeldBy(r, t.address);
    assert OneRowPerAddress(rows) && DistinctIds([t]);
    ChainSettlesIff(rows, true, [t], false);
  }

  /**
   A token that finds its address taken only until the row there moves away: the first sync leaves it out, the
   second one creates it.
   */
  lemma {:induction false} SecondSyncCreates(t: Token, u: Token, before: Row)
    requires t.id != u.id && before.address == t.address != u.address && Valid(t) && Valid(u) && t.supported && u.supported
    ensures SyncedRows(map[u.id := before], true, [t, u], false) == Some(map[u.id := RowOf(u)])
    ensures SyncedRows(map[u.id := RowOf(u)], true, [t, u], false) == Some(map[u.id := RowOf(u), t.id := RowOf(t)])
  {
    var rows: Rows, once: Rows, twice: Rows := map[u.id := before], map[u.id := RowOf(u)], map[u.id := RowOf(u), t.id := RowOf(t)];
    TwoUpserts(rows, t, u);
    assert HeldBy(rows, t.address) == {u.id} && rows[u.id := RowOf(t)] == map[u.id := RowOf(t)];
    OneHolder(rows, t.address);
    assert forall q :: q in HeldBy(rows, t.address) ==> q == u.id;
    assert Upserted(rows, t, false) == Some(map[u.id := RowOf(t)]);
    assert HeldBy(map[u.id := RowOf(t)], u.address) == {};
    assert map[u.id := RowOf(t)][u.id := RowOf(u)] == once;
    assert Upserted(map[u.id := RowOf(t)], u, false) == Some(once);
    assert TurnedOff(once, Ids([t, u])) == once;
    TwoUpserts(once, t, u);
    assert HeldBy(once, t.address) == {} && once[t.id := RowOf(t)] == twice;
    assert HeldBy(twice, u.address) == {u.id} && twice[u.id := RowOf(u)] == twice;
    assert TurnedOff(twice, Ids([t, u])) == twice;
  }

  lemma {:induction false} TwoUpserts(rows: Rows, t: Token, u: Token)
    ensures Ids([t, u]) == {t.id, u.id}
    ensures UpsertedAll(rows, [t, u], false) ==
            if Upserted(rows, t, false).None? then None else Upserted(Upserted(rows, t, false).value, u, false)
  {
    assert [t, u][..1] == [t] && [t][..0] == [] && UpsertedAll(rows, [], false) == Some(rows);
    assert UpsertedAll(rows, [t], false) == Upserted(rows, t, false);
    assert [t, u][0].id in Ids([t, u]) && [t, u][1].id in Ids([t, u]);
  }

  // ---------------------------------------------------------------- the whole synchronisation

  datatype ChainRow = ChainRow(name: string, disabled: bool, supported: bool, enabled: bool)

  /** An element of Relay's answer: one that yields no chain, or a chain; `fails` if its row or its transaction is refused. */
  datatype Entry = Malformed | Entry(id: int, name: string, disabled: bool, lists: Lists, fails: bool)

  datatype State = State(chains: map<int, ChainRow>, tokens: map<int, Rows>)

  datatype Outcome = Synced | Incomplete(failures: nat) | NotMarked

  function RowsOf(tokens: map<int, Rows>, chain: int): Rows
  {
    if chain in tokens then tokens[chain] else map[]
  }

  ghost predicate Indexed(tokens: map<int, Rows>)
  {
    forall c :: c in tokens ==> OneRowPerAddress(tokens[c])
  }

  /** upsertRelayChain: a known chain keeps its enabled mark. */
  function UpsertedChain(chains: map<int, ChainRow>, e: Entry): map<int, ChainRow>
    requires e.Entry?
  {
    chains[e.id := ChainRow(e.name, e.disabled, !e.disabled, if e.id in chains then chains[e.id].enabled else true)]
  }

  /** What one entry does, in a transaction of its own; a failure leaves everything as it was. */
  ghost function AfterEntry(s: State, e: Entry, rank: Collation, aborts: bool): (State, bool)
  {
    if e.Malformed? || e.fails then (s, false)
    else
      match SyncedRows(RowsOf(s.tokens, e.id), !e.disabled, FeedTokens(e.lists, rank), aborts)
      case None => (s, false)
      case Some(r) => (State(UpsertedChain(s.chains, e), s.tokens[e.id := r]), true)
  }

  /** What all entries do, one after the other, and how many of them fail. */
  ghost function AfterFeed(s: State, feed: seq<Entry>, rank: Collation, aborts: bool): (State, nat)
  {
    if feed == [] then (s, 0)
    else
      var (before, failures) := AfterFeed(s, feed[..|feed| - 1], rank, aborts);
      var (after, ok) := AfterEntry(before, feed[|feed| - 1], rank, aborts);
      (after, if ok then failures else failures + 1)
  }

  /** The chains that the answer mentions, synced or not. */
  ghost function Fetched(feed: seq<Entry>): set<int>
  {
    set i | 0 <= i < |feed| && feed[i].Entry? :: feed[i].id
  }

  /** markMissingChainsUnsupported. */
  function MarkedChains(chains: map<int, ChainRow>, fetched: set<int>): map<int, ChainRow>
  {
    if fetched == {} then chains
    else map c | c in chains :: if c in fetched then chains[c] else chains[c].(supported := false)
  }

  /** markTokensByChainSupport. */
  function MarkedTokens(chains: map<int, ChainRow>, tokens: map<int, Rows>): map<int, Rows>
  {
    map c | c in tokens :: if c in chains && !chains[c].supported then TurnedOff(tokens[c], {}) else tokens[c]
  }

  ghost function Marked(s: State, fetched: set<int>): State
  {
    var chains := MarkedChains(s.chains, fetched);
    State(chains, MarkedTokens(chains, s.tokens))
  }

  class Store {
    var chains: map<int, ChainRow>
    var tokens: map<int, Rows>
    /** Whether a refused statement aborts the transaction it is in. */
    const aborts: bool

    constructor (chains: map<int, ChainRow>, tokens: map<int, Rows>, aborts: bool)
      ensures this.chains == chains && this.tokens == tokens && this.aborts == aborts
    {
      this.chains, this.tokens, this.aborts := chains, tokens, aborts;
    }

    ghost function Now(): State
      reads this
    {
      State(chains, tokens)
    }

    /** updateRelayToken. */
    method UpdateToken(chain: int, id: string, t: Token) returns (ok: bool)
      modifies this`tokens
      ensures var r := Updated(RowsOf(old(tokens), chain), id, t);
              ok == r.Some? && tokens == if ok then old(tokens)[chain := r.value] else old(tokens)
    {
      var rows := RowsOf(tokens, chain);
      if !Valid(t) {
        return false;
      }
      if !(HeldBy(rows, t.address) <= {id}) {
        return false;
      }
      tokens := tokens[chain := rows[id := RowOf(t)]];
      return true;
    }

    /** The insert of upsertRelayToken, under both unique indexes. */
    method CreateToken(chain: int, t: Token) returns (ok: bool)
      modifies this`tokens
      ensures var rows := RowsOf(old(tokens), chain);
              && (ok <==> Valid(t) && t.id !in rows && HeldBy(rows, t.address) == {})
              && tokens == if ok then old(tokens)[chain := rows[t.id := RowOf(t)]] else old(tokens)
    {
      var rows := RowsOf(tokens, chain);
      if !Valid(t) || t.id in rows || HeldBy(rows, t.address) != {} {
        return false;
      }
      tokens := tokens[chain := rows[t.id := RowOf(t)]];
      return true;
    }

    method UpsertToken(chain: int, t: Token) returns (ok: bool)
      requires OneRowPerAddress(RowsOf(tokens, chain))
      modifies this`tokens
      ensures var r := Upserted(RowsOf(old(tokens), chain), t, aborts);
              ok == r.Some? && tokens == if ok then old(tokens)[chain := r.value] else old(tokens)
    {
      var rows := RowsOf(tokens, chain);
      if t.id in rows {
        ok := UpdateToken(chain, t.id, t);
        return;
      }
      ok := CreateToken(chain, t);
      if ok || aborts {
        return;
      }
      var holders := HeldBy(rows, t.address);
      if holders == {} {
        return false;
      }
      var q :| q in holders;
      OneHolder(rows, t.address);
      ok := UpdateToken(chain, q, t);
    }

    /** The loop of syncRelayTokens. */
    method UpsertTokens(chain: int, feed: seq<Token>) returns (ok: bool)
      requires OneRowPerAddress(RowsOf(tokens, chain)) && feed != []
      modifies this`tokens
      ensures var r := UpsertedAll(RowsOf(old(tokens), chain), feed, aborts);
              ok == r.Some? && (ok ==> tokens == old(tokens)[chain := r.value])
    {
      ghost var rows, now := RowsOf(tokens, chain), RowsOf(tokens, chain);
      for i := 0 to |feed|
        invariant now == RowsOf(tokens, chain) && UpsertedAll(rows, feed[..i], aborts) == Some(now)
        invariant OneRowPerAddress(now)
        invariant tokens == if i == 0 then old(tokens) else old(tokens)[chain := now]
      {
        ok := UpsertNext(chain, feed, i, rows);
        if !ok {
          FailsEarly(rows, feed, i + 1, aborts);
          return false;
        }
        Overwritten(old(tokens), chain, now, RowsOf(tokens, chain));
        now := RowsOf(tokens, chain);
      }
      assert feed[..|feed|] == feed;
      return true;
    }

    /** The body of that loop. */
    method UpsertNext(chain: int, feed: seq<Token>, i: nat, ghost rows: Rows) returns (ok: bool)
      requires i < |feed| && OneRowPerAddress(RowsOf(tokens, chain))
      requires UpsertedAll(rows, feed[..i], aborts) == Some(RowsOf(tokens, chain))
      modifies this`tokens
      ensures var r := UpsertedAll(rows, feed[..i + 1], aborts);
              ok == r.Some? && (ok ==> tokens == old(tokens)[chain := r.value] && OneRowPerAddress(r.value))
    {
      OneMoreUpsert(rows, feed, i, RowsOf(tokens, chain), aborts);
      ok := UpsertToken(chain, feed[i]);
    }

    /** syncRelayTokens; after a failure the caller rolls back. */
    method SyncTokens(chain: int, supported: bool, feed: seq<Token>) returns (ok: bool)
      requires OneRowPerAddress(RowsOf(tokens, chain))
      modifies this`tokens
      ensures var r := SyncedRows(RowsOf(old(tokens), chain), supported, feed, aborts);
              ok == r.Some? && (ok ==> tokens == old(tokens)[chain := r.value])
    {
      if !supported || |feed| == 0 {
        tokens := tokens[chain := TurnedOff(RowsOf(tokens, chain), {})];
        return true;
      }
      ok := UpsertTokens(chain, feed);
      if ok {
        tokens := tokens[chain := TurnedOff(RowsOf(tokens, chain), Ids(feed))];
      }
    }

    /** The body of the loop in sync for one well-formed entry: one transaction, rolled back on any failure. */
    method SyncEntry(e: Entry, rank: Collation) returns (ok: bool)
      requires Injective(rank) && e.Entry? && Indexed(tokens)
      modifies this`chains, this`tokens
      ensures (Now(), ok) == AfterEntry(old(Now()), e, rank, aborts)
      ensures Indexed(tokens)
    {
      EntryKeepsIndex(Now(), e, rank, aborts);
      var beforeChains, beforeTokens := chains, tokens;
      chains := UpsertedChain(chains, e);
      var feed := [];
      if !e.disabled {
        feed := BuildTokens(e.lists, rank);
      }
      ok := SyncTokens(e.id, !e.disabled, feed);
      if !ok || e.fails {
        chains, tokens := beforeChains, beforeTokens;
        return false;
      }
    }

    /** The loop of sync over Relay's answer. */
    method SyncFeed(feed: seq<Entry>, rank: Collation) returns (failures: nat, fetched: set<int>)
      requires Injective(rank) && Indexed(tokens)
      modifies this`chains, this`tokens
      ensures (Now(), failures) == AfterFeed(old(Now()), feed, rank, aborts)
      ensures fetched == Fetched(feed) && Indexed(tokens)
    {
      failures, fetched := 0, {};
      for i := 0 to |feed|
        invariant Now() == AfterFeed(old(Now()), feed[..i], rank, aborts).0 && Indexed(tokens)
        invariant failures == AfterFeed(old(Now()), feed[..i], rank, aborts).1 && fetched == Fetched(feed[..i])
      {
        FetchedSnoc(feed, i);
        if feed[i].Entry? {
          fetched := fetched + {feed[i].id};
        }
        var ok := SyncNext(feed, i, rank, old(Now()));
        if !ok {
          failures := failures + 1;
        }
      }
      assert feed[..|feed|] == feed;
    }

    /** One element of the answer; a malformed one fails without touching anything. */
    method SyncNext(feed: seq<Entry>, i: nat, rank: Collation, ghost start: State) returns (ok: bool)
      requires Injective(rank) && Indexed(tokens) && i < |feed|
      requires Now() == AfterFeed(start, feed[..i], rank, aborts).0
      modifies this`chains, this`tokens
      ensures Now() == AfterFeed(start, feed[..i + 1], rank, aborts).0 && Indexed(tokens)
      ensures AfterFeed(start, feed[..i + 1], rank, aborts).1 == AfterFeed(start, feed[..i], rank, aborts).1 + if ok then 0 else 1
    {
      FeedStep(start, feed, i, rank, aborts);
      ok := false;
      if feed[i].Entry? {
        ok := SyncEntry(feed[i], rank);
      }
    }

    /** sync; the two flags say whether the database refuses the final marks. */
    method Sync(feed: seq<Entry>, rank: Collation, chainMarkFails: bool, tokenMarkFails: bool) returns (o: Outcome)
      requires Injective(rank) && Indexed(tokens)
      modifies this`chains, this`tokens
      ensures var (synced, failures) := AfterFeed(old(Now()), feed, rank, aborts);
              if chainMarkFails && Fetched(feed) != {} then o == NotMarked && Now() == synced
              else if tokenMarkFails then o == NotMarked && Now() == State(MarkedChains(synced.chains, Fetched(feed)), synced.tokens)
              else o == (if failures > 0 then Incomplete(failures) else Synced) && Now() == Marked(synced, Fetched(feed))
      ensures var failed := set k | 0 <= k < |feed| && !Succeeds(old(Now()), feed, k, rank, aborts);
              !tokenMarkFails && (!chainMarkFails || forall k :: 0 <= k < |feed| ==> feed[k].Malformed?) ==>
                o == if failed == {} then Synced else Incomplete(|failed|)
    {
      FailuresCounted(Now(), feed, rank, aborts);
      var failures, fetched := SyncFeed(feed, rank);
      if chainMarkFails && fetched != {} {
        return NotMarked;
      }
      chains := MarkedChains(chains, fetched);
      if tokenMarkFails {
        return NotMarked;
      }
      tokens := MarkedTokens(chains, tokens);
      return if failures > 0 then Incomplete(failures) else Synced;
    }
  }

  lemma {:induction false} OneHolder(rows: Rows, address: string)
    requires OneRowPerAddress(rows)
    ensures forall p, q :: p in HeldBy(rows, address) && q in HeldBy(rows, address) ==> p == q
  {
  }

  lemma {:induction false} Overwritten(m: map<int, Rows>, chain: int, a: Rows, b: Rows)
    ensures m[chain := a][chain := b] == m[chain := b]
  {
  }

  lemma {:induction false} OneMoreUpsert(rows: Rows, tokens: seq<Token>, i: nat, now: Rows, aborts: bool)
    requires i < |tokens| && OneRowPerAddress(now) && UpsertedAll(rows, tokens[..i], aborts) == Some(now)
    ensures UpsertedAll(rows, tokens[..i + 1], aborts) == Upserted(now, tokens[i], aborts)
    ensures Upserted(now, tokens[i], aborts).Some? ==> OneRowPerAddress(Upserted(now, tokens[i], aborts).value)
  {
    assert tokens[..i + 1][..i] == tokens[..i];
    if Upserted(now, tokens[i], aborts).Some? {
      UpsertKeepsIndex(now, tokens[i], aborts);
    }
  }

  lemma {:induction false} FailsEarly(rows: Rows, tokens: seq<Token>, n: nat, aborts: bool)
    requires n <= |tokens| && UpsertedAll(rows, tokens[..n], aborts) == None
    ensures UpsertedAll(rows, tokens, aborts) == None
  {
    if UpsertedAll(rows, tokens, aborts).Some? {
      PrefixSucceeds(rows, tokens, n, aborts);
    }
  }

  lemma {:induction false} FetchedSnoc(feed: seq<Entry>, i: nat)
    requires i < |feed|
    ensures Fetched(feed[..i + 1]) == Fetched(feed[..i]) + if feed[i].Entry? then {feed[i].id} else {}
  {
    assert forall j :: 0 <= j < i ==> feed[..i + 1][j] == feed[..i][j];
    assert feed[..i + 1][i] == feed[i];
  }

  lemma {:induction false} SyncKeepsIndex(rows: Rows, supported: bool, tokens: seq<Token>, aborts: bool)
    requires OneRowPerAddress(rows) && SyncedRows(rows, supported, tokens, aborts).Some?
    ensures OneRowPerAddress(SyncedRows(rows, supported, tokens, aborts).value)
  {
    if supported && tokens != [] {
      UpsertsKeepRows(rows, tokens, aborts);
    }
  }

  lemma {:induction false} EntryKeepsIndex(s: State, e: Entry, rank: Collation, aborts: bool)
    requires Indexed(s.tokens)
    ensures Indexed(AfterEntry(s, e, rank, aborts).0.tokens)
  {
    if e.Entry? && !e.fails {
      var r := SyncedRows(RowsOf(s.tokens, e.id), !e.disabled, FeedTokens(e.lists, rank), aborts);
      if r.Some? {
        SyncKeepsIndex(RowsOf(s.tokens, e.id), !e.disabled, FeedTokens(e.lists, rank), aborts);
        IndexedWith(s.tokens, e.id, r.value);
      }
    }
  }

  lemma {:induction false} IndexedWith(tokens: map<int, Rows>, chain: int, rows: Rows)
    requires Indexed(tokens) && OneRowPerAddress(rows)
    ensures Indexed(tokens[chain := rows])
  {
  }

  // ---------------------------------------------------------------- what a whole sync converges to

  /** Entry `k` succeeds in the state that the entries before it leave. */
  ghost predicate Succeeds(s: State, feed: seq<Entry>, k: int, rank: Collation, aborts: bool)
  {
    0 <= k < |feed| && feed[k].Entry? && AfterEntry(AfterFeed(s, feed[..k], rank, aborts).0, feed[k], rank, aborts).1
  }

  lemma {:induction false} FeedStep(s: State, feed: seq<Entry>, n: nat, rank: Collation, aborts: bool)
    requires n < |feed|
    ensures var (before, failures) := AfterFeed(s, feed[..n], rank, aborts);
            var (after, ok) := AfterEntry(before, feed[n], rank, aborts);
            AfterFeed(s, feed[..n + 1], rank, aborts) == (after, if ok then failures else failures + 1)
  {
    assert feed[..n + 1][..n] == feed[..n];
  }

  lemma {:induction false} OneMoreEntry(s: State, feed: seq<Entry>, n: nat, rank: Collation, aborts: bool)
    requires n < |feed|
    ensures AfterFeed(s, feed[..n + 1], rank, aborts).1
         == AfterFeed(s, feed[..n], rank, aborts).1 + if Succeeds(s, feed, n, rank, aborts) then 0 else 1
  {
    assert feed[..n + 1][..n] == feed[..n];
  }

  ghost function Unmet(p: int -> bool, n: nat): set<int>
  {
    set k | 0 <= k < n && !p(k)
  }

  lemma {:induction false} UnmetStep(p: int -> bool, n: nat)
    ensures |Unmet(p, n + 1)| == |Unmet(p, n)| + if p(n) then 0 else 1
  {
    assert Unmet(p, n + 1) == Unmet(p, n) + if p(n) then {} else {n};
  }

  ghost function Success(s: State, feed: seq<Entry>, rank: Collation, aborts: bool): int -> bool
  {
    k => Succeeds(s, feed, k, rank, aborts)
  }

  lemma {:induction false} FailuresUpTo(s: State, feed: seq<Entry>, n: nat, rank: Collation, aborts: bool)
    requires n <= |feed|
    ensures AfterFeed(s, feed[..n], rank, aborts).1 == |Unmet(Success(s, feed, rank, aborts), n)|
  {
    if n > 0 {
      FailuresUpTo(s, feed, n - 1, rank, aborts);
      OneMoreEntry(s, feed, n - 1, rank, aborts);
      UnmetStep(Success(s, feed, rank, aborts), n - 1);
    }
  }

  /** Every entry that does not succeed counts as one failure. */
  lemma {:induction false} FailuresCounted(s: State, feed: seq<Entry>, rank: Collation, aborts: bool)
    ensures AfterFeed(s, feed, rank, aborts).1 == |set k | 0 <= k < |feed| && !Succeeds(s, feed, k, rank, aborts)|
  {
    FailuresUpTo(s, feed, |feed|, rank, aborts);
    assert feed[..|feed|] == feed;
    assert Unmet(Success(s, feed, rank, aborts), |feed|) == set k | 0 <= k < |feed| && !Succeeds(s, feed, k, rank, aborts);
  }

  /** No entry after `k` is about the same chain. */
  ghost predicate LastFor(feed: seq<Entry>, k: int)
  {
    0 <= k < |feed| && feed[k].Entry? && forall j :: k < j < |feed| && feed[j].Entry? ==> feed[j].id != feed[k].id
  }

  lemma {:induction false} FeedKeepsIndex(s: State, feed: seq<Entry>, rank: Collation, aborts: bool)
    requires Indexed(s.tokens)
    ensures Indexed(AfterFeed(s, feed, rank, aborts).0.tokens)
  {
    if feed != [] {
      var front := feed[..|feed| - 1];
      FeedKeepsIndex(s, front, rank, aborts);
      EntryKeepsIndex(AfterFeed(s, front, rank, aborts).0, feed[|feed| - 1], rank, aborts);
    }
  }

  /** Entries about other chains leave a chain and its tokens alone. */
  lemma {:induction false} OthersUntouched(s: State, feed: seq<Entry>, n: nat, chain: int, rank: Collation, aborts: bool)
    requires n <= |feed| && forall j :: n <= j < |feed| && feed[j].Entry? ==> feed[j].id != chain
    ensures var before, after := AfterFeed(s, feed[..n], rank, aborts).0, AfterFeed(s, feed, rank, aborts).0;
            && RowsOf(after.tokens, chain) == RowsOf(before.tokens, chain) && (chain in after.tokens <==> chain in before.tokens)
            && (chain in after.chains <==> chain in before.chains)
            && (chain in after.chains ==> after.chains[chain] == before.chains[chain])
    decreases |feed|
  {
    if n == |feed| {
      assert feed[..n] == feed;
    } else {
      var front := feed[..|feed| - 1];
      assert front[..n] == feed[..n];
      OthersUntouched(s, front, n, chain, rank, aborts);
      EntryTouchesOwnChain(AfterFeed(s, front, rank, aborts).0, feed[|feed| - 1], chain, rank, aborts);
    }
  }

  lemma {:induction false} EntryTouchesOwnChain(s: State, e: Entry, chain: int, rank: Collation, aborts: bool)
    requires e.Entry? ==> e.id != chain
    ensures var after := AfterEntry(s, e, rank, aborts).0;
            && RowsOf(after.tokens, chain) == RowsOf(s.tokens, chain) && (chain in after.tokens <==> chain in s.tokens)
            && (chain in after.chains <==> chain in s.chains)
            && (chain in after.chains ==> after.chains[chain] == s.chains[chain])
  {
  }

  /** The last word on a chain: what its last entry, if it succeeds, makes of the state it meets. */
  lemma {:induction false} LastEntryDecides(s: State, feed: seq<Entry>, k: nat, rank: Collation, aborts: bool)
    requires LastFor(feed, k) && Succeeds(s, feed, k, rank, aborts)
    ensures var e, met, after := feed[k], AfterFeed(s, feed[..k], rank, aborts).0, AfterFeed(s, feed, rank, aborts).0;
            && SyncedRows(RowsOf(met.tokens, e.id), !e.disabled, FeedTokens(e.lists, rank), aborts) == Some(RowsOf(after.tokens, e.id))
            && e.id in after.chains && after.chains[e.id] == UpsertedChain(met.chains, e)[e.id] && e.id in after.tokens
  {
    var upTo := feed[..k + 1];
    assert upTo[..k] == feed[..k] && upTo[k] == feed[k];
    OthersUntouched(s, feed, k + 1, feed[k].id, rank, aborts);
  }

  /** The ids of the tokens that the answer supports on the entry's chain. */
  ghost function AnsweredIds(e: Entry, rank: Collation): set<string>
    requires e.Entry?
  {
    if e.disabled then {} else Ids(FeedTokens(e.lists, rank))
  }

  lemma {:induction false} FeedIsClean(lists: Lists, rank: Collation)
    requires Injective(rank)
    ensures DistinctIds(FeedTokens(lists, rank))
    ensures forall i :: 0 <= i < |FeedTokens(lists, rank)| ==> FeedTokens(lists, rank)[i].supported
  {
    var tokens := FeedTokens(lists, rank);
    FeedTokensMeaning(lists, rank);
    forall i | 0 <= i < |tokens|
      ensures tokens[i].supported
    {
      assert tokens[i] in tokens;
      MergedMeaning(Visited(lists), tokens[i].id);
    }
  }

  /** An entry succeeds if it is well-formed, its transaction is not refused, and the tokens of a supported chain go through. */
  lemma {:induction false} SucceedsIff(s: State, feed: seq<Entry>, k: nat, rank: Collation, aborts: bool)
    requires k < |feed| && feed[k].Entry?
    ensures var rows := RowsOf(AfterFeed(s, feed[..k], rank, aborts).0.tokens, feed[k].id);
            Succeeds(s, feed, k, rank, aborts) <==>
            !feed[k].fails && (feed[k].disabled || SyncedRows(rows, true, FeedTokens(feed[k].lists, rank), aborts).Some?)
  {
  }

  /** The rows that a sync leaves of a chain whose last entry it carried out. */
  lemma {:induction false} EndRows(s: State, feed: seq<Entry>, k: nat, rank: Collation, aborts: bool)
    requires LastFor(feed, k) && Succeeds(s, feed, k, rank, aborts)
    ensures var e, met := feed[k], AfterFeed(s, feed[..k], rank, aborts).0;
            var end := Marked(AfterFeed(s, feed, rank, aborts).0, Fetched(feed));
            && e.id in end.chains && end.chains[e.id].supported == !e.disabled
            && (e.disabled ==> SupportedIds(RowsOf(end.tokens, e.id)) == {})
            && (!e.disabled ==>
                  SyncedRows(RowsOf(met.tokens, e.id), true, FeedTokens(e.lists, rank), aborts) == Some(RowsOf(end.tokens, e.id)))
  {
    LastEntryDecides(s, feed, k, rank, aborts);
    assert feed[k].id in Fetched(feed);
    MarkedRows(AfterFeed(s, feed, rank, aborts).0, Fetched(feed), feed[k].id);
  }

  /**
   Convergence of a sync whose final marks go through: the last entry of a chain in the answer is carried out, and
   the chain's supported tokens are exactly the answer's, if and only if the chain is disabled or every token of
   the answer is valid and finds its address free.  The chain is then supported as the answer says.
   */
  lemma {:induction false} SyncConvergesIff(s: State, feed: seq<Entry>, k: nat, rank: Collation, aborts: bool)
    requires Injective(rank) && Indexed(s.tokens) && LastFor(feed, k) && !feed[k].fails
    ensures var e, met := feed[k], AfterFeed(s, feed[..k], rank, aborts).0;
            var end := Marked(AfterFeed(s, feed, rank, aborts).0, Fetched(feed));
            && (Succeeds(s, feed, k, rank, aborts) && SupportedIds(RowsOf(end.tokens, e.id)) == AnsweredIds(e, rank)
                <==> e.disabled || Unobstructed(RowsOf(met.tokens, e.id), FeedTokens(e.lists, rank)))
            && (Succeeds(s, feed, k, rank, aborts) ==> e.id in end.chains && end.chains[e.id].supported == !e.disabled)
  {
    var e, met := feed[k], AfterFeed(s, feed[..k], rank, aborts).0;
    SucceedsIff(s, feed, k, rank, aborts);
    if Succeeds(s, feed, k, rank, aborts) {
      EndRows(s, feed, k, rank, aborts);
    }
    if !e.disabled {
      FeedKeepsIndex(s, feed[..k], rank, aborts);
      FeedIsClean(e.lists, rank);
      ChainConvergesIff(RowsOf(met.tokens, e.id), FeedTokens(e.lists, rank), aborts);
    }
  }

  /** No chain has two entries. */
  ghost predicate OnePerChain(feed: seq<Entry>)
  {
    forall i, j :: 0 <= i < j < |feed| && feed[i].Entry? && feed[j].Entry? ==> feed[i].id != feed[j].id
  }

  /** Then every entry meets its chain's rows as the sync found them. */
  lemma {:induction false} MeetsInitialRows(s: State, feed: seq<Entry>, k: nat, rank: Collation, aborts: bool)
    requires OnePerChain(feed) && k < |feed| && feed[k].Entry?
    ensures LastFor(feed, k)
    ensures RowsOf(AfterFeed(s, feed[..k], rank, aborts).0.tokens, feed[k].id) == RowsOf(s.tokens, feed[k].id)
  {
    assert feed[..k][..0] == [];
    OthersUntouched(s, feed[..k], 0, feed[k].id, rank, aborts);
  }

  /** For an answer with one entry a chain the condition is about the tables before the sync. */
  lemma {:induction false} SyncConvergesFromStart(s: State, feed: seq<Entry>, k: nat, rank: Collation, aborts: bool)
    requires Injective(rank) && Indexed(s.tokens) && OnePerChain(feed) && k < |feed| && feed[k].Entry? && !feed[k].fails
    ensures var e, end := feed[k], Marked(AfterFeed(s, feed, rank, aborts).0, Fetched(feed));
            Succeeds(s, feed, k, rank, aborts) && SupportedIds(RowsOf(end.tokens, e.id)) == AnsweredIds(e, rank)
            <==> e.disabled || Unobstructed(RowsOf(s.tokens, e.id), FeedTokens(e.lists, rank))
  {
    MeetsInitialRows(s, feed, k, rank, aborts);
    SyncConvergesIff(s, feed, k, rank, aborts);
  }

  /** The final marks on the tokens of one chain. */
  lemma {:induction false} MarkedRows(s: State, fetched: set<int>, chain: int)
    ensures var end := Marked(s, fetched);
            RowsOf(end.tokens, chain) ==
            if chain in end.chains && !end.chains[chain].supported then TurnedOff(RowsOf(s.tokens, chain), {})
            else RowsOf(s.tokens, chain)
  {
    assert TurnedOff(map[], {}) == map[];
  }

  /** After the final marks a chain that the answer does not mention is off, and an unsupported chain has no supported token. */
  lemma {:induction false} MissingAreOff(s: State, fetched: set<int>, chain: int)
    ensures var end := Marked(s, fetched);
            && (fetched != {} && chain in end.chains && chain !in fetched ==> !end.chains[chain].supported)
            && (chain in end.chains && !end.chains[chain].supported ==> SupportedIds(RowsOf(end.tokens, chain)) == {})
  {
    MarkedRows(s, fetched, chain);
  }

  /** What a sync leaves of a chain whose last entry it carried out, column by column. */
  lemma {:induction false} ChainRowAfter(s: State, feed: seq<Entry>, k: nat, rank: Collation, aborts: bool)
    requires LastFor(feed, k) && Succeeds(s, feed, k, rank, aborts)
    ensures var e, met := feed[k], AfterFeed(s, feed[..k], rank, aborts).0;
            var end := Marked(AfterFeed(s, feed, rank, aborts).0, Fetched(feed));
            && e.id in end.chains
            && end.chains[e.id].name == e.name
            && end.chains[e.id].disabled == e.disabled
            && end.chains[e.id].supported == !e.disabled
            && end.chains[e.id].enabled == (e.id in met.chains ==> met.chains[e.id].enabled)
  {
    LastEntryDecides(s, feed, k, rank, aborts);
    assert feed[k].id in Fetched(feed);
  }

  /** An entry that fails leaves its chain and, if that is supported, all its tokens as they were: the chain counts as mentioned. */
  lemma {:induction false} FailedChainIsKept(s: State, feed: seq<Entry>, k: nat, rank: Collation, aborts: bool)
    requires LastFor(feed, k) && !Succeeds(s, feed, k, rank, aborts)
    ensures var id, met := feed[k].id, AfterFeed(s, feed[..k], rank, aborts).0;
            var end := Marked(AfterFeed(s, feed, rank, aborts).0, Fetched(feed));
            && (id in end.chains <==> id in met.chains)
            && (id in met.chains ==> end.chains[id] == met.chains[id])
            && (id in met.chains && met.chains[id].supported ==> RowsOf(end.tokens, id) == RowsOf(met.tokens, id))
  {
    var after := AfterFeed(s, feed, rank, aborts).0;
    FailureChangesNothing(s, feed, k, rank, aborts);
    OthersUntouched(s, feed, k + 1, feed[k].id, rank, aborts);
    assert feed[k].id in Fetched(feed);
    MarkedRows(after, Fetched(feed), feed[k].id);
  }

  /** The final marks, column by column: an answer that mentions no chain leaves all chains alone. */
  lemma {:induction false} MarksSpelledOut(s: State, feed: seq<Entry>, c: int)
    ensures var end := Marked(s, Fetched(feed));
            var kept := (forall k :: 0 <= k < |feed| ==> feed[k].Malformed?) || (exists k :: 0 <= k < |feed| && feed[k].Entry? && feed[k].id == c);
            && (c in end.chains <==> c in s.chains)
            && (c in s.chains ==>
                  && end.chains[c].name == s.chains[c].name
                  && end.chains[c].disabled == s.chains[c].disabled
                  && end.chains[c].enabled == s.chains[c].enabled
                  && end.chains[c].supported == (kept && s.chains[c].supported))
            && var off := c in end.chains && !end.chains[c].supported;
               var rows, now := RowsOf(s.tokens, c), RowsOf(end.tokens, c);
               forall q ::
                 && (q in now <==> q in rows)
                 && (q in rows ==> now[q].address == rows[q].address && now[q].details == rows[q].details
                                   && now[q].supported == (!off && rows[q].supported))
  {
    MarkedRows(s, Fetched(feed), c);
    if exists k :: 0 <= k < |feed| && feed[k].Entry? {
      var k :| 0 <= k < |feed| && feed[k].Entry?;
      assert feed[k].id in Fetched(feed);
    }
  }

  // ---------------------------------------------------------------- a second sync of the same answer

  /** On rows of the same shape the same feed goes the same way. */
  lemma {:induction false} SameShapeStep(a: Rows, b: Rows, t: Token, aborts: bool)
    requires OneRowPerAddress(a) && OneRowPerAddress(b) && SameShape(a, b)
    ensures Upserted(a, t, aborts).Some? <==> Upserted(b, t, aborts).Some?
    ensures Upserted(a, t, aborts).Some? ==> SameShape(Upserted(a, t, aborts).value, Upserted(b, t, aborts).value)
  {
    assert HeldBy(a, t.address) == HeldBy(b, t.address);
    OneHolder(a, t.address);
    OneHolder(b, t.address);
    if Upserted(a, t, aborts).Some? && Upserted(b, t, aborts).Some? {
      UpsertStep(a, t, aborts);
      UpsertStep(b, t, aborts);
    }
  }

  lemma {:induction false} SameShapeRun(a: Rows, b: Rows, tokens: seq<Token>, aborts: bool)
    requires OneRowPerAddress(a) && OneRowPerAddress(b) && SameShape(a, b)
    ensures UpsertedAll(a, tokens, aborts).Some? <==> UpsertedAll(b, tokens, aborts).Some?
    ensures UpsertedAll(a, tokens, aborts).Some? ==>
              SameShape(UpsertedAll(a, tokens, aborts).value, UpsertedAll(b, tokens, aborts).value)
  {
    if tokens != [] {
      var n := |tokens| - 1;
      SameShapeRun(a, b, tokens[..n], aborts);
      if UpsertedAll(a, tokens[..n], aborts).Some? {
        UpsertsKeepRows(a, tokens[..n], aborts);
        UpsertsKeepRows(b, tokens[..n], aborts);
        SameShapeStep(UpsertedAll(a, tokens[..n], aborts).value, UpsertedAll(b, tokens[..n], aborts).value, tokens[n], aborts);
      }
    }
  }

  lemma {:induction false} FailureChangesNothing(s: State, feed: seq<Entry>, k: nat, rank: Collation, aborts: bool)
    requires k < |feed| && !Succeeds(s, feed, k, rank, aborts)
    ensures AfterFeed(s, feed[..k + 1], rank, aborts).0 == AfterFeed(s, feed[..k], rank, aborts).0
  {
    FeedStep(s, feed, k, rank, aborts);
  }

  /** The rows of a chain after its own entry failed are those it had, perhaps turned off. */
  lemma {:induction false} FailedRows(s: State, feed: seq<Entry>, k: nat, rank: Collation, aborts: bool)
    requires LastFor(feed, k) && !Succeeds(s, feed, k, rank, aborts)
    ensures var before := RowsOf(AfterFeed(s, feed[..k], rank, aborts).0.tokens, feed[k].id);
            var now := RowsOf(Marked(AfterFeed(s, feed, rank, aborts).0, Fetched(feed)).tokens, feed[k].id);
            now == before || now == TurnedOff(before, {})
  {
    FailureChangesNothing(s, feed, k, rank, aborts);
    OthersUntouched(s, feed, k + 1, feed[k].id, rank, aborts);
    MarkedRows(AfterFeed(s, feed, rank, aborts).0, Fetched(feed), feed[k].id);
  }

  /** An entry that failed fails again. */
  lemma {:induction false} FailsAgain(s: State, feed: seq<Entry>, k: nat, rank: Collation, aborts: bool)
    requires Indexed(s.tokens) && LastFor(feed, k) && !Succeeds(s, feed, k, rank, aborts)
    ensures var end := Marked(AfterFeed(s, feed, rank, aborts).0, Fetched(feed)); AfterEntry(end, feed[k], rank, aborts) == (end, false)
  {
    var e := feed[k];
    FailedRows(s, feed, k, rank, aborts);
    FeedKeepsIndex(s, feed[..k], rank, aborts);
    FailsOnSameShape(RowsOf(AfterFeed(s, feed[..k], rank, aborts).0.tokens, e.id),
                     RowsOf(Marked(AfterFeed(s, feed, rank, aborts).0, Fetched(feed)).tokens, e.id), e, rank, aborts);
  }

  lemma {:induction false} FailsOnSameShape(before: Rows, now: Rows, e: Entry, rank: Collation, aborts: bool)
    requires e.Entry? && OneRowPerAddress(before) && (now == before || now == TurnedOff(before, {}))
    ensures SyncedRows(before, !e.disabled, FeedTokens(e.lists, rank), aborts).None? <==>
            SyncedRows(now, !e.disabled, FeedTokens(e.lists, rank), aborts).None?
  {
    SameShapeRun(before, now, FeedTokens(e.lists, rank), aborts);
  }

  /** Repeating an entry that succeeded: it succeeds again, and changes nothing exactly if the chain is disabled or all its tokens are placed. */
  lemma {:induction false} SucceedsAgain(s: State, feed: seq<Entry>, k: nat, rank: Collation, aborts: bool)
    requires Injective(rank) && Indexed(s.tokens) && LastFor(feed, k) && Succeeds(s, feed, k, rank, aborts)
    ensures var e, end := feed[k], Marked(AfterFeed(s, feed, rank, aborts).0, Fetched(feed));
            var r := RowsOf(end.tokens, e.id);
            var again := SyncedRows(r, !e.disabled, FeedTokens(e.lists, rank), aborts);
            && again.Some?
            && (again.value == r <==> e.disabled || AllPlaced(r, FeedTokens(e.lists, rank)))
            && (again.value == r ==> AfterEntry(end, e, rank, aborts).0 == end)
  {
    var e, met, after := feed[k], AfterFeed(s, feed[..k], rank, aborts).0, AfterFeed(s, feed, rank, aborts).0;
    LastEntryDecides(s, feed, k, rank, aborts);
    FeedKeepsIndex(s, feed[..k], rank, aborts);
    FeedIsClean(e.lists, rank);
    ChainSettlesIff(RowsOf(met.tokens, e.id), !e.disabled, FeedTokens(e.lists, rank), aborts);
    assert e.id in Fetched(feed);
    var r := RowsOf(after.tokens, e.id);
    assert e.disabled ==> TurnedOff(r, {}) == r;
    MarkedRows(after, Fetched(feed), e.id);
    if SyncedRows(r, !e.disabled, FeedTokens(e.lists, rank), aborts) == Some(r) {
      SettledEntry(after, Fetched(feed), e, rank, aborts);
    }
  }

  /** An entry whose result already stands, before and after the final marks, changes nothing. */
  lemma {:induction false} SettledEntry(s: State, fetched: set<int>, e: Entry, rank: Collation, aborts: bool)
    requires e.Entry? && e.id in fetched && e.id in s.tokens && e.id in s.chains
    requires s.chains[e.id] == UpsertedChain(s.chains, e)[e.id]
    requires SyncedRows(s.tokens[e.id], !e.disabled, FeedTokens(e.lists, rank), aborts) == Some(s.tokens[e.id])
    ensures AfterEntry(Marked(s, fetched), e, rank, aborts).0 == Marked(s, fetched)
  {
    var end := Marked(s, fetched);
    assert end.chains[e.id] == s.chains[e.id];
    assert end.tokens[e.id] == s.tokens[e.id];
    assert UpsertedChain(end.chains, e) == end.chains;
    assert end.tokens[e.id := s.tokens[e.id]] == end.tokens;
  }

  lemma {:induction false} FeedSettles(s: State, feed: seq<Entry>, rank: Collation, aborts: bool)
    requires forall k :: 0 <= k < |feed| ==> AfterEntry(s, feed[k], rank, aborts).0 == s
    ensures AfterFeed(s, feed, rank, aborts).0 == s
  {
    if feed != [] {
      FeedSettles(s, feed[..|feed| - 1], rank, aborts);
    }
  }

  lemma {:induction false} MarksSettle(s: State, fetched: set<int>)
    ensures Marked(Marked(s, fetched), fetched) == Marked(s, fetched)
  {
    var once := Marked(s, fetched);
    assert MarkedChains(once.chains, fetched) == once.chains;
    assert forall c :: c in once.tokens ==> TurnedOff(TurnedOff(s.tokens[c], {}), {}) == TurnedOff(s.tokens[c], {});
    assert MarkedTokens(once.chains, once.tokens) == once.tokens;
  }

  /** A supported chain whose entry, repeated, gives other rows ends a second sync with those. */
  lemma {:induction false} SecondSyncShows(end: State, feed: seq<Entry>, k: nat, r: Rows, rank: Collation, aborts: bool)
    requires OnePerChain(feed) && k < |feed| && feed[k].Entry? && !feed[k].fails && !feed[k].disabled
    requires SyncedRows(RowsOf(end.tokens, feed[k].id), true, FeedTokens(feed[k].lists, rank), aborts) == Some(r)
    ensures RowsOf(Marked(AfterFeed(end, feed, rank, aborts).0, Fetched(feed)).tokens, feed[k].id) == r
  {
    MeetsInitialRows(end, feed, k, rank, aborts);
    assert Succeeds(end, feed, k, rank, aborts);
    LastEntryDecides(end, feed, k, rank, aborts);
    assert feed[k].id in Fetched(feed);
    MarkedRows(AfterFeed(end, feed, rank, aborts).0, Fetched(feed), feed[k].id);
  }

  /** After the first sync every supported chain whose entry was carried out has all the entry's tokens placed. */
  ghost predicate AllChainsPlaced(s: State, feed: seq<Entry>, end: State, rank: Collation, aborts: bool)
  {
    forall k :: 0 <= k < |feed| && Succeeds(s, feed, k, rank, aborts) && !feed[k].disabled ==>
      AllPlaced(RowsOf(end.tokens, feed[k].id), FeedTokens(feed[k].lists, rank))
  }

  /**
   A second sync of the same answer changes nothing if and only if, after the first, on every supported chain that
   it carried out each token of the answer has a row of its own or finds its address taken.
   */
  lemma {:induction false} SyncSettlesIff(s: State, feed: seq<Entry>, rank: Collation, aborts: bool)
    requires Injective(rank) && Indexed(s.tokens) && OnePerChain(feed)
    ensures var end := Marked(AfterFeed(s, feed, rank, aborts).0, Fetched(feed));
            Marked(AfterFeed(end, feed, rank, aborts).0, Fetched(feed)) == end <==> AllChainsPlaced(s, feed, end, rank, aborts)
  {
    var end := Marked(AfterFeed(s, feed, rank, aborts).0, Fetched(feed));
    if AllChainsPlaced(s, feed, end, rank, aborts) {
      forall k | 0 <= k < |feed|
        ensures AfterEntry(end, feed[k], rank, aborts).0 == end
      {
        EntrySettles(s, feed, k, rank, aborts);
      }
      FeedSettles(end, feed, rank, aborts);
      MarksSettle(AfterFeed(s, feed, rank, aborts).0, Fetched(feed));
    }
    if Marked(AfterFeed(end, feed, rank, aborts).0, Fetched(feed)) == end {
      forall k | 0 <= k < |feed| && Succeeds(s, feed, k, rank, aborts) && !feed[k].disabled
        ensures AllPlaced(RowsOf(end.tokens, feed[k].id), FeedTokens(feed[k].lists, rank))
      {
        MeetsInitialRows(s, feed, k, rank, aborts);
        SucceedsAgain(s, feed, k, rank, aborts);
        var r := SyncedRows(RowsOf(end.tokens, feed[k].id), true, FeedTokens(feed[k].lists, rank), aborts).value;
        SecondSyncShows(end, feed, k, r, rank, aborts);
      }
    }
  }

  lemma {:induction false} EntrySettles(s: State, feed: seq<Entry>, k: nat, rank: Collation, aborts: bool)
    requires Injective(rank) && Indexed(s.tokens) && OnePerChain(feed) && k < |feed|
    requires AllChainsPlaced(s, feed, Marked(AfterFeed(s, feed, rank, aborts).0, Fetched(feed)), rank, aborts)
    ensures var end := Marked(AfterFeed(s, feed, rank, aborts).0, Fetched(feed)); AfterEntry(end, feed[k], rank, aborts).0 == end
  {
    if feed[k].Entry? {
      MeetsInitialRows(s, feed, k, rank, aborts);
      if Succeeds(s, feed, k, rank, aborts) {
        SucceedsAgain(s, feed, k, rank, aborts);
      } else {
        FailsAgain(s, feed, k, rank, aborts);
      }
    }
  }
}
