/**
 The tokens of one chain in Relay's answer, merged from its three lists (buildRelayTokens and
 mergeRelayTokenList in internal/mqs/amq/handler/amq/relaychains/relay_chains.go).  Items come decoded: `effective` is the
 verdict of isEffectiveRelayToken.
 */
module RelayFeed {
  import opened Wrappers
  import opened Ordering
  import opened Runs

  datatype Details = Details(name: string, symbol: string, logoUrl: string, decimals: int, native: bool,
                             bridging: bool, permit: bool, featured: bool, solver: bool, erc20: bool)

  datatype Token = Token(id: string, address: string, details: Details, supported: bool)

  datatype Item = Item(effective: bool, token: Token)

  datatype List = Featured | Solver | Erc20

  datatype Lists = Lists(featured: seq<Item>, solver: seq<Item>, erc20: seq<Item>)

  /** An item together with the list it stands in. */
  datatype Listed = Listed(list: List, item: Item)

  /** Items of one list, tagged. */
  function Tag(list: List, items: seq<Item>): seq<Listed>
  {
    seq(|items|, i requires 0 <= i < |items| => Listed(list, items[i]))
  }

  /** The order in which buildRelayTokens visits the items. */
  function Visited(lists: Lists): seq<Listed>
  {
    Tag(Featured, lists.featured) + Tag(Solver, lists.solver) + Tag(Erc20, lists.erc20)
  }

  /** An item counts if it is effective and has an id, an address and a symbol. */
  predicate Counts(l: Listed)
  {
    l.item.effective && l.item.token.id != "" && l.item.token.address != "" && l.item.token.details.symbol != ""
  }

  function FirstText(a: string, b: string): string
  {
    if a == "" then b else a
  }

  /** mergeRelayToken: what is there stays, gaps are filled, flags are joined. */
  function Absorb(dst: Token, src: Token): Token
  {
    var d, e := dst.details, src.details;
    Token(dst.id, FirstText(dst.address, src.address),
          Details(FirstText(d.name, e.name), FirstText(d.symbol, e.symbol), FirstText(d.logoUrl, e.logoUrl),
                  if d.decimals == 0 then e.decimals else d.decimals,
                  d.native || e.native, d.bridging || e.bridging, d.permit || e.permit,
                  d.featured, d.solver, d.erc20),
          dst.supported || src.supported)
  }

  /** applyFlags of each list. */
  function Flagged(d: Details, list: List): Details
  {
    match list
    case Featured => d.(featured := true)
    case Solver => d.(solver := true)
    case Erc20 => d.(erc20 := true)
  }

  /** buildRelayToken leaves the three list flags off and marks the token supported. */
  function Built(item: Item): Token
  {
    var t, d := item.token, item.token.details;
    Token(t.id, t.address,
          Details(d.name, d.symbol, d.logoUrl, d.decimals, d.native, d.bridging, d.permit, false, false, false), true)
  }

  /** A token after its first counting item. */
  function Fresh(l: Listed): Token
  {
    var t := Built(l.item);
    t.(details := Flagged(t.details, l.list))
  }

  /** A token after one more counting item. */
  function More(t: Token, l: Listed): Token
  {
    var u := Absorb(t, Built(l.item));
    u.(details := Flagged(u.details, l.list))
  }

  /** The merged tokens after one more item. */
  function MergeOne(merged: map<string, Token>, l: Listed): map<string, Token>
  {
    var id := l.item.token.id;
    if !Counts(l) then merged
    else merged[id := if id in merged then More(merged[id], l) else Fresh(l)]
  }

  ghost function Merged(visited: seq<Listed>): map<string, Token>
  {
    if visited == [] then map[] else MergeOne(Merged(visited[..|visited| - 1]), visited[|visited| - 1])
  }

  /** mergeRelayTokenList. */
  method MergeList(merged: map<string, Token>, list: List, items: seq<Item>, ghost before: seq<Listed>) returns (r: map<string, Token>)
    requires merged == Merged(before)
    ensures r == Merged(before + Tag(list, items))
  {
    r := merged;
    assert before + Tag(list, items[..0]) == before;
    for i := 0 to |items|
      invariant r == Merged(before + Tag(list, items[..i]))
    {
      TagSnoc(before, list, items, i);
      r := MergeOne(r, Listed(list, items[i]));
    }
    assert items[..|items|] == items;
  }

  lemma {:induction false} TagSnoc(before: seq<Listed>, list: List, items: seq<Item>, i: nat)
    requires i < |items|
    ensures before + Tag(list, items[..i + 1]) == (before + Tag(list, items[..i])) + [Listed(list, items[i])]
    ensures Merged(before + Tag(list, items[..i + 1])) == MergeOne(Merged(before + Tag(list, items[..i])), Listed(list, items[i]))
  {
    var front, last := before + Tag(list, items[..i]), Listed(list, items[i]);
    assert before + Tag(list, items[..i + 1]) == front + [last];
    assert (front + [last])[..|front|] == front;
  }

  /** The keys of the merged tokens, in whatever order the map yields them. */
  method Keys(merged: map<string, Token>) returns (keys: seq<string>)
    ensures Distinct(keys) && forall k :: k in keys <==> k in merged
  {
    var todo := merged.Keys;
    keys := [];
    while todo != {}
      invariant todo <= merged.Keys && Distinct(keys)
      invariant forall k :: k in keys <==> k in merged && k !in todo
    {
      var k :| k in todo;
      assert forall x :: x in keys + [k] <==> x in keys || x == k;
      keys, todo := keys + [k], todo - {k};
    }
  }

  /** The three lists, one after the other. */
  method MergeLists(lists: Lists) returns (merged: map<string, Token>)
    ensures merged == Merged(Visited(lists))
  {
    merged := MergeList(map[], Featured, lists.featured, []);
    merged := MergeList(merged, Solver, lists.solver, [] + Tag(Featured, lists.featured));
    merged := MergeList(merged, Erc20, lists.erc20, [] + Tag(Featured, lists.featured) + Tag(Solver, lists.solver));
    assert [] + Tag(Featured, lists.featured) + Tag(Solver, lists.solver) + Tag(Erc20, lists.erc20) == Visited(lists);
  }

  /** The ids of the merged tokens, in the order of their first counting items. */
  ghost function Seen(visited: seq<Listed>): seq<string>
  {
    if visited == [] then []
    else
      var front, last := Seen(visited[..|visited| - 1]), visited[|visited| - 1];
      if Counts(last) && last.item.token.id !in front then front + [last.item.token.id] else front
  }

  lemma {:induction false} SeenKeys(visited: seq<Listed>)
    ensures Distinct(Seen(visited)) && forall id :: id in Seen(visited) <==> id in Merged(visited)
  {
    if visited != [] {
      SeenKeys(visited[..|visited| - 1]);
    }
  }

  /** The same ids, ascending. */
  ghost function OrderedIds(visited: seq<Listed>, rank: Collation): seq<string>
  {
    Sort([rank], Seen(visited))
  }

  ghost predicate Rising(rank: Collation, s: seq<string>)
  {
    forall i, j :: 0 <= i < j < |s| ==> rank(s[i]) < rank(s[j])
  }

  lemma {:induction false} OrderedIdsKeys(visited: seq<Listed>, rank: Collation)
    ensures forall id :: id in OrderedIds(visited, rank) <==> id in Merged(visited)
  {
    SeenKeys(visited);
    SortKeeps([rank], Seen(visited));
  }

  lemma {:induction false} OrderedIdsRise(visited: seq<Listed>, rank: Collation)
    requires Injective(rank)
    ensures Rising(rank, OrderedIds(visited, rank))
  {
    var order: seq<Key<string>> := [rank];
    assert forall a, b :: Before(order, a, b) <==> rank(a) < rank(b) by {
      assert order[1..] == [];
    }
    SeenKeys(visited);
    SortAscending(order, Seen(visited));
  }

  function Lookup(merged: map<string, Token>, ids: seq<string>): seq<Token>
    requires forall i :: 0 <= i < |ids| ==> ids[i] in merged
  {
    seq(|ids|, i requires 0 <= i < |ids| => merged[ids[i]])
  }

  /** The merged tokens by ascending id. */
  ghost function FeedTokens(lists: Lists, rank: Collation): (tokens: seq<Token>)
  {
    OrderedIdsKeys(Visited(lists), rank);
    Lookup(Merged(Visited(lists)), OrderedIds(Visited(lists), rank))
  }

  /** buildRelayTokens. */
  method BuildTokens(lists: Lists, rank: Collation) returns (tokens: seq<Token>)
    requires Injective(rank)
    ensures tokens == FeedTokens(lists, rank)
  {
    var merged := MergeLists(lists);
    var keys := Keys(merged);
    var sorted := Sort([rank], keys);
    SameOrder(rank, keys, Visited(lists));
    OrderedIdsKeys(Visited(lists), rank);
    tokens := Collect(merged, sorted);
  }

  /** The last loop of buildRelayTokens. */
  method Collect(merged: map<string, Token>, keys: seq<string>) returns (tokens: seq<Token>)
    requires forall k :: k in keys ==> k in merged
    ensures tokens == Lookup(merged, keys)
  {
    tokens := [];
    for i := 0 to |keys|
      invariant |tokens| == i && forall j :: 0 <= j < i ==> tokens[j] == merged[keys[j]]
    {
      tokens := tokens + [merged[keys[i]]];
    }
  }

  /** Sorting forgets the order in which the map yields its keys. */
  lemma {:induction false} SameOrder(rank: Collation, keys: seq<string>, visited: seq<Listed>)
    requires Injective(rank) && Distinct(keys) && forall id :: id in keys <==> id in Merged(visited)
    ensures Sort([rank], keys) == OrderedIds(visited, rank)
  {
    SeenKeys(visited);
    SortAscending([rank], keys);
    SortAscending([rank], Seen(visited));
    SortKeeps([rank], keys);
    SortKeeps([rank], Seen(visited));
    AscendingUnique([rank], Sort([rank], keys), Sort([rank], Seen(visited)));
  }

  /** The feed's tokens are the merged ones, strictly ascending by id. */
  lemma {:induction false} FeedTokensMeaning(lists: Lists, rank: Collation)
    requires Injective(rank)
    ensures var tokens, merged := FeedTokens(lists, rank), Merged(Visited(lists));
            && (forall i, j :: 0 <= i < j < |tokens| ==> rank(tokens[i].id) < rank(tokens[j].id))
            && (forall t: Token :: t in tokens <==> t.id in merged && t == merged[t.id])
  {
    OrderedIdsKeys(Visited(lists), rank);
    OrderedIdsRise(Visited(lists), rank);
    KeysAreIds(Visited(lists));
    LookupMeaning(Merged(Visited(lists)), OrderedIds(Visited(lists), rank));
  }

  lemma {:induction false} LookupMeaning(merged: map<string, Token>, ids: seq<string>)
    requires forall k :: k in merged ==> merged[k].id == k
    requires forall id :: id in ids <==> id in merged
    ensures forall i :: 0 <= i < |ids| ==> Lookup(merged, ids)[i].id == ids[i]
    ensures forall t: Token :: t in Lookup(merged, ids) <==> t.id in merged && t == merged[t.id]
  {
    forall t: Token | t.id in merged && t == merged[t.id]
      ensures t in Lookup(merged, ids)
    {
      var i :| 0 <= i < |ids| && ids[i] == t.id;
      assert Lookup(merged, ids)[i] == t;
    }
  }

  lemma {:induction false} KeysAreIds(visited: seq<Listed>)
    ensures forall k :: k in Merged(visited) ==> Merged(visited)[k].id == k
  {
    if visited != [] {
      KeysAreIds(visited[..|visited| - 1]);
    }
  }

  // ---------------------------------------------------------------- what the merge means

  /** A counting item with this id: effective, with an address and a symbol. */
  function CountsFor(id: string): Listed -> bool
  {
    (l: Listed) =>
      id != "" && l.item.token.id == id && l.item.effective && l.item.token.address != "" && l.item.token.details.symbol != ""
  }

  /** One that, in addition, has the property. */
  function CountsWith(id: string, p: Listed -> bool): Listed -> bool
  {
    (l: Listed) => CountsFor(id)(l) && p(l)
  }

  /** Item `i` is the first one with the property. */
  ghost predicate FirstSuch(visited: seq<Listed>, i: int, p: Listed -> bool)
  {
    0 <= i < |visited| && p(visited[i]) && forall j :: 0 <= j < i ==> !p(visited[j])
  }

  lemma {:induction false} FirstStays(visited: seq<Listed>, p: Listed -> bool)
    requires visited != []
    ensures var front := visited[..|visited| - 1];
            forall i :: FirstSuch(visited, i, p) ==> if Occurs(front, p) then FirstSuch(front, i, p) else i == |front|
  {
    var front := visited[..|visited| - 1];
    forall i | FirstSuch(visited, i, p)
      ensures if Occurs(front, p) then FirstSuch(front, i, p) else i == |front|
    {
      if i < |front| {
        assert p(front[i]);
      }
      if Occurs(front, p) {
        var j :| 0 <= j < |front| && p(front[j]);
        assert p(visited[j]) && i <= j;
      }
    }
  }

  lemma {:induction false} OccursMore(visited: seq<Listed>, id: string, p: Listed -> bool)
    requires Occurs(visited, CountsWith(id, p))
    ensures Occurs(visited, CountsFor(id))
  {
    var i :| 0 <= i < |visited| && CountsWith(id, p)(visited[i]);
    assert CountsFor(id)(visited[i]);
  }

  /** The value that merging takes from the first counting item of the id that has one, and otherwise nothing. */
  ghost predicate FromFirst<T(!new)>(visited: seq<Listed>, id: string, p: Listed -> bool, column: Token -> T, nothing: T, value: T)
  {
    && (forall i :: FirstSuch(visited, i, CountsWith(id, p)) ==> value == column(visited[i].item.token))
    && (!Occurs(visited, CountsWith(id, p)) ==> value == nothing)
  }

  /** A column that keeps what it has and takes the next item's value only while it has nothing. */
  lemma {:induction false} FromFirstStep<T(!new)>(visited: seq<Listed>, id: string, p: Listed -> bool, column: Token -> T, nothing: T, before: T, after: T)
    requires visited != []
    requires var front := visited[..|visited| - 1];
             FromFirst(front, id, p, column, nothing, before) && (Occurs(front, CountsWith(id, p)) <==> before != nothing)
    requires var last := visited[|visited| - 1];
             after == if CountsFor(id)(last) && before == nothing then column(last.item.token) else before
    requires forall l :: p(l) <==> column(l.item.token) != nothing
    ensures FromFirst(visited, id, p, column, nothing, after) && (Occurs(visited, CountsWith(id, p)) <==> after != nothing)
  {
    OccursStep(visited, CountsWith(id, p));
    FirstStays(visited, CountsWith(id, p));
  }

  function Is(list: List): Listed -> bool
  {
    (l: Listed) => l.list == list
  }

  function HasName(): Listed -> bool
  {
    (l: Listed) => l.item.token.details.name != ""
  }

  function HasLogo(): Listed -> bool
  {
    (l: Listed) => l.item.token.details.logoUrl != ""
  }

  function HasDecimals(): Listed -> bool
  {
    (l: Listed) => l.item.token.details.decimals != 0
  }

  function HasAddress(): Listed -> bool
  {
    (l: Listed) => l.item.token.address != ""
  }

  function HasSymbol(): Listed -> bool
  {
    (l: Listed) => l.item.token.details.symbol != ""
  }

  function IsNative(): Listed -> bool
  {
    (l: Listed) => l.item.token.details.native
  }

  function Bridges(): Listed -> bool
  {
    (l: Listed) => l.item.token.details.bridging
  }

  function Permits(): Listed -> bool
  {
    (l: Listed) => l.item.token.details.permit
  }

  function NameOf(): Token -> string
  {
    (t: Token) => t.details.name
  }

  function LogoOf(): Token -> string
  {
    (t: Token) => t.details.logoUrl
  }

  function DecimalsOf(): Token -> int
  {
    (t: Token) => t.details.decimals
  }

  function AddressOf(): Token -> string
  {
    (t: Token) => t.address
  }

  function SymbolOf(): Token -> string
  {
    (t: Token) => t.details.symbol
  }

  /** A built token has each text, and its decimals, from the first counting item of its id that has one. */
  ghost predicate Texts(visited: seq<Listed>, id: string, t: Token)
  {
    && FromFirst(visited, id, HasAddress(), AddressOf(), "", t.address)
    && FromFirst(visited, id, HasSymbol(), SymbolOf(), "", t.details.symbol)
    && FromFirst(visited, id, HasName(), NameOf(), "", t.details.name)
    && FromFirst(visited, id, HasLogo(), LogoOf(), "", t.details.logoUrl)
    && FromFirst(visited, id, HasDecimals(), DecimalsOf(), 0, t.details.decimals)
  }

  /** It has each flag exactly if some counting item of its id has it, or stands in the list. */
  ghost predicate Flags(visited: seq<Listed>, id: string, d: Details)
  {
    && (d.native <==> Occurs(visited, CountsWith(id, IsNative())))
    && (d.bridging <==> Occurs(visited, CountsWith(id, Bridges())))
    && (d.permit <==> Occurs(visited, CountsWith(id, Permits())))
    && (d.featured <==> Occurs(visited, CountsWith(id, Is(Featured))))
    && (d.solver <==> Occurs(visited, CountsWith(id, Is(Solver))))
    && (d.erc20 <==> Occurs(visited, CountsWith(id, Is(Erc20))))
  }

  /** The token so far, or one with nothing in it. */
  ghost function SoFar(visited: seq<Listed>, id: string): Token
  {
    if id in Merged(visited) then Merged(visited)[id]
    else Token(id, "", Details("", "", "", 0, false, false, false, false, false, false), false)
  }

  /** One more item fills the column if it was empty. */
  ghost predicate Fills<T(!new)>(column: Token -> T, nothing: T)
  {
    && (forall l: Listed :: column(Fresh(l)) == column(l.item.token))
    && (forall l: Listed, t: Token :: column(More(t, l)) == if column(t) == nothing then column(l.item.token) else column(t))
  }

  /** One more item adds its flag. */
  ghost predicate Joins(flag: Token -> bool, p: Listed -> bool)
  {
    && (forall l: Listed :: flag(Fresh(l)) == p(l))
    && (forall l: Listed, t: Token :: flag(More(t, l)) == (flag(t) || p(l)))
  }

  lemma {:induction false} SoFarStep(visited: seq<Listed>, id: string)
    requires visited != []
    ensures var front, last := visited[..|visited| - 1], visited[|visited| - 1];
            SoFar(visited, id) == if !CountsFor(id)(last) then SoFar(front, id)
                                  else if id in Merged(front) then More(SoFar(front, id), last) else Fresh(last)
  {
  }

  lemma {:induction false} ColumnMeaning<T(!new)>(visited: seq<Listed>, id: string, p: Listed -> bool, column: Token -> T, nothing: T)
    requires Fills(column, nothing) && column(SoFar([], id)) == nothing
    requires forall l :: p(l) <==> column(l.item.token) != nothing
    ensures FromFirst(visited, id, p, column, nothing, column(SoFar(visited, id)))
    ensures Occurs(visited, CountsWith(id, p)) <==> column(SoFar(visited, id)) != nothing
  {
    if visited != [] {
      var front, last := visited[..|visited| - 1], visited[|visited| - 1];
      ColumnMeaning(front, id, p, column, nothing);
      SoFarStep(visited, id);
      assert id !in Merged(front) ==> SoFar(front, id) == SoFar([], id);
      FromFirstStep(visited, id, p, column, nothing, column(SoFar(front, id)), column(SoFar(visited, id)));
    }
  }

  lemma {:induction false} FlagMeaning(visited: seq<Listed>, id: string, p: Listed -> bool, flag: Token -> bool)
    requires Joins(flag, p) && !flag(SoFar([], id))
    ensures flag(SoFar(visited, id)) <==> Occurs(visited, CountsWith(id, p))
  {
    if visited != [] {
      var front, last := visited[..|visited| - 1], visited[|visited| - 1];
      FlagMeaning(front, id, p, flag);
      SoFarStep(visited, id);
      if id in Merged(front) {
        assert flag(More(SoFar(front, id), last)) == (flag(SoFar(front, id)) || p(last));
      } else {
        assert SoFar(front, id) == SoFar([], id) && flag(Fresh(last)) == p(last);
      }
      OccursStep(visited, CountsWith(id, p));
    }
  }

  /** Setting a list flag leaves the other columns alone. */
  lemma {:induction false} FlaggedColumns(d: Details, list: List)
    ensures var f := Flagged(d, list);
            && f.name == d.name && f.symbol == d.symbol && f.logoUrl == d.logoUrl && f.decimals == d.decimals
            && f.native == d.native && f.bridging == d.bridging && f.permit == d.permit
            && f.featured == (d.featured || list == Featured)
            && f.solver == (d.solver || list == Solver)
            && f.erc20 == (d.erc20 || list == Erc20)
  {
  }

  lemma {:induction false} TextsAfterMore(t: Token, l: Listed)
    ensures var w, u := More(t, l), l.item.token;
            && w.address == (if t.address == "" then u.address else t.address)
            && w.details.symbol == (if t.details.symbol == "" then u.details.symbol else t.details.symbol)
            && w.details.name == (if t.details.name == "" then u.details.name else t.details.name)
            && w.details.logoUrl == (if t.details.logoUrl == "" then u.details.logoUrl else t.details.logoUrl)
            && w.details.decimals == (if t.details.decimals == 0 then u.details.decimals else t.details.decimals)
  {
    FlaggedColumns(Absorb(t, Built(l.item)).details, l.list);
  }

  lemma {:induction false} FlagsAfterMore(t: Token, l: Listed)
    ensures var d, u := More(t, l).details, l.item.token.details;
            && d.native == (t.details.native || u.native)
            && d.bridging == (t.details.bridging || u.bridging)
            && d.permit == (t.details.permit || u.permit)
            && d.featured == (t.details.featured || l.list == Featured)
            && d.solver == (t.details.solver || l.list == Solver)
            && d.erc20 == (t.details.erc20 || l.list == Erc20)
  {
    FlaggedColumns(Absorb(t, Built(l.item)).details, l.list);
  }

  lemma {:induction false} AddressFills()
    ensures Fills(AddressOf(), "")
  {
    forall l: Listed, t: Token
      ensures AddressOf()(More(t, l)) == if AddressOf()(t) == "" then AddressOf()(l.item.token) else AddressOf()(t)
    {
      TextsAfterMore(t, l);
    }
  }

  lemma {:induction false} SymbolFills()
    ensures Fills(SymbolOf(), "")
  {
    forall l: Listed, t: Token
      ensures SymbolOf()(More(t, l)) == if SymbolOf()(t) == "" then SymbolOf()(l.item.token) else SymbolOf()(t)
    {
      TextsAfterMore(t, l);
    }
  }

  lemma {:induction false} NameFills()
    ensures Fills(NameOf(), "")
  {
    forall l: Listed, t: Token
      ensures NameOf()(More(t, l)) == if NameOf()(t) == "" then NameOf()(l.item.token) else NameOf()(t)
    {
      TextsAfterMore(t, l);
    }
  }

  lemma {:induction false} LogoFills()
    ensures Fills(LogoOf(), "")
  {
    forall l: Listed, t: Token
      ensures LogoOf()(More(t, l)) == if LogoOf()(t) == "" then LogoOf()(l.item.token) else LogoOf()(t)
    {
      TextsAfterMore(t, l);
    }
  }

  lemma {:induction false} DecimalsFills()
    ensures Fills(DecimalsOf(), 0)
  {
    forall l: Listed, t: Token
      ensures DecimalsOf()(More(t, l)) == if DecimalsOf()(t) == 0 then DecimalsOf()(l.item.token) else DecimalsOf()(t)
    {
      TextsAfterMore(t, l);
    }
  }

  lemma {:induction false} NativeJoins()
    ensures Joins(NativeFlag(), IsNative())
  {
    forall l: Listed, t: Token
      ensures NativeFlag()(More(t, l)) == (NativeFlag()(t) || IsNative()(l))
    {
      FlagsAfterMore(t, l);
    }
  }

  lemma {:induction false} BridgingJoins()
    ensures Joins(BridgingFlag(), Bridges())
  {
    forall l: Listed, t: Token
      ensures BridgingFlag()(More(t, l)) == (BridgingFlag()(t) || Bridges()(l))
    {
      FlagsAfterMore(t, l);
    }
  }

  lemma {:induction false} PermitJoins()
    ensures Joins(PermitFlag(), Permits())
  {
    forall l: Listed, t: Token
      ensures PermitFlag()(More(t, l)) == (PermitFlag()(t) || Permits()(l))
    {
      FlagsAfterMore(t, l);
    }
  }

  lemma {:induction false} FeaturedJoins()
    ensures Joins(FeaturedFlag(), Is(Featured))
  {
    forall l: Listed, t: Token
      ensures FeaturedFlag()(More(t, l)) == (FeaturedFlag()(t) || Is(Featured)(l))
    {
      FlagsAfterMore(t, l);
    }
  }

  lemma {:induction false} SolverJoins()
    ensures Joins(SolverFlag(), Is(Solver))
  {
    forall l: Listed, t: Token
      ensures SolverFlag()(More(t, l)) == (SolverFlag()(t) || Is(Solver)(l))
    {
      FlagsAfterMore(t, l);
    }
  }

  lemma {:induction false} Erc20Joins()
    ensures Joins(Erc20Flag(), Is(Erc20))
  {
    forall l: Listed, t: Token
      ensures Erc20Flag()(More(t, l)) == (Erc20Flag()(t) || Is(Erc20)(l))
    {
      FlagsAfterMore(t, l);
    }
  }

  function NativeFlag(): Token -> bool
  {
    (t: Token) => t.details.native
  }

  function BridgingFlag(): Token -> bool
  {
    (t: Token) => t.details.bridging
  }

  function PermitFlag(): Token -> bool
  {
    (t: Token) => t.details.permit
  }

  function FeaturedFlag(): Token -> bool
  {
    (t: Token) => t.details.featured
  }

  function SolverFlag(): Token -> bool
  {
    (t: Token) => t.details.solver
  }

  function Erc20Flag(): Token -> bool
  {
    (t: Token) => t.details.erc20
  }

  lemma {:induction false} TextsMeaning(visited: seq<Listed>, id: string)
    ensures Texts(visited, id, SoFar(visited, id))
    ensures Occurs(visited, CountsWith(id, HasAddress())) <==> SoFar(visited, id).address != ""
    ensures Occurs(visited, CountsWith(id, HasSymbol())) <==> SoFar(visited, id).details.symbol != ""
  {
    AddressFills();
    SymbolFills();
    NameFills();
    LogoFills();
    DecimalsFills();
    EmptyColumns(id);
    ColumnMeaning(visited, id, HasAddress(), AddressOf(), "");
    ColumnMeaning(visited, id, HasSymbol(), SymbolOf(), "");
    ColumnMeaning(visited, id, HasName(), NameOf(), "");
    ColumnMeaning(visited, id, HasLogo(), LogoOf(), "");
    ColumnMeaning(visited, id, HasDecimals(), DecimalsOf(), 0);
  }

  lemma {:induction false} EmptyColumns(id: string)
    ensures var t := SoFar([], id);
            && t.address == t.details.symbol == t.details.name == t.details.logoUrl == "" && t.details.decimals == 0
            && !t.details.native && !t.details.bridging && !t.details.permit
            && !t.details.featured && !t.details.solver && !t.details.erc20
  {
  }

  lemma {:induction false} FlagsMeaning(visited: seq<Listed>, id: string)
    ensures Flags(visited, id, SoFar(visited, id).details)
  {
    NativeJoins();
    BridgingJoins();
    PermitJoins();
    FeaturedJoins();
    SolverJoins();
    Erc20Joins();
    EmptyColumns(id);
    FlagMeaning(visited, id, IsNative(), NativeFlag());
    FlagMeaning(visited, id, Bridges(), BridgingFlag());
    FlagMeaning(visited, id, Permits(), PermitFlag());
    FlagMeaning(visited, id, Is(Featured), FeaturedFlag());
    FlagMeaning(visited, id, Is(Solver), SolverFlag());
    FlagMeaning(visited, id, Is(Erc20), Erc20Flag());
  }

  lemma {:induction false} BuiltIffCounted(visited: seq<Listed>, id: string)
    ensures id in Merged(visited) <==> Occurs(visited, CountsFor(id))
    ensures id in Merged(visited) ==> Merged(visited)[id].id == id && Merged(visited)[id].supported && id != ""
  {
    if visited != [] {
      BuiltIffCounted(visited[..|visited| - 1], id);
      OccursStep(visited, CountsFor(id));
    }
  }

  /**
   A token is built exactly for the ids of counting items.  It is supported; its address, symbol, name, logo and
   decimals are those of the first counting item of the id that has one, its flags those that any of them has.
   */
  lemma {:induction false} MergedMeaning(visited: seq<Listed>, id: string)
    ensures id in Merged(visited) <==> Occurs(visited, CountsFor(id))
    ensures id in Merged(visited) ==>
              var t := Merged(visited)[id];
              && t.id == id && t.supported && t.id != "" && t.address != "" && t.details.symbol != ""
              && Texts(visited, id, t) && Flags(visited, id, t.details)
  {
    BuiltIffCounted(visited, id);
    TextsMeaning(visited, id);
    FlagsMeaning(visited, id);
    if id in Merged(visited) {
      var i :| 0 <= i < |visited| && CountsFor(id)(visited[i]);
      assert CountsWith(id, HasAddress())(visited[i]) && CountsWith(id, HasSymbol())(visited[i]);
    }
  }

  /** The featured items come first, then the solver currencies, then the ERC-20 currencies; an item counts if it is effective and complete. */
  lemma {:induction false} VisitedInOrder(lists: Lists, i: int)
    ensures var v, a, b := Visited(lists), |lists.featured|, |lists.solver|;
            && |v| == a + b + |lists.erc20|
            && (0 <= i < a ==> v[i] == Listed(Featured, lists.featured[i]))
            && (a <= i < a + b ==> v[i] == Listed(Solver, lists.solver[i - a]))
            && (a + b <= i < |v| ==> v[i] == Listed(Erc20, lists.erc20[i - a - b]))
  {
  }
}
