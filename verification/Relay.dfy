/** The relay chain and token listings (internal/logic/relay). */
module Relay {
  import opened Wrappers
  import opened Machine
  import opened Ordering
  import opened Query

  datatype Chain = Chain(id: int, name: string, logoUrl: string, kind: string, enabled: bool, supported: bool)

  datatype Token = Token(id: int, tokenId: string, chainId: int, name: string, symbol: string, logoUrl: string,
                         address: string, decimals: int, supported: bool)

  datatype ClientChain = ClientChain(id: int, name: string, logoUrl: string)

  datatype ClientToken = ClientToken(id: string, chainId: int, name: string, symbol: string, logoUrl: string,
                                     address: string, decimals: int)

  datatype ClientTokenReq = ClientTokenReq(chainId: int, ids: seq<string>)

  function ByChainId(): Key<Chain>
  {
    (c: Chain) => c.id as real
  }

  function ByChainThenToken(rank: Collation): seq<Key<Token>>
  {
    [(t: Token) => t.chainId as real, (t: Token) => rank(t.tokenId)]
  }

  /** The primary key of relay_chain. */
  ghost predicate UniqueChains(chains: seq<Chain>)
  {
    forall i, j :: 0 <= i < j < |chains| ==> chains[i].id != chains[j].id
  }

  /** The unique index on (token_id, chain_id) of relay_token. */
  ghost predicate UniqueTokens(tokens: seq<Token>)
  {
    forall i, j :: 0 <= i < j < |tokens| ==> (tokens[i].tokenId, tokens[i].chainId) != (tokens[j].tokenId, tokens[j].chainId)
  }

  function ToClientChain(c: Chain): ClientChain
  {
    ClientChain(c.id, c.name, c.logoUrl)
  }

  function ToClientToken(t: Token): ClientToken
  {
    ClientToken(t.tokenId, t.chainId, t.name, t.symbol, t.logoUrl, t.address, t.decimals)
  }

  // ---------------------------------------------------------------- what the client may see

  predicate Open(c: Chain)
  {
    c.enabled && c.supported
  }

  /** HasChainWith(enabled, supported). */
  predicate OnOpenChain(chains: seq<Chain>, t: Token)
  {
    exists i :: 0 <= i < |chains| && chains[i].id == t.chainId && Open(chains[i])
  }

  predicate Visible(chains: seq<Chain>, req: ClientTokenReq, t: Token)
  {
    && t.supported
    && OnOpenChain(chains, t)
    && (req.chainId > 0 ==> t.chainId == req.chainId)
    && (req.ids != [] ==> t.tokenId in req.ids)
  }

  function VisibleTo(chains: seq<Chain>, req: ClientTokenReq): Predicate<Token>
  {
    (t: Token) => Visible(chains, req, t)
  }

  ghost function ChainList(chains: seq<Chain>): seq<Chain>
  {
    Sort([ByChainId()], Filter(Open, chains))
  }

  ghost function TokenList(chains: seq<Chain>, tokens: seq<Token>, req: ClientTokenReq, rank: Collation): seq<Token>
  {
    Sort(ByChainThenToken(rank), Filter(VisibleTo(chains, req), tokens))
  }

  function Mapped<A, B>(f: A -> B, s: seq<A>): (r: seq<B>)
    ensures |r| == |s| && forall i :: 0 <= i < |s| ==> r[i] == f(s[i])
  {
    seq(|s|, i requires 0 <= i < |s| => f(s[i]))
  }

  /** The loop that turns rows into response messages. */
  method Convert<A, B>(f: A -> B, list: seq<A>) returns (data: seq<B>)
    ensures data == Mapped(f, list)
  {
    data := [];
    for i := 0 to |list|
      invariant data == Mapped(f, list[..i])
    {
      data := data + [f(list[i])];
    }
    assert list[..|list|] == list;
  }

  method GetClientRelayChainList(chains: Table<Chain>) returns (r: Result<seq<ClientChain>, QueryError>)
    ensures r == if chains.broken then Err(Unavailable) else Ok(Mapped(ToClientChain, ChainList(chains.rows)))
    ensures r.Ok? ==>
              var list := ChainList(chains.rows);
              |r.value| == |list| && forall i :: 0 <= i < |list| ==>
                r.value[i].id == list[i].id && r.value[i].name == list[i].name && r.value[i].logoUrl == list[i].logoUrl
  {
    OpenListing(chains.rows);
    var list := SelectAll(chains, ChainPredicates(), [ByChainId()]);
    if list.Err? {
      return Err(list.error);
    }
    var data := Convert(ToClientChain, list.value);
    return Ok(data);
  }

  function ChainPredicates(): seq<Predicate<Chain>>
  {
    [(c: Chain) => c.enabled, (c: Chain) => c.supported]
  }

  lemma {:induction false} OpenListing(chains: seq<Chain>)
    ensures Matching(chains, ChainPredicates(), [ByChainId()]) == ChainList(chains)
  {
    var predicates := ChainPredicates();
    forall c
      ensures Satisfies(predicates, c) <==> Open(c)
    {
      assert Satisfies(predicates, c) ==> predicates[0](c) && predicates[1](c);
    }
    MatchingIs(chains, predicates, [ByChainId()], Open);
  }

  /** The predicate list that GetClientRelayTokenList grows step by step. */
  function TokenPredicates(chains: seq<Chain>, req: ClientTokenReq): seq<Predicate<Token>>
  {
    [(t: Token) => t.supported, (t: Token) => OnOpenChain(chains, t)]
    + (if req.chainId > 0 then [(t: Token) => t.chainId == req.chainId] else [])
    + (if |req.ids| > 0 then [(t: Token) => t.tokenId in req.ids] else [])
  }

  lemma {:induction false} PredicatesMeanVisible(chains: seq<Chain>, req: ClientTokenReq, t: Token)
    ensures Satisfies(TokenPredicates(chains, req), t) <==> Visible(chains, req, t)
  {
    var ps := TokenPredicates(chains, req);
    if Satisfies(ps, t) {
      assert ps[0](t) && ps[1](t);
      if req.chainId > 0 {
        assert ps[2](t);
      }
      if |req.ids| > 0 {
        assert ps[|ps| - 1](t);
      }
    }
  }

  lemma {:induction false} VisibleListing(chains: seq<Chain>, tokens: seq<Token>, req: ClientTokenReq, rank: Collation)
    ensures Matching(tokens, TokenPredicates(chains, req), ByChainThenToken(rank)) == TokenList(chains, tokens, req, rank)
  {
    forall t
      ensures Satisfies(TokenPredicates(chains, req), t) <==> Visible(chains, req, t)
    {
      PredicatesMeanVisible(chains, req, t);
    }
    MatchingIs(tokens, TokenPredicates(chains, req), ByChainThenToken(rank), VisibleTo(chains, req));
  }

  method GetClientRelayTokenList(chains: Table<Chain>, tokens: Table<Token>, req: ClientTokenReq, rank: Collation)
    returns (r: Result<seq<ClientToken>, QueryError>)
    ensures r == if tokens.broken then Err(Unavailable)
                 else Ok(Mapped(ToClientToken, TokenList(chains.rows, tokens.rows, req, rank)))
    ensures r.Ok? ==>
              var list := TokenList(chains.rows, tokens.rows, req, rank);
              |r.value| == |list| && forall i :: 0 <= i < |list| ==>
                && r.value[i].id == list[i].tokenId && r.value[i].chainId == list[i].chainId && r.value[i].name == list[i].name
                && r.value[i].symbol == list[i].symbol && r.value[i].logoUrl == list[i].logoUrl
                && r.value[i].address == list[i].address && r.value[i].decimals == list[i].decimals
  {
    VisibleListing(chains.rows, tokens.rows, req, rank);
    var list := SelectAll(tokens, TokenPredicates(chains.rows, req), ByChainThenToken(rank));
    if list.Err? {
      return Err(list.error);
    }
    var data := Convert(ToClientToken, list.value);
    return Ok(data);
  }

  // ---------------------------------------------------------------- properties of the listings

  lemma {:induction false} TokensSeparated(tokens: seq<Token>, rank: Collation)
    requires Injective(rank) && UniqueTokens(tokens)
    ensures Separates(ByChainThenToken(rank), tokens)
  {
    forall i, j | 0 <= i < j < |tokens|
      ensures Before(ByChainThenToken(rank), tokens[i], tokens[j]) || Before(ByChainThenToken(rank), tokens[j], tokens[i])
    {
      BeforeMeans(rank, tokens[i], tokens[j]);
      BeforeMeans(rank, tokens[j], tokens[i]);
      assert (tokens[i].tokenId, tokens[i].chainId) != (tokens[j].tokenId, tokens[j].chainId);
    }
  }

  /** The order of the listings: by chain, then by token id. */
  lemma {:induction false} BeforeMeans(rank: Collation, a: Token, b: Token)
    ensures Before(ByChainThenToken(rank), a, b) <==>
            a.chainId < b.chainId || (a.chainId == b.chainId && rank(a.tokenId) < rank(b.tokenId))
  {
    var keys := ByChainThenToken(rank);
    assert Before(keys[1..][1..], a, b) == false;
    assert Before(keys[1..], a, b) <==> rank(a.tokenId) < rank(b.tokenId);
  }

  /** Strictly ascending in chain, then in token id. */
  ghost predicate InOrder(rank: Collation, s: seq<Token>)
  {
    forall i, j :: 0 <= i < j < |s| ==>
      s[i].chainId < s[j].chainId || (s[i].chainId == s[j].chainId && rank(s[i].tokenId) < rank(s[j].tokenId))
  }

  lemma {:induction false} AscendingIsInOrder(rank: Collation, s: seq<Token>)
    ensures Ascending(ByChainThenToken(rank), s) <==> InOrder(rank, s)
  {
    forall i, j | 0 <= i < j < |s|
      ensures Before(ByChainThenToken(rank), s[i], s[j]) <==>
              s[i].chainId < s[j].chainId || (s[i].chainId == s[j].chainId && rank(s[i].tokenId) < rank(s[j].tokenId))
    {
      BeforeMeans(rank, s[i], s[j]);
    }
  }

  /** The client token list is strictly ascending in (chain, token id) and holds exactly the visible tokens. */
  lemma {:induction false} TokenListContents(chains: seq<Chain>, tokens: seq<Token>, req: ClientTokenReq, rank: Collation)
    requires Injective(rank) && UniqueTokens(tokens)
    ensures Ascending(ByChainThenToken(rank), TokenList(chains, tokens, req, rank)) && InOrder(rank, TokenList(chains, tokens, req, rank))
    ensures forall t :: t in TokenList(chains, tokens, req, rank) <==> t in tokens && Visible(chains, req, t)
    ensures forall t :: t in TokenList(chains, tokens, req, rank) <==>
              && t in tokens && t.supported
              && (exists i :: 0 <= i < |chains| && chains[i].id == t.chainId && chains[i].enabled && chains[i].supported)
              && (req.chainId <= 0 || t.chainId == req.chainId)
              && (req.ids == [] || t.tokenId in req.ids)
  {
    AscendingIsInOrder(rank, TokenList(chains, tokens, req, rank));
    TokensSeparated(tokens, rank);
    SortedFilter(ByChainThenToken(rank), VisibleTo(chains, req), tokens);
  }

  /** The client chain list is strictly ascending in id and holds exactly the open chains. */
  lemma {:induction false} ChainListContents(chains: seq<Chain>)
    requires UniqueChains(chains)
    ensures forall i, j :: 0 <= i < j < |ChainList(chains)| ==> ChainList(chains)[i].id < ChainList(chains)[j].id
    ensures forall c :: c in ChainList(chains) <==> c in chains && c.enabled && c.supported
  {
    var keys := [ByChainId()];
    assert forall a, b :: Before(keys, a, b) <==> a.id < b.id by {
      assert keys[1..] == [];
    }
    SortedFilter(keys, Open, chains);
  }

  predicate ChainAmong(listed: seq<Chain>, id: int)
  {
    exists i :: 0 <= i < |listed| && listed[i].id == id
  }

  /** The answers to one request per listed chain, one after the other. */
  ghost function PerChain(chains: seq<Chain>, tokens: seq<Token>, listed: seq<Chain>, ids: seq<string>, rank: Collation): seq<Token>
  {
    if listed == [] then []
    else PerChain(chains, tokens, listed[..|listed| - 1], ids, rank)
         + TokenList(chains, tokens, ClientTokenReq(listed[|listed| - 1].id, ids), rank)
  }

  lemma {:induction false} AmongLast(listed: seq<Chain>, id: int)
    requires listed != []
    ensures var n := |listed| - 1; ChainAmong(listed, id) <==> listed[n].id == id || ChainAmong(listed[..n], id)
  {
    var n := |listed| - 1;
    if ChainAmong(listed[..n], id) {
      var i :| 0 <= i < n && listed[..n][i].id == id;
      assert listed[i].id == id;
    }
  }

  /** The answer for one chain: of the tokens visible without a chain filter, those on that chain. */
  lemma {:induction false} OneChain(chains: seq<Chain>, tokens: seq<Token>, chainId: int, ids: seq<string>, rank: Collation)
    requires Injective(rank) && UniqueTokens(tokens) && chainId > 0
    ensures Ascending(ByChainThenToken(rank), TokenList(chains, tokens, ClientTokenReq(chainId, ids), rank))
    ensures forall t :: t in TokenList(chains, tokens, ClientTokenReq(chainId, ids), rank) <==>
                        t in tokens && Visible(chains, ClientTokenReq(0, ids), t) && t.chainId == chainId
  {
    TokenListContents(chains, tokens, ClientTokenReq(chainId, ids), rank);
  }

  lemma {:induction false} PerChainMembers(chains: seq<Chain>, tokens: seq<Token>, listed: seq<Chain>, ids: seq<string>, rank: Collation, t: Token)
    requires Injective(rank) && UniqueTokens(tokens)
    requires forall i :: 0 <= i < |listed| ==> listed[i].id > 0
    ensures t in PerChain(chains, tokens, listed, ids, rank) <==>
            t in tokens && Visible(chains, ClientTokenReq(0, ids), t) && ChainAmong(listed, t.chainId)
  {
    if listed != [] {
      var n := |listed| - 1;
      PerChainMembers(chains, tokens, listed[..n], ids, rank, t);
      OneChain(chains, tokens, listed[n].id, ids, rank);
      AmongLast(listed, t.chainId);
    }
  }

  lemma {:induction false} PerChainAscending(chains: seq<Chain>, tokens: seq<Token>, listed: seq<Chain>, ids: seq<string>, rank: Collation)
    requires Injective(rank) && UniqueTokens(tokens)
    requires forall i :: 0 <= i < |listed| ==> listed[i].id > 0
    requires forall i, j :: 0 <= i < j < |listed| ==> listed[i].id < listed[j].id
    ensures Ascending(ByChainThenToken(rank), PerChain(chains, tokens, listed, ids, rank))
  {
    if listed != [] {
      var n, keys := |listed| - 1, ByChainThenToken(rank);
      var front := listed[..n];
      var before, last := PerChain(chains, tokens, front, ids, rank), TokenList(chains, tokens, ClientTokenReq(listed[n].id, ids), rank);
      PerChainAscending(chains, tokens, front, ids, rank);
      OneChain(chains, tokens, listed[n].id, ids, rank);
      forall x, y | x in before && y in last
        ensures Before(keys, x, y)
      {
        PerChainMembers(chains, tokens, front, ids, rank, x);
        var i :| 0 <= i < n && front[i].id == x.chainId;
        assert listed[i].id < listed[n].id == y.chainId;
        BeforeMeans(rank, x, y);
      }
      AscendingConcat(keys, before, last);
    }
  }

  /**
   The unfiltered client token list is the concatenation, in client chain list order, of the
   per-chain lists for the same id filter.
   */
  lemma {:induction false} ClientListDecomposes(chains: seq<Chain>, tokens: seq<Token>, ids: seq<string>, rank: Collation)
    requires Injective(rank) && UniqueTokens(tokens) && UniqueChains(chains)
    requires forall c :: c in chains ==> c.id > 0
    ensures TokenList(chains, tokens, ClientTokenReq(0, ids), rank) == PerChain(chains, tokens, ChainList(chains), ids, rank)
  {
    var listed := ChainList(chains);
    ChainListContents(chains);
    PerChainAscending(chains, tokens, listed, ids, rank);
    TokenListContents(chains, tokens, ClientTokenReq(0, ids), rank);
    forall t
      ensures t in PerChain(chains, tokens, listed, ids, rank) <==> t in tokens && Visible(chains, ClientTokenReq(0, ids), t)
    {
      PerChainMembers(chains, tokens, listed, ids, rank, t);
      if Visible(chains, ClientTokenReq(0, ids), t) {
        EveryTokenHasItsChain(chains, ClientTokenReq(0, ids), t);
      }
    }
    AscendingUnique(ByChainThenToken(rank), TokenList(chains, tokens, ClientTokenReq(0, ids), rank),
                    PerChain(chains, tokens, listed, ids, rank));
  }

  /** Every listed token's chain appears in the client chain list. */
  lemma {:induction false} EveryTokenHasItsChain(chains: seq<Chain>, req: ClientTokenReq, t: Token)
    requires UniqueChains(chains) && Visible(chains, req, t)
    ensures ChainAmong(ChainList(chains), t.chainId)
  {
    ChainListContents(chains);
    var i :| 0 <= i < |chains| && chains[i].id == t.chainId && Open(chains[i]);
    assert chains[i] in ChainList(chains);
  }

  /** Asking for a chain whose id is not positive asks for no chain in particular. */
  lemma {:induction false} NonPositiveChainIsUnfiltered(chains: seq<Chain>, tokens: seq<Token>, chainId: int, ids: seq<string>, rank: Collation)
    requires chainId <= 0
    ensures TokenList(chains, tokens, ClientTokenReq(chainId, ids), rank) == TokenList(chains, tokens, ClientTokenReq(0, ids), rank)
  {
    FilterSame(VisibleTo(chains, ClientTokenReq(chainId, ids)), VisibleTo(chains, ClientTokenReq(0, ids)), tokens);
  }

  // ---------------------------------------------------------------- the administrative token listing

  datatype TokenListReq = TokenListReq(page: int, pageSize: int, ids: seq<string>, chainIds: seq<int>,
                                       name: Option<string>, symbol: Option<string>, address: Option<string>,
                                       supported: Option<bool>)

  /** NameContains and SymbolContains: the needle occurs somewhere. */
  predicate Contains(s: string, needle: string)
  {
    exists i :: 0 <= i <= |s| && needle <= s[i..]
  }

  predicate Asked(req: TokenListReq, t: Token)
  {
    && (req.chainIds != [] ==> t.chainId in req.chainIds)
    && (req.ids != [] ==> t.tokenId in req.ids)
    && (req.name.Some? ==> Contains(t.name, req.name.value))
    && (req.symbol.Some? ==> Contains(t.symbol, req.symbol.value))
    && (req.address.Some? ==> t.address == req.address.value)
    && (req.supported.Some? ==> t.supported == req.supported.value)
  }

  function AskedBy(req: TokenListReq): Predicate<Token>
  {
    (t: Token) => Asked(req, t)
  }

  /** One more predicate, if the request asks for it. */
  function If(asked: bool, p: Predicate<Token>): seq<Predicate<Token>>
  {
    if asked then [p] else []
  }

  function ListPredicates(req: TokenListReq): seq<Predicate<Token>>
  {
    If(|req.chainIds| > 0, (t: Token) => t.chainId in req.chainIds)
    + If(|req.ids| > 0, (t: Token) => t.tokenId in req.ids)
    + If(req.name.Some?, (t: Token) => req.name.Some? ==> Contains(t.name, req.name.value))
    + If(req.symbol.Some?, (t: Token) => req.symbol.Some? ==> Contains(t.symbol, req.symbol.value))
    + If(req.address.Some?, (t: Token) => req.address.Some? ==> t.address == req.address.value)
    + If(req.supported.Some?, (t: Token) => req.supported.Some? ==> t.supported == req.supported.value)
  }

  lemma {:induction false} SatisfiesConcat(ps: seq<Predicate<Token>>, qs: seq<Predicate<Token>>, t: Token)
    ensures Satisfies(ps + qs, t) <==> Satisfies(ps, t) && Satisfies(qs, t)
  {
    assert forall i :: 0 <= i < |ps| ==> (ps + qs)[i] == ps[i];
    assert forall i :: 0 <= i < |qs| ==> (ps + qs)[|ps| + i] == qs[i];
  }

  lemma {:induction false} SatisfiesIf(ps: seq<Predicate<Token>>, asked: bool, p: Predicate<Token>, t: Token)
    ensures Satisfies(ps + If(asked, p), t) <==> Satisfies(ps, t) && (asked ==> p(t))
  {
    SatisfiesConcat(ps, If(asked, p), t);
    assert asked ==> If(asked, p)[0] == p;
  }

  lemma {:induction false} ListPredicatesMeanAsked(req: TokenListReq, t: Token)
    ensures Satisfies(ListPredicates(req), t) <==> Asked(req, t)
  {
    var byChain := If(|req.chainIds| > 0, (u: Token) => u.chainId in req.chainIds);
    var p2: Predicate<Token> := (u: Token) => u.tokenId in req.ids;
    var p3: Predicate<Token> := (u: Token) => req.name.Some? ==> Contains(u.name, req.name.value);
    var p4: Predicate<Token> := (u: Token) => req.symbol.Some? ==> Contains(u.symbol, req.symbol.value);
    var p5: Predicate<Token> := (u: Token) => req.address.Some? ==> u.address == req.address.value;
    var p6: Predicate<Token> := (u: Token) => req.supported.Some? ==> u.supported == req.supported.value;
    var two := byChain + If(|req.ids| > 0, p2);
    var three := two + If(req.name.Some?, p3);
    var four := three + If(req.symbol.Some?, p4);
    var five := four + If(req.address.Some?, p5);
    SatisfiesIf([], |req.chainIds| > 0, (u: Token) => u.chainId in req.chainIds, t);
    assert [] + byChain == byChain;
    SatisfiesIf(byChain, |req.ids| > 0, p2, t);
    SatisfiesIf(two, req.name.Some?, p3, t);
    SatisfiesIf(three, req.symbol.Some?, p4, t);
    SatisfiesIf(four, req.address.Some?, p5, t);
    SatisfiesIf(five, req.supported.Some?, p6, t);
    assert ListPredicates(req) == five + If(req.supported.Some?, p6);
  }

  datatype TokenPage<Info> = TokenPage(total: nat, data: seq<Info>)

  const DEFAULT_PAGE_SIZE := 100

  function EffectivePage(page: int): int
  {
    if page == 0 then 1 else page
  }

  function EffectiveSize(size: int): int
  {
    if size == 0 then DEFAULT_PAGE_SIZE else size
  }

  /** Everything the request asks for, in listing order. */
  ghost function AskedList(tokens: seq<Token>, req: TokenListReq, rank: Collation): seq<Token>
  {
    Sort(ByChainThenToken(rank), Filter(AskedBy(req), tokens))
  }

  /** The answer to a listing request. */
  ghost function TokenPageOf(full: seq<Token>, page: int, size: int): Result<TokenPage<Token>, QueryError>
  {
    match PageOf(full, EffectivePage(page), EffectiveSize(size))
    case Err(e) => Err(e)
    case Ok(data) => Ok(TokenPage(|full|, data))
  }

  lemma {:induction false} ListingIsAskedList(tokens: seq<Token>, req: TokenListReq, rank: Collation)
    ensures Matching(tokens, ListPredicates(req), ByChainThenToken(rank)) == AskedList(tokens, req, rank)
    ensures |Matching(tokens, ListPredicates(req), [])| == |AskedList(tokens, req, rank)|
  {
    forall t
      ensures Satisfies(ListPredicates(req), t) <==> AskedBy(req)(t)
    {
      ListPredicatesMeanAsked(req, t);
    }
    MatchingIs(tokens, ListPredicates(req), ByChainThenToken(rank), AskedBy(req));
    SameSize(tokens, ListPredicates(req), [], ByChainThenToken(rank));
    assert [] + ByChainThenToken(rank) == ByChainThenToken(rank);
  }

  /** The list that a request pages over: in order, the tokens that meet all its demands. */
  ghost predicate IsListing(full: seq<Token>, tokens: seq<Token>, req: TokenListReq, rank: Collation)
  {
    && InOrder(rank, full)
    && forall t :: t in full <==>
         && t in tokens
         && (req.chainIds == [] || t.chainId in req.chainIds)
         && (req.ids == [] || t.tokenId in req.ids)
         && (req.name.None? || exists a, b :: t.name == a + req.name.value + b)
         && (req.symbol.None? || exists a, b :: t.symbol == a + req.symbol.value + b)
         && (req.address.None? || t.address == req.address.value)
         && (req.supported.None? || t.supported == req.supported.value)
  }

  lemma {:induction false} ContainsMeans(s: string, needle: string)
    ensures Contains(s, needle) <==> exists a, b :: s == a + needle + b
  {
    if Contains(s, needle) {
      var i :| 0 <= i <= |s| && needle <= s[i..];
      var b := s[i..][|needle|..];
      assert s[i..] == needle + b;
      assert s == s[..i] + needle + b;
    }
    forall a: string, b: string | s == a + needle + b
      ensures Contains(s, needle)
    {
      assert s[|a|..] == needle + b;
      assert needle <= s[|a|..];
    }
  }

  /** Under the unique index there is exactly one such list. */
  lemma {:induction false} ListingUnique(tokens: seq<Token>, req: TokenListReq, rank: Collation)
    requires Injective(rank) && UniqueTokens(tokens)
    ensures IsListing(AskedList(tokens, req, rank), tokens, req, rank)
    ensures forall full :: IsListing(full, tokens, req, rank) ==> full == AskedList(tokens, req, rank)
  {
    forall s: string, needle: string
      ensures Contains(s, needle) <==> exists a, b :: s == a + needle + b
    {
      ContainsMeans(s, needle);
    }
    var asked := AskedList(tokens, req, rank);
    TokensSeparated(tokens, rank);
    SortedFilter(ByChainThenToken(rank), AskedBy(req), tokens);
    AscendingIsInOrder(rank, asked);
    forall full | IsListing(full, tokens, req, rank)
      ensures full == asked
    {
      AscendingIsInOrder(rank, full);
      AscendingUnique(ByChainThenToken(rank), full, asked);
    }
  }

  /** The answer to a request is the requested rows of that list, and its length. */
  lemma {:induction false} AnswerIsSlice(full: seq<Token>, tokens: seq<Token>, req: TokenListReq, rank: Collation)
    requires Injective(rank) && UniqueTokens(tokens) && IsListing(full, tokens, req, rank)
    requires 0 <= req.page < TWO64 && 0 <= req.pageSize < TWO63
    ensures var page, size := if req.page == 0 then 1 else req.page, if req.pageSize == 0 then 100 else req.pageSize;
            (page - 1) * size < TWO63 ==>
              TokenPageOf(AskedList(tokens, req, rank), req.page, req.pageSize) == Ok(TokenPage(|full|, Slice(full, page, size)))
  {
    ListingUnique(tokens, req, rank);
    var page, size := if req.page == 0 then 1 else req.page, if req.pageSize == 0 then 100 else req.pageSize;
    if (page - 1) * size < TWO63 {
      PageIsSlice(full, page, size);
    }
  }

  /** For every request whose offset fits a signed word. */
  lemma {:induction false} AnswersAreSlices(tokens: seq<Token>, req: TokenListReq, rank: Collation)
    requires Injective(rank) && UniqueTokens(tokens) && 0 <= req.page < TWO64 && 0 <= req.pageSize < TWO64
    ensures forall full :: IsListing(full, tokens, req, rank) ==>
              var page, size := if req.page == 0 then 1 else req.page, if req.pageSize == 0 then 100 else req.pageSize;
              size < TWO63 && (page - 1) * size < TWO63 ==>
                TokenPageOf(AskedList(tokens, req, rank), req.page, req.pageSize) == Ok(TokenPage(|full|, Slice(full, page, size)))
  {
    forall full | IsListing(full, tokens, req, rank) && req.pageSize < TWO63
      ensures var page, size := if req.page == 0 then 1 else req.page, if req.pageSize == 0 then 100 else req.pageSize;
              (page - 1) * size < TWO63 ==>
                TokenPageOf(AskedList(tokens, req, rank), req.page, req.pageSize) == Ok(TokenPage(|full|, Slice(full, page, size)))
    {
      AnswerIsSlice(full, tokens, req, rank);
    }
  }

  /** The two queries of GetRelayTokenList. */
  method QueryTokenPage(tokens: Table<Token>, req: TokenListReq, rank: Collation) returns (r: Result<TokenPage<Token>, QueryError>)
    requires 0 <= req.page < TWO64 && 0 <= req.pageSize < TWO64
    ensures r == if tokens.broken then Err(Unavailable)
                 else TokenPageOf(AskedList(tokens.rows, req, rank), req.page, req.pageSize)
  {
    var q := new Builder(tokens);
    var predicates := ListPredicates(req);
    q.Where(predicates);
    assert q.predicates == predicates && q.order == [];
    var total := CountClone(q);
    if total.Err? {
      return Err(total.error);
    }
    var page, pageSize := req.page, req.pageSize;
    if page == 0 {
      page := 1;
    }
    if pageSize == 0 {
      pageSize := DEFAULT_PAGE_SIZE;
    }
    var keys := ByChainThenToken(rank);
    ListingIsAskedList(tokens.rows, req, rank);
    assert [] + keys == keys;
    var list := ListPage(q, keys, page, pageSize);
    if list.Err? {
      return Err(list.error);
    }
    return Ok(TokenPage(total.value, list.value));
  }

  /**
   GetRelayTokenList; `toInfo` turns a row into a response message.  Page 0 is page 1 and size 0 is 100; the answer
   holds the requested rows of the listing, and its length.
   */
  method GetRelayTokenList<Info>(tokens: Table<Token>, req: TokenListReq, rank: Collation, toInfo: Token -> Info)
    returns (r: Result<TokenPage<Info>, QueryError>)
    requires 0 <= req.page < TWO64 && 0 <= req.pageSize < TWO64
    ensures tokens.broken ==> r == Err(Unavailable)
    ensures !tokens.broken ==>
              var page := TokenPageOf(AskedList(tokens.rows, req, rank), req.page, req.pageSize);
              r == if page.Err? then Err(page.error) else Ok(TokenPage(page.value.total, Mapped(toInfo, page.value.data)))
    ensures !tokens.broken && Injective(rank) && UniqueTokens(tokens.rows) ==>
              forall full :: IsListing(full, tokens.rows, req, rank) ==>
                var page, size := if req.page == 0 then 1 else req.page, if req.pageSize == 0 then 100 else req.pageSize;
                size < TWO63 && (page - 1) * size < TWO63 ==>
                  r == Ok(TokenPage(|full|, Mapped(toInfo, Slice(full, page, size))))
  {
    var page := QueryTokenPage(tokens, req, rank);
    if Injective(rank) && UniqueTokens(tokens.rows) {
      AnswersAreSlices(tokens.rows, req, rank);
    }
    if page.Err? {
      return Err(page.error);
    }
    var data := Convert(toInfo, page.value.data);
    return Ok(TokenPage(page.value.total, data));
  }

  /** The data of the answers for pages 1 to n, one after the other. */
  ghost function Answered(full: seq<Token>, pageSize: int, n: nat): seq<Token>
  {
    if n == 0 then []
    else
      Answered(full, pageSize, n - 1) + match TokenPageOf(full, n, pageSize) case Ok(page) => page.data case Err(_) => []
  }

  lemma {:induction false} AnsweredIsFirstPages(full: seq<Token>, pageSize: int, n: nat)
    ensures Answered(full, pageSize, n) == FirstPages(full, if pageSize == 0 then 100 else pageSize, n)
  {
    if n > 0 {
      AnsweredIsFirstPages(full, pageSize, n - 1);
    }
  }

  /** The answers for pages 1 to ceil(total / size) together are the whole listing, and each gives its length; size 0 stands for 100. */
  lemma {:induction false} TokenPagesPartition(full: seq<Token>, tokens: seq<Token>, req: TokenListReq, rank: Collation)
    requires Injective(rank) && UniqueTokens(tokens) && IsListing(full, tokens, req, rank)
    requires |tokens| < TWO63 && 0 <= req.pageSize < TWO63
    ensures var size := if req.pageSize == 0 then 100 else req.pageSize;
            var asked := AskedList(tokens, req, rank);
            && Answered(asked, req.pageSize, PageCount(|full|, size)) == full
            && (forall n :: 1 <= n <= PageCount(|full|, size) ==>
                  TokenPageOf(asked, n, req.pageSize).Ok? && TokenPageOf(asked, n, req.pageSize).value.total == |full|)
            && TokenPageOf(asked, 0, req.pageSize) == TokenPageOf(asked, 1, req.pageSize)
  {
    var size := if req.pageSize == 0 then 100 else req.pageSize;
    ListingUnique(tokens, req, rank);
    FilterKeeps(AskedBy(req), tokens);
    SortKeeps(ByChainThenToken(rank), Filter(AskedBy(req), tokens));
    PagesPartition(full, size);
    AnsweredIsFirstPages(full, req.pageSize, PageCount(|full|, size));
  }

  // ---------------------------------------------------------------- one token by its key

  function HasKey(chainId: int, tokenId: string): Predicate<Token>
  {
    (t: Token) => t.chainId == chainId && t.tokenId == tokenId
  }

  lemma {:induction false} KeyPredicates(ps: seq<Predicate<Token>>, tokens: seq<Token>, chainId: int, tokenId: string)
    requires |ps| == 2 && forall t :: (ps[0](t) <==> t.chainId == chainId) && (ps[1](t) <==> t.tokenId == tokenId)
    requires UniqueTokens(tokens)
    ensures |Matching(tokens, ps, [])| <= 1
    ensures forall t :: t in Matching(tokens, ps, []) <==> t in tokens && t.chainId == chainId && t.tokenId == tokenId
  {
    MatchingIs(tokens, ps, [], HasKey(chainId, tokenId));
    AtMostOne(tokens, chainId, tokenId);
  }

  /** The unique index leaves at most one candidate, so the lookup finds the token or reports that there is none. */
  method GetRelayTokenByChainAndId(tokens: Table<Token>, chainId: int, tokenId: string) returns (r: Result<Token, QueryError>)
    requires UniqueTokens(tokens.rows)
    ensures tokens.broken ==> r == Err(Unavailable)
    ensures !tokens.broken ==> forall t :: r == Ok(t) <==> t in tokens.rows && t.chainId == chainId && t.tokenId == tokenId
    ensures !tokens.broken && r.Err? ==> r == Err(NotFound)
  {
    var q := new Builder(tokens);
    var predicates: seq<Predicate<Token>> := [(t: Token) => t.chainId == chainId, (t: Token) => t.tokenId == tokenId];
    KeyPredicates(predicates, tokens.rows, chainId, tokenId);
    q.Where(predicates);
    assert q.predicates == predicates && q.order == [];
    ghost var found := q.Selected();
    r := q.Only();
    assert found[0..|found|] == found;
  }

  lemma {:induction false} AtMostOne(tokens: seq<Token>, chainId: int, tokenId: string)
    requires UniqueTokens(tokens)
    ensures |Sort([], Filter(HasKey(chainId, tokenId), tokens))| <= 1
    ensures forall t :: t in Sort([], Filter(HasKey(chainId, tokenId), tokens)) <==>
                        t in tokens && t.chainId == chainId && t.tokenId == tokenId
  {
    var found := Filter(HasKey(chainId, tokenId), tokens);
    FilterKeeps(HasKey(chainId, tokenId), tokens);
    SortKeeps([], found);
    FoundAtMostOnce(tokens, chainId, tokenId);
  }

  lemma {:induction false} FoundAtMostOnce(tokens: seq<Token>, chainId: int, tokenId: string)
    requires UniqueTokens(tokens)
    ensures |Filter(HasKey(chainId, tokenId), tokens)| <= 1
  {
    if tokens != [] {
      var rest := tokens[1..];
      FoundAtMostOnce(rest, chainId, tokenId);
      if HasKey(chainId, tokenId)(tokens[0]) {
        assert forall i :: 0 <= i < |rest| ==> rest[i] == tokens[i + 1];
        FilterNone(HasKey(chainId, tokenId), rest);
      }
    }
  }
}
