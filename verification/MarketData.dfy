/** Deriving a dollar price per token from pool spot prices (internal/marketdata/reader.go): stables at
    one dollar, then repeated passes over the pools until a pass prices nothing new. */
module MarketData {
  import opened Common
  import opened Text

  const USDE := "0x5d3a1ff2b6bab83b63cd9ad0787074081a52ef34"
  const USDC := "0x09bc4e0d864854c6afb6eb9a9cdf58ac190d0df9"
  const USDT := "0x201eba5cc46d216ce6dc03f6a759e8e766e956ae"

  datatype Pool = Pool(address: string, dex: string, token0: string, token1: string)

  /** Addresses are compared space-trimmed and lower-cased. */
  function Key(s: string): string {
    ToLower(TrimSpace(s))
  }

  predicate IsStable(token: string) {
    Key(token) in {USDE, USDC, USDT}
  }

  predicate IsPriceable(dex: string) {
    Key(dex) in {"agni", "fusionx", "merchant_moe"}
  }

  /** A pool that can carry a price across: two tokens, a supported dex, a good spot reading. `spots` holds the
      positive price each pool answers with; an address it lacks is a failed or unusable reading. */
  predicate Bridges(spots: map<string, real>, p: Pool) {
    IsPriceable(p.dex) && Key(p.address) in spots && Key(p.token0) != Key(p.token1)
  }

  // ---------- What a price means ----------

  /** A price carried across a pool: one token0 is worth `spot` token1. */
  function Across(price: real, spot: real, from0: bool): real
    requires spot > 0.0
  {
    if from0 then price / spot else price * spot
  }

  lemma AcrossIsPositive(price: real, spot: real, from0: bool)
    requires price > 0.0 && spot > 0.0
    ensures Across(price, spot, from0) > 0.0
  {
  }

  /** The two sides agree with the pool's reading, which is how much token1 one token0 is worth. */
  ghost predicate Balances(spots: map<string, real>, prices: map<string, real>, p: Pool) {
    && Key(p.token0) in prices && Key(p.token1) in prices && Key(p.address) in spots
    && prices[Key(p.token0)] == prices[Key(p.token1)] * spots[Key(p.address)]
  }

  /** Token t is a side of a pool that balances. */
  ghost predicate Backed(pools: seq<Pool>, spots: map<string, real>, prices: map<string, real>, t: string) {
    exists p <- pools :: Bridges(spots, p) && (t == Key(p.token0) || t == Key(p.token1)) && Balances(spots, prices, p)
  }

  ghost predicate Balanced(pools: seq<Pool>, spots: map<string, real>, prices: map<string, real>) {
    forall t <- prices | t !in {USDE, USDC, USDT} :: Backed(pools, spots, prices, t)
  }

  lemma AcrossBalances(price: real, spot: real)
    requires spot > 0.0
    ensures price == Across(price, spot, true) * spot && Across(price, spot, false) == price * spot
  {
  }

  lemma StaysBacked(pools: seq<Pool>, spots: map<string, real>, prices: map<string, real>, t: string, price: real,
      u: string)
    requires t !in prices && Backed(pools, spots, prices, u)
    ensures Backed(pools, spots, prices[t := price], u)
  {
    hide Key, Bridges;
    var q :| q in pools && Bridges(spots, q) && (u == Key(q.token0) || u == Key(q.token1))
             && Balances(spots, prices, q);
    assert Balances(spots, prices[t := price], q);
  }

  /** A new price that balances its pool leaves the others balanced. */
  lemma BalancedStep(pools: seq<Pool>, spots: map<string, real>, prices: map<string, real>, t: string, price: real,
      p: Pool)
    requires Balanced(pools, spots, prices) && t !in prices
    requires p in pools && Bridges(spots, p) && (t == Key(p.token0) || t == Key(p.token1))
    requires Balances(spots, prices[t := price], p)
    ensures Balanced(pools, spots, prices[t := price])
  {
    assert Backed(pools, spots, prices[t := price], t);
    hide Backed, Balances, Bridges, Key;
    var after := prices[t := price];
    forall u <- after | u !in {USDE, USDC, USDT}
      ensures Backed(pools, spots, after, u)
    {
      if u != t {
        StaysBacked(pools, spots, prices, t, price, u);
      }
    }
  }

  /** A chain of pools from a stable to a token. */
  datatype Route = Anchor(token: string) | Via(route: Route, pool: Pool) {
    /** The token it ends on: the other side of its last pool. */
    function End(): string {
      match this
      case Anchor(t) => t
      case Via(r, p) => if r.End() == Key(p.token0) then Key(p.token1) else Key(p.token0)
    }

    predicate Valid(pools: seq<Pool>, spots: map<string, real>) {
      match this
      case Anchor(t) => exists p <- pools :: (IsStable(p.token0) && Key(p.token0) == t)
                                             || (IsStable(p.token1) && Key(p.token1) == t)
      case Via(r, p) =>
        && r.Valid(pools, spots) && p in pools && Bridges(spots, p)
        && (r.End() == Key(p.token0) || r.End() == Key(p.token1))
    }

    /** The product of the spots along it. */
    function Price(spots: map<string, real>): real
      requires forall a <- spots :: spots[a] > 0.0
    {
      match this
      case Anchor(_) => 1.0
      case Via(r, p) =>
        if Key(p.address) !in spots then 0.0
        else Across(r.Price(spots), spots[Key(p.address)], r.End() == Key(p.token0))
    }
  }

  ghost predicate Reachable(pools: seq<Pool>, spots: map<string, real>, t: string) {
    exists r: Route :: r.Valid(pools, spots) && r.End() == t
  }

  ghost predicate PricedBy(pools: seq<Pool>, spots: map<string, real>, t: string, price: real)
    requires forall a <- spots :: spots[a] > 0.0
  {
    exists r: Route :: r.Valid(pools, spots) && r.End() == t && r.Price(spots) == price
  }

  lemma {:induction false} RoutePriceIsPositive(pools: seq<Pool>, spots: map<string, real>, r: Route)
    requires r.Valid(pools, spots) && forall a <- spots :: spots[a] > 0.0
    ensures r.Price(spots) > 0.0
  {
    hide Across;
    if r.Via? {
      RoutePriceIsPositive(pools, spots, r.route);
      AcrossIsPositive(r.route.Price(spots), spots[Key(r.pool.address)], r.route.End() == Key(r.pool.token0));
    }
  }

  // ---------- When the passes stop ----------

  /** No pool that could carry a price has exactly one side priced. */
  ghost predicate Fixpoint(pools: seq<Pool>, spots: map<string, real>, priced: set<string>) {
    forall p <- pools :: Bridges(spots, p) ==> (Key(p.token0) in priced <==> Key(p.token1) in priced)
  }

  ghost predicate Anchored(pools: seq<Pool>, priced: set<string>) {
    forall p <- pools ::
      && (IsStable(p.token0) ==> Key(p.token0) in priced)
      && (IsStable(p.token1) ==> Key(p.token1) in priced)
  }

  /** A fixpoint that holds the stables holds every token a route reaches. */
  lemma {:induction false} FixpointHoldsRoutes(pools: seq<Pool>, spots: map<string, real>, priced: set<string>,
      r: Route)
    requires Fixpoint(pools, spots, priced) && Anchored(pools, priced) && r.Valid(pools, spots)
    ensures r.End() in priced
  {
    if r.Via? {
      FixpointHoldsRoutes(pools, spots, priced, r.route);
    }
  }

  /** The pools with both sides priced: each productive step adds one, which bounds the passes. */
  function BothPriced(pools: seq<Pool>, priced: set<string>): set<nat> {
    set i: nat | i < |pools| && Key(pools[i].token0) in priced && Key(pools[i].token1) in priced
  }

  function UpTo(n: nat): (s: set<nat>)
    ensures |s| == n && forall i :: i in s <==> 0 <= i < n
  {
    if n == 0 then {} else UpTo(n - 1) + {n - 1}
  }

  lemma BothPricedAtMost(pools: seq<Pool>, priced: set<string>)
    ensures |BothPriced(pools, priced)| <= |pools|
  {
    SubsetSize(BothPriced(pools, priced), UpTo(|pools|));
  }

  lemma BothPricedGrows(pools: seq<Pool>, priced: set<string>, t: string, i: nat)
    requires i < |pools| && i !in BothPriced(pools, priced) && i in BothPriced(pools, priced + {t})
    ensures |BothPriced(pools, priced + {t})| > |BothPriced(pools, priced)|
  {
    SubsetSize(BothPriced(pools, priced) + {i}, BothPriced(pools, priced + {t}));
  }

  // ---------- The derivation ----------

  /** The cache of readings (none: a failed read) and the order the chain was asked in. */
  datatype Cache = Cache(known: map<string, seq<real>>, asked: seq<string>)

  predicate CacheOk(spots: map<string, real>, c: Cache) {
    && (forall a <- c.known :: c.known[a] == if a in spots then [spots[a]] else [])
    && (forall a <- c.known :: a in c.asked) && (forall a <- c.asked :: a in c.known)
    && (forall i, j | 0 <= i < j < |c.asked| :: c.asked[i] != c.asked[j])
  }

  method PoolSpot(address: string, spots: map<string, real>, cache: Cache) returns (price: seq<real>, after: Cache)
    requires CacheOk(spots, cache)
    ensures CacheOk(spots, after)
    ensures price == if Key(address) in spots then [spots[Key(address)]] else []
    ensures after == cache || (Key(address) !in cache.known && after.asked == cache.asked + [Key(address)])
  {
    var a := Key(address);
    if a in cache.known {
      return cache.known[a], cache;
    }
    price := if a in spots then [spots[a]] else [];
    after := Cache(cache.known[a := price], cache.asked + [a]);
  }

  method SeedStable(prices: map<string, real>, token: string) returns (after: map<string, real>)
    ensures after == if IsStable(token) then prices[Key(token) := 1.0] else prices
  {
    after := if IsStable(token) then prices[Key(token) := 1.0] else prices;
  }

  /** Everything priced so far has a route that explains it. */
  ghost predicate Explained(pools: seq<Pool>, spots: map<string, real>, prices: map<string, real>)
    requires forall a <- spots :: spots[a] > 0.0
  {
    forall t <- prices :: PricedBy(pools, spots, t, prices[t])
  }

  ghost predicate StablesAtOne(prices: map<string, real>) {
    forall t <- prices :: t in {USDE, USDC, USDT} ==> prices[t] == 1.0
  }

  method SeedAll(pools: seq<Pool>, spots: map<string, real>) returns (prices: map<string, real>)
    requires forall a <- spots :: spots[a] > 0.0
    ensures Anchored(pools, prices.Keys) && Explained(pools, spots, prices)
    ensures StablesAtOne(prices) && Balanced(pools, spots, prices)
  {
    prices := map[];
    for i := 0 to |pools|
      invariant Anchored(pools[..i], prices.Keys)
      invariant forall t <- prices :: t in {USDE, USDC, USDT}
      invariant forall t <- prices :: prices[t] == 1.0 && Anchor(t).Valid(pools, spots)
    {
      assert pools[..i + 1] == pools[..i] + [pools[i]];
      prices := SeedStable(prices, pools[i].token0);
      prices := SeedStable(prices, pools[i].token1);
    }
    assert pools[..|pools|] == pools;
    forall t <- prices
      ensures PricedBy(pools, spots, t, prices[t])
    {
      assert Anchor(t).End() == t && Anchor(t).Price(spots) == 1.0;
    }
  }

  /** A new token priced across one pool is explained by the route through that pool. */
  lemma ExplainedStep(pools: seq<Pool>, spots: map<string, real>, prices: map<string, real>, p: Pool, from: string)
    requires forall a <- spots :: spots[a] > 0.0
    requires Explained(pools, spots, prices) && p in pools && Bridges(spots, p) && from in prices
    requires from == Key(p.token0) || from == Key(p.token1)
    ensures var t := if from == Key(p.token0) then Key(p.token1) else Key(p.token0);
            Explained(pools, spots, prices[t := Across(prices[from], spots[Key(p.address)], from == Key(p.token0))])
  {
    hide Across, Key;
    assert PricedBy(pools, spots, from, prices[from]);
    var r: Route :| r.Valid(pools, spots) && r.End() == from && r.Price(spots) == prices[from];
    var via := Via(r, p);
    assert via.Valid(pools, spots);
    assert PricedBy(pools, spots, via.End(), via.Price(spots));
  }

  /** What a price carried across pool i does to the table. */
  function Carried(p: Pool, spots: map<string, real>, prices: map<string, real>): map<string, real>
    requires Key(p.address) in spots && spots[Key(p.address)] > 0.0
    requires Key(p.token0) in prices <==> Key(p.token1) !in prices
  {
    if Key(p.token0) in prices then
      prices[Key(p.token1) := Across(prices[Key(p.token0)], spots[Key(p.address)], true)]
    else prices[Key(p.token0) := Across(prices[Key(p.token1)], spots[Key(p.address)], false)]
  }

  lemma PriceStep(pools: seq<Pool>, i: nat, spots: map<string, real>, prices: map<string, real>)
    requires i < |pools| && (forall a <- spots :: spots[a] > 0.0) && Bridges(spots, pools[i])
    requires Explained(pools, spots, prices) && Anchored(pools, prices.Keys)
    requires StablesAtOne(prices) && Balanced(pools, spots, prices)
    requires Key(pools[i].token0) in prices <==> Key(pools[i].token1) !in prices
    ensures var after, p := Carried(pools[i], spots, prices), pools[i];
            && Explained(pools, spots, after) && Anchored(pools, after.Keys)
            && StablesAtOne(after) && Balanced(pools, spots, after) && Balances(spots, after, p)
            && prices.Keys <= after.Keys && (forall t <- prices :: after[t] == prices[t])
            && |BothPriced(pools, after.Keys)| > |BothPriced(pools, prices.Keys)|
  {
    hide Explained, Across, Balanced, Key;
    var p := pools[i];
    var from0 := Key(p.token0) in prices;
    var from, t := if from0 then Key(p.token0) else Key(p.token1), if from0 then Key(p.token1) else Key(p.token0);
    var after, spot := Carried(p, spots, prices), spots[Key(p.address)];
    ExplainedStep(pools, spots, prices, p, from);
    AcrossBalances(prices[from], spot);
    BalancedStep(pools, spots, prices, t, after[t], p);
    assert after.Keys == prices.Keys + {t};
    BothPricedGrows(pools, prices.Keys, t, i);
  }

  /** One pool's turn inside a pass. */
  method VisitPool(pools: seq<Pool>, i: nat, spots: map<string, real>, prices: map<string, real>, cache: Cache)
    returns (after: map<string, real>, cache': Cache, changed: bool)
    requires i < |pools| && (forall a <- spots :: spots[a] > 0.0)
    requires CacheOk(spots, cache) && Explained(pools, spots, prices) && Anchored(pools, prices.Keys)
    requires StablesAtOne(prices) && Balanced(pools, spots, prices)
    ensures CacheOk(spots, cache') && Explained(pools, spots, after) && Anchored(pools, after.Keys)
    ensures StablesAtOne(after) && Balanced(pools, spots, after)
    ensures prices.Keys <= after.Keys && forall t <- prices :: after[t] == prices[t]
    ensures changed ==> |BothPriced(pools, after.Keys)| > |BothPriced(pools, prices.Keys)|
    ensures changed ==>
              var t0, t1, a := Key(pools[i].token0), Key(pools[i].token1), Key(pools[i].address);
              t0 in after && t1 in after && a in spots && after[t0] == after[t1] * spots[a]
    ensures !changed ==> after == prices && (Bridges(spots, pools[i]) ==>
                           (Key(pools[i].token0) in prices <==> Key(pools[i].token1) in prices))
    ensures forall a <- cache'.asked :: a in cache.asked || (IsPriceable(pools[i].dex) && a == Key(pools[i].address))
  {
    hide Key, Explained, Across, Balanced, Anchored, StablesAtOne, BothPriced;
    var p := pools[i];
    after, cache', changed := prices, cache, false;
    if !IsPriceable(p.dex) {
      return;
    }
    var t0, t1 := Key(p.token0), Key(p.token1);
    if (t0 in prices) == (t1 in prices) {
      return;
    }
    var spot;
    spot, cache' := PoolSpot(p.address, spots, cache);
    if spot == [] {
      return;
    }
    PriceStep(pools, i, spots, prices);
    if t0 in prices {
      after := prices[t1 := Across(prices[t0], spot[0], true)];
    } else {
      after := prices[t0 := Across(prices[t1], spot[0], false)];
    }
    changed := true;
  }

  /** The whole derivation. It ends on a pass that changed nothing, within |pools| + 1 passes; the
      tokens priced are exactly those a route from a stable reaches; every price is the product of
      spots along such a route; stables stay at 1, and every other priced token has a pool whose spot
      is what one of its token0 is worth in its token1; no pool is asked twice. */
  method DerivePrices(pools: seq<Pool>, spots: map<string, real>)
    returns (prices: map<string, real>, asked: seq<string>, passes: nat)
    requires forall a <- spots :: spots[a] > 0.0
    ensures forall t :: t in prices <==> Reachable(pools, spots, t)
    ensures forall t <- prices :: PricedBy(pools, spots, t, prices[t])
    ensures forall t <- prices :: t in {USDE, USDC, USDT} ==> prices[t] == 1.0
    ensures Balanced(pools, spots, prices)
    ensures Fixpoint(pools, spots, prices.Keys)
    ensures forall i, j | 0 <= i < j < |asked| :: asked[i] != asked[j]
    ensures forall a <- asked :: exists p <- pools :: IsPriceable(p.dex) && a == Key(p.address)
    ensures passes <= |pools| + 1
  {
    hide Key, Explained, Anchored, Fixpoint, Balanced, IsPriceable, Bridges, BothPriced, Reachable, PricedBy;
    prices := SeedAll(pools, spots);
    var cache := Cache(map[], []);
    NothingAsked(spots);
    passes := 0;
    var changed := true;
    while passes <= |pools| && changed
      invariant CacheOk(spots, cache) && Explained(pools, spots, prices) && Anchored(pools, prices.Keys)
      invariant StablesAtOne(prices) && Balanced(pools, spots, prices)
      invariant passes <= |pools| + 1
      invariant changed ==> |BothPriced(pools, prices.Keys)| >= passes
      invariant !changed ==> Fixpoint(pools, spots, prices.Keys)
      invariant forall a <- cache.asked :: exists p <- pools :: IsPriceable(p.dex) && a == Key(p.address)
      decreases |pools| + 1 - passes
    {
      ghost var before := |BothPriced(pools, prices.Keys)|;
      prices, cache, changed := OnePass(pools, spots, prices, cache);
      passes := passes + 1;
    }
    BothPricedAtMost(pools, prices.Keys);
    asked := cache.asked;
    PricedIffReached(pools, spots, prices);
  }

  lemma NothingAsked(spots: map<string, real>)
    ensures CacheOk(spots, Cache(map[], []))
  {
  }

  lemma PricedIffReached(pools: seq<Pool>, spots: map<string, real>, prices: map<string, real>)
    requires forall a <- spots :: spots[a] > 0.0
    requires Explained(pools, spots, prices) && Anchored(pools, prices.Keys) && Fixpoint(pools, spots, prices.Keys)
    ensures forall t :: t in prices <==> Reachable(pools, spots, t)
    ensures forall t <- prices :: PricedBy(pools, spots, t, prices[t])
  {
    hide Anchored, Fixpoint;
    forall t
      ensures t in prices <==> Reachable(pools, spots, t)
    {
      if t in prices {
        assert PricedBy(pools, spots, t, prices[t]);
      }
      forall r: Route | r.Valid(pools, spots) && r.End() == t
        ensures t in prices
      {
        FixpointHoldsRoutes(pools, spots, prices.Keys, r);
      }
    }
  }

  /** One pass over all the pools. */
  method OnePass(pools: seq<Pool>, spots: map<string, real>, prices0: map<string, real>, cache0: Cache)
    returns (prices: map<string, real>, cache: Cache, changed: bool)
    requires forall a <- spots :: spots[a] > 0.0
    requires CacheOk(spots, cache0) && Explained(pools, spots, prices0) && Anchored(pools, prices0.Keys)
    requires StablesAtOne(prices0) && Balanced(pools, spots, prices0)
    requires forall a <- cache0.asked :: exists p <- pools :: IsPriceable(p.dex) && a == Key(p.address)
    ensures CacheOk(spots, cache) && Explained(pools, spots, prices) && Anchored(pools, prices.Keys)
    ensures StablesAtOne(prices) && Balanced(pools, spots, prices)
    ensures forall a <- cache.asked :: exists p <- pools :: IsPriceable(p.dex) && a == Key(p.address)
    ensures prices0.Keys <= prices.Keys && forall t <- prices0 :: prices[t] == prices0[t]
    ensures changed ==> |BothPriced(pools, prices.Keys)| > |BothPriced(pools, prices0.Keys)|
    ensures !changed ==> prices == prices0 && Fixpoint(pools, spots, prices.Keys)
  {
    hide Key, Explained, IsPriceable, BothPriced, StablesAtOne, Anchored, CacheOk, Balanced;
    prices, cache, changed := prices0, cache0, false;
    for i := 0 to |pools|
      invariant CacheOk(spots, cache) && Explained(pools, spots, prices) && Anchored(pools, prices.Keys)
      invariant StablesAtOne(prices) && Balanced(pools, spots, prices)
      invariant forall a <- cache.asked :: exists p <- pools :: IsPriceable(p.dex) && a == Key(p.address)
      invariant prices0.Keys <= prices.Keys && forall t <- prices0 :: prices[t] == prices0[t]
      invariant changed ==> |BothPriced(pools, prices.Keys)| > |BothPriced(pools, prices0.Keys)|
      invariant !changed ==> prices == prices0
      invariant !changed ==> forall j | 0 <= j < i ::
                  Bridges(spots, pools[j]) ==> (Key(pools[j].token0) in prices <==> Key(pools[j].token1) in prices)
    {
      var c;
      prices, cache, c := VisitPool(pools, i, spots, prices, cache);
      changed := changed || c;
    }
  }

  // ---------- The order of the pools ----------

  lemma {:induction false} RouteAnyOrder(a: seq<Pool>, b: seq<Pool>, spots: map<string, real>, r: Route)
    requires forall p :: p in a ==> p in b
    requires r.Valid(a, spots)
    ensures r.Valid(b, spots)
  {
    if r.Via? {
      RouteAnyOrder(a, b, spots, r.route);
    } else {
      var p :| p in a
          && ((IsStable(p.token0) && Key(p.token0) == r.token) || (IsStable(p.token1) && Key(p.token1) == r.token));
      assert p in b;
    }
  }

  /** Which tokens get a price does not depend on the order (or repetition) of the pools. */
  lemma PricedTokensAnyOrder(a: seq<Pool>, b: seq<Pool>, spots: map<string, real>, t: string)
    requires forall p :: p in a <==> p in b
    ensures Reachable(a, spots, t) <==> Reachable(b, spots, t)
  {
    forall r: Route | r.End() == t
      ensures r.Valid(a, spots) <==> r.Valid(b, spots)
    {
      if r.Valid(a, spots) { RouteAnyOrder(a, b, spots, r); }
      if r.Valid(b, spots) { RouteAnyOrder(b, a, spots, r); }
    }
  }

  /** Whichever way one goes from a stable to a token, the product of spots is the same. */
  ghost predicate ArbitrageFree(pools: seq<Pool>, spots: map<string, real>)
    requires forall a <- spots :: spots[a] > 0.0
  {
    forall r: Route, q: Route | r.Valid(pools, spots) && q.Valid(pools, spots) && r.End() == q.End() ::
      r.Price(spots) == q.Price(spots)
  }

  /** Without arbitrage the prices themselves do not depend on the order of the pools either. */
  lemma PricesAnyOrder(a: seq<Pool>, b: seq<Pool>, spots: map<string, real>, t: string, p: real, q: real)
    requires forall s <- spots :: spots[s] > 0.0
    requires (forall x :: x in a <==> x in b) && ArbitrageFree(a, spots)
    requires PricedBy(a, spots, t, p) && PricedBy(b, spots, t, q)
    ensures p == q
  {
    var r: Route :| r.Valid(a, spots) && r.End() == t && r.Price(spots) == p;
    var s: Route :| s.Valid(b, spots) && s.End() == t && s.Price(spots) == q;
    RouteAnyOrder(b, a, spots, s);
  }
}
