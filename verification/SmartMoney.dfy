/** Net against gross flow of an actor's swaps (internal/detect/smartmoney.go, internal/store/queries.go). */
module SmartMoney {
  import opened Common
  import opened RobustStats

  /** A row of the large_swaps ledger; amounts are signed for the actor, None is NULL. */
  datatype LargeSwap = LargeSwap(pool: string, actor: string, net0: Option<real>, net1: Option<real>, time: int)

  datatype Pool = Pool(token0: string, token1: string)

  type Pools = map<string, Pool>

  datatype Leg = Leg(token: string, net: real)

  datatype TokenFlow = TokenFlow(token: string, net: real, gross: real)

  // ---------- The unpivoted ledger ----------

  function OrZero(x: Option<real>): real {
    if x.Some? then x.value else 0.0
  }

  /** The two legs of one swap of the actor in the window, if its pool is registered. */
  function LegsOf(s: LargeSwap, pools: Pools, actor: string, since: int): seq<Leg> {
    if s.actor != actor || s.time < since || s.pool !in pools then []
    else [Leg(pools[s.pool].token0, OrZero(s.net0)), Leg(pools[s.pool].token1, OrZero(s.net1))]
  }

  function Legs(ledger: seq<LargeSwap>, pools: Pools, actor: string, since: int): seq<Leg> {
    if ledger == [] then [] else LegsOf(ledger[0], pools, actor, since) + Legs(ledger[1..], pools, actor, since)
  }

  function Part(l: Leg, token: string): real {
    if l.token == token then l.net else 0.0
  }

  function Net(legs: seq<Leg>, token: string): real {
    if legs == [] then 0.0 else Part(legs[0], token) + Net(legs[1..], token)
  }

  function Gross(legs: seq<Leg>, token: string): real {
    if legs == [] then 0.0 else Abs(Part(legs[0], token)) + Gross(legs[1..], token)
  }

  /** What the grouped query may answer: one row per token with a leg, in any order. */
  ghost predicate IsGroupBy(flows: seq<TokenFlow>, legs: seq<Leg>) {
    && (forall i | 0 <= i < |flows| :: FlowOk(flows[i], legs))
    && (forall i, j | 0 <= i < j < |flows| :: flows[i].token != flows[j].token)
    && (forall k | 0 <= k < |legs| :: exists i | 0 <= i < |flows| :: flows[i].token == legs[k].token)
  }

  ghost predicate FlowOk(f: TokenFlow, legs: seq<Leg>) {
    && f.net == Net(legs, f.token) && f.gross == Gross(legs, f.token)
    && exists k | 0 <= k < |legs| :: legs[k].token == f.token
  }

  // ---------- What one swap moves ----------

  /** The amount, with NULL as zero. */
  function Amount(x: Option<real>): real {
    match x
    case Some(v) => v
    case None => 0.0
  }

  /** One more swap moves its pool's token0 by net0 and its token1 by net1, and no other token; a swap of another actor,
      from before the window or of an unregistered pool moves nothing. */
  lemma SwapMoves(ledger: seq<LargeSwap>, s: LargeSwap, pools: Pools, actor: string, since: int, token: string)
    ensures var before, after := Legs(ledger, pools, actor, since), Legs(ledger + [s], pools, actor, since);
            if s.actor == actor && s.time >= since && s.pool in pools then
              var a := if token == pools[s.pool].token0 then Amount(s.net0) else 0.0;
              var b := if token == pools[s.pool].token1 then Amount(s.net1) else 0.0;
              && Net(after, token) == Net(before, token) + a + b
              && Gross(after, token) == Gross(before, token) + (if a < 0.0 then -a else a) + if b < 0.0 then -b else b
            else after == before
  {
    hide Net, Gross, Legs;
    LegsAppend(ledger, [s], pools, actor, since);
    OneSwap(s, pools, actor, since);
    var legs := LegsOf(s, pools, actor, since);
    AppendSums(Legs(ledger, pools, actor, since), legs, token);
    if legs != [] {
      PairSums(legs[0], legs[1], token);
    } else {
      assert Legs(ledger, pools, actor, since) + [] == Legs(ledger, pools, actor, since);
    }
  }

  lemma OneSwap(s: LargeSwap, pools: Pools, actor: string, since: int)
    ensures Legs([s], pools, actor, since) == LegsOf(s, pools, actor, since)
  {
    assert [s][1..] == [] && LegsOf(s, pools, actor, since) + [] == LegsOf(s, pools, actor, since);
  }

  // ---------- Directionality ----------

  function Clamp01(x: real): real {
    if x < 0.0 then 0.0 else if x > 1.0 then 1.0 else x
  }

  /** The share of a token's flow that does not cancel; 0 without flow. */
  function Ratio(net: real, gross: real): real {
    if gross <= 0.0 then 0.0 else Abs(net) / gross
  }

  /** The largest ratio among the first n rows, at least 0. */
  function BestRatio(flows: seq<TokenFlow>, n: nat): real
    requires n <= |flows|
  {
    if n == 0 then 0.0
    else
      var best, r := BestRatio(flows, n - 1), Ratio(flows[n - 1].net, flows[n - 1].gross);
      if r > best then r else best
  }

  function Directionality(flows: seq<TokenFlow>): real {
    Clamp01(BestRatio(flows, |flows|))
  }

  method ActorDirectionality(flows: seq<TokenFlow>) returns (d: real)
    ensures d == Directionality(flows)
  {
    var best := 0.0;
    for i := 0 to |flows|
      invariant best == BestRatio(flows, i) && best >= 0.0
    {
      var f := flows[i];
      if f.gross <= 0.0 {
        continue;
      }
      var ratio := (if f.net < 0.0 then -f.net else f.net) / f.gross;
      if ratio > best {
        best := ratio;
      }
    }
    return Clamp01(best);
  }

  // ---------- Net against gross ----------

  predicate AllAtLeastZero(legs: seq<Leg>, token: string) {
    forall k | 0 <= k < |legs| :: Part(legs[k], token) >= 0.0
  }

  predicate AllAtMostZero(legs: seq<Leg>, token: string) {
    forall k | 0 <= k < |legs| :: Part(legs[k], token) <= 0.0
  }

  /** No two of the token's legs have opposite signs. */
  predicate OneSided(legs: seq<Leg>, token: string) {
    AllAtLeastZero(legs, token) || AllAtMostZero(legs, token)
  }

  lemma {:induction false} NetIsGrossIff(legs: seq<Leg>, token: string)
    ensures -Gross(legs, token) <= Net(legs, token) <= Gross(legs, token)
    ensures Net(legs, token) == Gross(legs, token) <==> AllAtLeastZero(legs, token)
    ensures Net(legs, token) == -Gross(legs, token) <==> AllAtMostZero(legs, token)
  {
    hide Part;
    if legs != [] {
      NetIsGrossIff(legs[1..], token);
      assert legs == [legs[0]] + legs[1..];
      assert AllAtLeastZero(legs, token) <==> Part(legs[0], token) >= 0.0 && AllAtLeastZero(legs[1..], token);
      assert AllAtMostZero(legs, token) <==> Part(legs[0], token) <= 0.0 && AllAtMostZero(legs[1..], token);
    }
  }

  /** The token moved at all. */
  predicate Traded(legs: seq<Leg>, token: string) {
    Gross(legs, token) > 0.0
  }

  lemma RatioMeans(legs: seq<Leg>, token: string)
    ensures var r := Ratio(Net(legs, token), Gross(legs, token));
            && 0.0 <= r <= 1.0
            && (r == 1.0 <==> Traded(legs, token) && OneSided(legs, token))
            && (r == 0.0 <==> Net(legs, token) == 0.0)
  {
    hide Net, Gross, AllAtLeastZero, AllAtMostZero;
    NetIsGrossIff(legs, token);
    var g := Gross(legs, token);
    if g > 0.0 {
      Quotient(Abs(Net(legs, token)), g);
    }
  }

  lemma Quotient(a: real, g: real)
    requires 0.0 <= a <= g && g > 0.0
    ensures 0.0 <= a / g <= 1.0 && (a / g == 1.0 <==> a == g) && (a / g == 0.0 <==> a == 0.0)
  {
  }

  /** An untraded token has no legs with flow, so a token outside the ledger never matters. */
  lemma {:induction false} TradedHasLeg(legs: seq<Leg>, token: string)
    ensures Traded(legs, token) || Net(legs, token) != 0.0 ==> exists k | 0 <= k < |legs| :: legs[k].token == token
  {
    if legs != [] {
      TradedHasLeg(legs[1..], token);
      if legs[0].token != token && exists k | 0 <= k < |legs| - 1 :: legs[1..][k].token == token {
        var k :| 0 <= k < |legs| - 1 && legs[1..][k].token == token;
        assert legs[k + 1].token == token;
      }
      assert legs[0].token == token || (Part(legs[0], token) == 0.0 && Abs(Part(legs[0], token)) == 0.0);
    }
  }

  lemma {:induction false} BestIsLargest(flows: seq<TokenFlow>, n: nat)
    requires n <= |flows|
    ensures forall i | 0 <= i < n :: Ratio(flows[i].net, flows[i].gross) <= BestRatio(flows, n)
    ensures BestRatio(flows, n) == 0.0
            || exists i | 0 <= i < n :: Ratio(flows[i].net, flows[i].gross) == BestRatio(flows, n)
    ensures BestRatio(flows, n) >= 0.0
  {
    hide Ratio;
    if n > 0 {
      BestIsLargest(flows, n - 1);
    }
  }

  /** d is the largest share over all tokens, whatever order the rows come in. */
  ghost predicate IsLargestShare(legs: seq<Leg>, d: real) {
    && (forall token: string :: Ratio(Net(legs, token), Gross(legs, token)) <= d)
    && (d == 0.0 || exists token: string :: Ratio(Net(legs, token), Gross(legs, token)) == d)
  }

  lemma BestIsShare(flows: seq<TokenFlow>, legs: seq<Leg>)
    requires IsGroupBy(flows, legs)
    ensures IsLargestShare(legs, BestRatio(flows, |flows|)) && 0.0 <= BestRatio(flows, |flows|) <= 1.0
  {
    hide Ratio, Net, Gross;
    var best := BestRatio(flows, |flows|);
    BestIsLargest(flows, |flows|);
    forall token: string
      ensures Ratio(Net(legs, token), Gross(legs, token)) <= best
    {
      ShareIsBounded(flows, legs, token, best);
    }
    if best != 0.0 {
      var i :| 0 <= i < |flows| && Ratio(flows[i].net, flows[i].gross) == best;
      assert FlowOk(flows[i], legs);
      RatioMeans(legs, flows[i].token);
    }
  }

  lemma ShareIsBounded(flows: seq<TokenFlow>, legs: seq<Leg>, token: string, best: real)
    requires IsGroupBy(flows, legs) && best >= 0.0
    requires forall i | 0 <= i < |flows| :: Ratio(flows[i].net, flows[i].gross) <= best
    ensures Ratio(Net(legs, token), Gross(legs, token)) <= best
  {
    hide Ratio, Net, Gross;
    RatioMeans(legs, token);
    TradedHasLeg(legs, token);
    if Ratio(Net(legs, token), Gross(legs, token)) > 0.0 {
      var k :| 0 <= k < |legs| && legs[k].token == token;
      var i :| 0 <= i < |flows| && flows[i].token == legs[k].token;
      assert FlowOk(flows[i], legs);
    }
  }

  /** Directionality, from any answer of the query: between 0 and 1 without the clamp; 1 exactly when some traded
      token's legs all have one sign; 0 exactly when every token's legs cancel. */
  lemma DirectionalityMeans(flows: seq<TokenFlow>, legs: seq<Leg>)
    requires IsGroupBy(flows, legs)
    ensures var d := Directionality(flows);
            && d == BestRatio(flows, |flows|) && 0.0 <= d <= 1.0
            && (d == 1.0 <==> exists token: string :: Traded(legs, token) && OneSided(legs, token))
            && (d == 0.0 <==> forall token: string :: Net(legs, token) == 0.0)
  {
    hide Ratio, Net, Gross, Traded, OneSided, IsGroupBy;
    BestIsShare(flows, legs);
    var d := BestRatio(flows, |flows|);
    forall token: string
      ensures d == 1.0 || !(Traded(legs, token) && OneSided(legs, token))
      ensures d == 0.0 ==> Net(legs, token) == 0.0
    {
      RatioMeans(legs, token);
      assert Ratio(Net(legs, token), Gross(legs, token)) <= d;
    }
    if d != 0.0 {
      var token: string :| Ratio(Net(legs, token), Gross(legs, token)) == d;
      RatioMeans(legs, token);
    }
  }

  // ---------- Order ----------

  lemma {:induction false} SumsWithout(legs: seq<Leg>, j: nat, token: string)
    requires j < |legs|
    ensures Net(legs, token) == Part(legs[j], token) + Net(Without(legs, j), token)
    ensures Gross(legs, token) == Abs(Part(legs[j], token)) + Gross(Without(legs, j), token)
  {
    hide Part, Abs;
    if j == 0 {
      assert Without(legs, 0) == legs[1..];
    } else {
      SumsWithout(legs[1..], j - 1, token);
      assert Without(legs, j)[1..] == Without(legs[1..], j - 1);
      assert Without(legs, j)[0] == legs[0];
    }
  }

  lemma {:induction false} SumsAnyOrder(a: seq<Leg>, b: seq<Leg>, token: string)
    requires multiset(a) == multiset(b)
    ensures Net(a, token) == Net(b, token) && Gross(a, token) == Gross(b, token)
    decreases |a|
  {
    hide Part, Abs, Net, Gross;
    assert |a| == |multiset(a)| == |multiset(b)| == |b|;
    if a != [] {
      assert a[0] in multiset(b);
      var j :| 0 <= j < |b| && b[j] == a[0];
      WithoutOne(a, 0);
      WithoutOne(b, j);
      SumsAnyOrder(Without(a, 0), Without(b, j), token);
      SumsWithout(a, 0, token);
      SumsWithout(b, j, token);
    } else {
      assert a == b;
    }
  }

  lemma {:induction false} LegsWithout(s: seq<LargeSwap>, j: nat, pools: Pools, actor: string, since: int)
    requires j < |s|
    ensures multiset(Legs(s, pools, actor, since))
         == multiset(LegsOf(s[j], pools, actor, since)) + multiset(Legs(Without(s, j), pools, actor, since))
  {
    hide LegsOf;
    if j == 0 {
      assert Without(s, 0) == s[1..];
    } else {
      LegsWithout(s[1..], j - 1, pools, actor, since);
      assert Without(s, j)[1..] == Without(s[1..], j - 1);
      assert Without(s, j)[0] == s[0];
    }
  }

  lemma {:induction false} LegsAnyOrder(a: seq<LargeSwap>, b: seq<LargeSwap>, pools: Pools, actor: string, since: int)
    requires multiset(a) == multiset(b)
    ensures multiset(Legs(a, pools, actor, since)) == multiset(Legs(b, pools, actor, since))
    decreases |a|
  {
    hide LegsOf, Legs;
    assert |a| == |multiset(a)| == |multiset(b)| == |b|;
    if a != [] {
      assert a[0] in multiset(b);
      var j :| 0 <= j < |b| && b[j] == a[0];
      WithoutOne(a, 0);
      WithoutOne(b, j);
      LegsAnyOrder(Without(a, 0), Without(b, j), pools, actor, since);
      LegsWithout(a, 0, pools, actor, since);
      LegsWithout(b, j, pools, actor, since);
    } else {
      assert a == b;
    }
  }

  lemma OneLargestShare(a: seq<Leg>, b: seq<Leg>, x: real, y: real)
    requires multiset(a) == multiset(b) && IsLargestShare(a, x) && IsLargestShare(b, y) && x >= 0.0 && y >= 0.0
    ensures x == y
  {
    hide Ratio, Net, Gross;
    forall token: string
      ensures Ratio(Net(a, token), Gross(a, token)) == Ratio(Net(b, token), Gross(b, token))
    {
      SumsAnyOrder(a, b, token);
    }
  }

  /** Neither the order of the swaps nor the order of the query's rows shows in the result. */
  lemma DirectionalityAnyOrder(a: seq<LargeSwap>, b: seq<LargeSwap>, pools: Pools, actor: string, since: int,
                               x: seq<TokenFlow>, y: seq<TokenFlow>)
    requires multiset(a) == multiset(b)
    requires IsGroupBy(x, Legs(a, pools, actor, since)) && IsGroupBy(y, Legs(b, pools, actor, since))
    ensures Directionality(x) == Directionality(y)
  {
    hide IsGroupBy, Legs, IsLargestShare;
    LegsAnyOrder(a, b, pools, actor, since);
    BestIsShare(x, Legs(a, pools, actor, since));
    BestIsShare(y, Legs(b, pools, actor, since));
    OneLargestShare(Legs(a, pools, actor, since), Legs(b, pools, actor, since), BestRatio(x, |x|), BestRatio(y, |y|));
  }

  // ---------- Round trips across pools ----------

  lemma {:induction false} AppendSums(a: seq<Leg>, b: seq<Leg>, token: string)
    ensures Net(a + b, token) == Net(a, token) + Net(b, token)
    ensures Gross(a + b, token) == Gross(a, token) + Gross(b, token)
  {
    hide Part, Abs;
    if a == [] {
      assert a + b == b;
    } else {
      assert (a + b)[1..] == a[1..] + b;
      AppendSums(a[1..], b, token);
    }
  }

  lemma {:induction false} LegsAppend(a: seq<LargeSwap>, b: seq<LargeSwap>, pools: Pools, actor: string, since: int)
    ensures Legs(a + b, pools, actor, since) == Legs(a, pools, actor, since) + Legs(b, pools, actor, since)
  {
    hide LegsOf;
    if a == [] {
      assert a + b == b;
    } else {
      assert (a + b)[1..] == a[1..] + b;
      LegsAppend(a[1..], b, pools, actor, since);
    }
  }

  /** The second swap gives back what the first one took and takes what it gave, through whatever registered pools, with
      the two tokens in either pair of slots. */
  predicate Undoes(out: LargeSwap, back: LargeSwap, pools: Pools)
    requires out.pool in pools && back.pool in pools
  {
    var p, q := pools[out.pool], pools[back.pool];
    || (q.token0 == p.token0 && q.token1 == p.token1
        && OrZero(back.net0) == -OrZero(out.net0) && OrZero(back.net1) == -OrZero(out.net1))
    || (q.token0 == p.token1 && q.token1 == p.token0
        && OrZero(back.net0) == -OrZero(out.net1) && OrZero(back.net1) == -OrZero(out.net0))
  }

  lemma PairSums(x: Leg, y: Leg, token: string)
    ensures Net([x, y], token) == Part(x, token) + Part(y, token)
    ensures Gross([x, y], token) == Abs(Part(x, token)) + Abs(Part(y, token))
  {
    assert [x, y][1..] == [y] && [y][1..] == [];
    assert Net([y], token) == Part(y, token) && Gross([y], token) == Abs(Part(y, token));
  }

  /** A whole round trip restores the net of every token and lowers no gross. */
  lemma RoundTripCancels(ledger: seq<LargeSwap>, out: LargeSwap, back: LargeSwap, pools: Pools, actor: string,
                         since: int, token: string)
    requires out.actor == back.actor == actor && out.time >= since && back.time >= since
    requires out.pool in pools && back.pool in pools && Undoes(out, back, pools)
    ensures var before, after := Legs(ledger, pools, actor, since), Legs(ledger + [out, back], pools, actor, since);
            Net(after, token) == Net(before, token) && Gross(after, token) >= Gross(before, token)
  {
    hide Net, Gross, Legs;
    var a, b := LegsOf(out, pools, actor, since), LegsOf(back, pools, actor, since);
    TwoSwaps(out, back, pools, actor, since);
    LegsAppend(ledger, [out, back], pools, actor, since);
    AppendSums(Legs(ledger, pools, actor, since), a + b, token);
    AppendSums(a, b, token);
    PairSums(a[0], a[1], token);
    PairSums(b[0], b[1], token);
  }

  lemma TwoSwaps(out: LargeSwap, back: LargeSwap, pools: Pools, actor: string, since: int)
    ensures Legs([out, back], pools, actor, since)
            == LegsOf(out, pools, actor, since) + LegsOf(back, pools, actor, since)
  {
    hide LegsOf;
    assert [out, back][1..] == [back] && [back][1..] == [];
    assert Legs([back], pools, actor, since) == LegsOf(back, pools, actor, since);
  }

  lemma LargerGross(n: real, g: real, g': real)
    requires -g <= n <= g && g <= g'
    ensures Ratio(n, g') <= Ratio(n, g)
  {
    if g > 0.0 {
      var r := Abs(n) / g;
      assert r * g == Abs(n) && r >= 0.0;
      assert r * g' >= r * g by {
        assert r * (g' - g) >= 0.0;
      }
      assert Abs(n) / g' * g' == Abs(n);
      TimesIsOrdered(g', Abs(n) / g', r);
    }
  }

  /** So churning never makes an actor look more directional. */
  lemma RoundTripNeverRaises(ledger: seq<LargeSwap>, out: LargeSwap, back: LargeSwap, pools: Pools, actor: string,
                             since: int, x: seq<TokenFlow>, y: seq<TokenFlow>)
    requires out.actor == back.actor == actor && out.time >= since && back.time >= since
    requires out.pool in pools && back.pool in pools && Undoes(out, back, pools)
    requires IsGroupBy(x, Legs(ledger, pools, actor, since))
            && IsGroupBy(y, Legs(ledger + [out, back], pools, actor, since))
    ensures Directionality(y) <= Directionality(x)
  {
    hide IsGroupBy, Legs, Net, Gross, Ratio, Undoes;
    var before, after := Legs(ledger, pools, actor, since), Legs(ledger + [out, back], pools, actor, since);
    BestIsShare(x, before);
    BestIsShare(y, after);
    var d := BestRatio(y, |y|);
    if d != 0.0 {
      var token: string :| Ratio(Net(after, token), Gross(after, token)) == d;
      RoundTripCancels(ledger, out, back, pools, actor, since, token);
      NetIsGrossIff(before, token);
      LargerGross(Net(before, token), Gross(before, token), Gross(after, token));
      assert Ratio(Net(before, token), Gross(before, token)) <= BestRatio(x, |x|);
    }
  }
}
