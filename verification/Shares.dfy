/** Requests served one after the other: the shares that clusters and endpoints get. */
module Shares {
  import opened Wrappers
  import opened Config
  import opened Tickets
  import opened Picker
  import opened Forwarding

  // ---------- sequential requests ----------

  function Serve(cfg: RuntimeConfig, inputs: seq<MatchInput>, c: u64): seq<Decision>
    decreases |inputs|
  {
    if inputs == [] then [] else
      var (d, c') := Decide(cfg, inputs[0], c);
      [d] + Serve(cfg, inputs[1..], c')
  }

  function CountPick(ds: seq<Decision>, i: nat): nat {
    if ds == [] then 0 else (if ds[0].Dispatch? && ds[0].pick == i then 1 else 0) + CountPick(ds[1..], i)
  }

  function CountSlot(ds: seq<Decision>, j: nat): nat {
    if ds == [] then 0 else (if ds[0].Dispatch? && ds[0].slot == j then 1 else 0) + CountSlot(ds[1..], j)
  }

  ghost predicate HasHealthy(cfg: RuntimeConfig, name: string) {
    var cluster := FindCluster(cfg.clusters, name);
    cluster.Some? && CountHealthy(cluster.value.endpoints) > 0
  }

  /**
   All requests take one route, whose weights are not all zero and do not overflow; clusters with a weight can serve.
   */
  ghost predicate Steady(cfg: RuntimeConfig, route: Route, inputs: seq<MatchInput>) {
    && (forall k | 0 <= k < |inputs| :: RouteFor(cfg, HTTP_LISTENER_PORT, inputs[k]) == Some(route))
    && 0 < Sum(route.weightedClusters) < U32
    && forall k | 0 <= k < |route.weightedClusters| && route.weightedClusters[k].weight > 0 ::
         HasHealthy(cfg, route.weightedClusters[k].name)
  }

  lemma {:induction false} FirstTicket(cfg: RuntimeConfig, route: Route, input: MatchInput, c: u64)
    requires Steady(cfg, route, [input])
    ensures var ws, (choice, c') := route.weightedClusters, ChooseCluster(cfg, input, c);
      && choice.Chosen? && c' == Advance(c) && choice.pick < |ws|
      && FindFrom(ws, Rem(c % U32, Sum(ws)), 0) == Some(choice.pick)
      && FindCluster(cfg.clusters, ws[choice.pick].name) == Some(choice.cluster)
      && CountHealthy(choice.cluster.endpoints) > 0
  {
    var ws := route.weightedClusters;
    assert RouteFor(cfg, HTTP_LISTENER_PORT, [input][0]) == Some(route);
    NoWrap(ws);
    FindIsTotal(ws, Rem(c % U32, Sum(ws)));
    var k := FindFrom(ws, Rem(c % U32, Sum(ws)), 0).value;
    assert HasHealthy(cfg, ws[k].name);
  }

  lemma {:induction false} SecondTicket(choice: Choice, c: u64)
    requires choice.Chosen? && CountHealthy(choice.cluster.endpoints) > 0
    ensures var (d, c') := ChooseEndpoint(choice, c);
      && d.Dispatch? && d.pick == choice.pick && d.cluster == choice.cluster && c' == Advance(c)
      && d.slot == Rem(c, CountHealthy(d.cluster.endpoints)) && IsSlot(d.cluster, d.slot, d.endpoint)
  {
    ChosenEndpoint(choice, c);
    RemIsMod(c, CountHealthy(choice.cluster.endpoints));
  }

  lemma {:induction false} TwoTickets(cfg: RuntimeConfig, route: Route, input: MatchInput, c: u64)
    requires Steady(cfg, route, [input])
    ensures var ws, (d, c') := route.weightedClusters, Decide(cfg, input, c);
      && d.Dispatch? && d.pick < |ws| && c' == Advance(Advance(c))
      && FindFrom(ws, Rem(c % U32, Sum(ws)), 0) == Some(d.pick)
      && FindCluster(cfg.clusters, ws[d.pick].name) == Some(d.cluster) && CountHealthy(d.cluster.endpoints) > 0
      && d.slot == Rem(Advance(c), CountHealthy(d.cluster.endpoints)) && IsSlot(d.cluster, d.slot, d.endpoint)
  {
    FirstTicket(cfg, route, input, c);
    var (choice, c1) := ChooseCluster(cfg, input, c);
    SecondTicket(choice, c1);
  }

  /**
   A request takes two tickets. The first chooses the cluster: the one whose share of the total weight holds the
   ticket's remainder. The second chooses the endpoint: the healthy one with exactly its remainder of healthy ones
   before it.
   */
  lemma {:induction false} RequestTakesTwoTickets(cfg: RuntimeConfig, route: Route, input: MatchInput, c: u64)
    requires Steady(cfg, route, [input])
    ensures var ws, (d, c') := route.weightedClusters, Decide(cfg, input, c);
      && d.Dispatch? && d.pick < |ws| && c' == Advance(Advance(c))
      && Sum(ws[..d.pick]) <= (c % U32) % Sum(ws) < Sum(ws[..d.pick + 1])
      && FindCluster(cfg.clusters, ws[d.pick].name) == Some(d.cluster)
      && CountHealthy(d.cluster.endpoints) > 0
      && d.slot == Advance(c) % CountHealthy(d.cluster.endpoints) && IsSlot(d.cluster, d.slot, d.endpoint)
  {
    TwoTickets(cfg, route, input, c);
    var ws, d := route.weightedClusters, Decide(cfg, input, c).0;
    RemIsMod(c % U32, Sum(ws));
    PickIsInterval(ws, Rem(c % U32, Sum(ws)), d.pick);
    IntervalBounds(ws, d.pick);
    RemIsMod(Advance(c), CountHealthy(d.cluster.endpoints));
  }

  lemma {:induction false} SteadyRest(cfg: RuntimeConfig, route: Route, inputs: seq<MatchInput>)
    requires Steady(cfg, route, inputs) && inputs != []
    ensures Steady(cfg, route, [inputs[0]]) && Steady(cfg, route, inputs[1..])
  {
    assert [inputs[0]][0] == inputs[0];
    assert forall k | 0 <= k < |inputs| - 1 :: inputs[1..][k] == inputs[k + 1];
  }

  lemma {:induction false} TwoTicketsOn(c: u64, n: nat)
    requires n > 0 && Uncrossed(c, 2 * n)
    ensures Advance(c) == c + 1
    ensures n > 1 ==> Advance(Advance(c)) == c + 2 && (c + 2) % U32 == c % U32 + 2
    ensures Uncrossed(Advance(Advance(c)), 2 * (n - 1))
  {
  }

  // ---------- decisions that follow the tickets ----------

  /** Cluster picks follow the tickets `s`, `s + 2`, ... */
  ghost predicate PicksFollow(ds: seq<Decision>, ws: seq<WeightedCluster>, s: nat)
    requires Sum(ws) > 0
    decreases |ds|
  {
    ds == [] ||
    (ds[0].Dispatch? && FindFrom(ws, Rem(s, Sum(ws)), 0) == Some(ds[0].pick) && PicksFollow(ds[1..], ws, s + 2))
  }

  /** Endpoint slots among `n` follow the tickets `s`, `s + 2`, ... */
  ghost predicate SlotsFollow(ds: seq<Decision>, n: nat, s: nat)
    requires n > 0
    decreases |ds|
  {
    ds == [] || (ds[0].Dispatch? && ds[0].slot == Rem(s, n) && SlotsFollow(ds[1..], n, s + 2))
  }

  /** Cluster picks follow every second ticket of a counter that stands at `c`. */
  ghost predicate PicksTicketed(ds: seq<Decision>, ws: seq<WeightedCluster>, c: u64)
    requires Sum(ws) > 0
    decreases |ds|
  {
    ds == [] ||
    (ds[0].Dispatch? && FindFrom(ws, Rem(c % U32, Sum(ws)), 0) == Some(ds[0].pick) &&
     PicksTicketed(ds[1..], ws, Advance(Advance(c))))
  }

  lemma {:induction false} PicksTicketedCons(d: Decision, rest: seq<Decision>, ws: seq<WeightedCluster>, c: u64)
    requires Sum(ws) > 0 && PicksTicketed(rest, ws, Advance(Advance(c)))
    requires d.Dispatch? && FindFrom(ws, Rem(c % U32, Sum(ws)), 0) == Some(d.pick)
    ensures PicksTicketed([d] + rest, ws, c)
  {
    assert ([d] + rest)[1..] == rest;
  }

  lemma {:induction false} ServedPicksTicketed(cfg: RuntimeConfig, route: Route, inputs: seq<MatchInput>, c: u64)
    requires Steady(cfg, route, inputs)
    ensures |Serve(cfg, inputs, c)| == |inputs| && PicksTicketed(Serve(cfg, inputs, c), route.weightedClusters, c)
    decreases |inputs|
  {
    if inputs != [] {
      SteadyRest(cfg, route, inputs);
      TwoTickets(cfg, route, inputs[0], c);
      ServeUnfold(cfg, inputs, c);
      var (d, c') := Decide(cfg, inputs[0], c);
      ServedPicksTicketed(cfg, route, inputs[1..], c');
      PicksTicketedCons(d, Serve(cfg, inputs[1..], c'), route.weightedClusters, c);
    }
  }

  lemma {:induction false} PicksWithoutCrossing(ds: seq<Decision>, ws: seq<WeightedCluster>, c: u64)
    requires Sum(ws) > 0 && PicksTicketed(ds, ws, c) && Uncrossed(c, 2 * |ds|)
    ensures PicksFollow(ds, ws, c % U32)
    decreases |ds|
  {
    if ds != [] {
      TwoTicketsOn(c, |ds|);
      PicksWithoutCrossing(ds[1..], ws, Advance(Advance(c)));
      if |ds| == 1 { assert ds[1..] == []; }
    }
  }

  lemma {:induction false} ServedPicksFollow(cfg: RuntimeConfig, route: Route, inputs: seq<MatchInput>, c: u64)
    requires Steady(cfg, route, inputs) && Uncrossed(c, 2 * |inputs|)
    ensures |Serve(cfg, inputs, c)| == |inputs| && PicksFollow(Serve(cfg, inputs, c), route.weightedClusters, c % U32)
  {
    ServedPicksTicketed(cfg, route, inputs, c);
    PicksWithoutCrossing(Serve(cfg, inputs, c), route.weightedClusters, c);
  }

  lemma {:induction false} LoneClusterRequest(
    cfg: RuntimeConfig, route: Route, cluster: Cluster, input: MatchInput, c: u64)
    requires Steady(cfg, route, [input]) && |route.weightedClusters| == 1
    requires FindCluster(cfg.clusters, route.weightedClusters[0].name) == Some(cluster)
      && CountHealthy(cluster.endpoints) > 0
    ensures var (d, c') := Decide(cfg, input, c);
      && d.Dispatch? && c' == Advance(Advance(c)) && d.slot == Rem(Advance(c), CountHealthy(cluster.endpoints))
      && d.cluster == cluster && IsSlot(cluster, d.slot, d.endpoint)
  {
    TwoTickets(cfg, route, input, c);
  }

  lemma {:induction false} ServeUnfold(cfg: RuntimeConfig, inputs: seq<MatchInput>, c: u64)
    requires inputs != []
    ensures var (d, c') := Decide(cfg, inputs[0], c); Serve(cfg, inputs, c) == [d] + Serve(cfg, inputs[1..], c')
  {
  }

  /** Slots follow every second ticket of a counter that stands at `c`. */
  ghost predicate SlotsTicketed(ds: seq<Decision>, n: nat, c: u64)
    requires n > 0
    decreases |ds|
  {
    ds == [] ||
    (ds[0].Dispatch? && ds[0].slot == Rem(Advance(c), n) && SlotsTicketed(ds[1..], n, Advance(Advance(c))))
  }

  lemma {:induction false} SlotsTicketedCons(d: Decision, rest: seq<Decision>, n: nat, c: u64)
    requires n > 0 && SlotsTicketed(rest, n, Advance(Advance(c))) && d.Dispatch? && d.slot == Rem(Advance(c), n)
    ensures SlotsTicketed([d] + rest, n, c)
  {
    assert ([d] + rest)[1..] == rest;
  }

  /** Every request is sent to the endpoint in its slot of `cluster`. */
  ghost predicate AllSentTo(ds: seq<Decision>, cluster: Cluster) {
    forall k | 0 <= k < |ds| ::
      ds[k].Dispatch? && ds[k].cluster == cluster && IsSlot(cluster, ds[k].slot, ds[k].endpoint)
  }

  lemma {:induction false} ServedSlotsTicketed(
    cfg: RuntimeConfig, route: Route, cluster: Cluster, inputs: seq<MatchInput>, c: u64)
    requires Steady(cfg, route, inputs) && |route.weightedClusters| == 1
    requires FindCluster(cfg.clusters, route.weightedClusters[0].name) == Some(cluster)
      && CountHealthy(cluster.endpoints) > 0
    ensures |Serve(cfg, inputs, c)| == |inputs| && AllSentTo(Serve(cfg, inputs, c), cluster)
    ensures SlotsTicketed(Serve(cfg, inputs, c), CountHealthy(cluster.endpoints), c)
    decreases |inputs|
  {
    if inputs != [] {
      SteadyRest(cfg, route, inputs);
      LoneClusterRequest(cfg, route, cluster, inputs[0], c);
      ServeUnfold(cfg, inputs, c);
      var (d, c') := Decide(cfg, inputs[0], c);
      ServedSlotsTicketed(cfg, route, cluster, inputs[1..], c');
      SlotsTicketedCons(d, Serve(cfg, inputs[1..], c'), CountHealthy(cluster.endpoints), c);
    }
  }

  lemma {:induction false} TicketsWithoutWrap(ds: seq<Decision>, n: nat, c: u64)
    requires n > 0 && SlotsTicketed(ds, n, c) && c + 2 * |ds| <= U64
    ensures SlotsFollow(ds, n, c + 1)
    decreases |ds|
  {
    if |ds| > 1 {
      assert Advance(Advance(c)) == c + 2;
      TicketsWithoutWrap(ds[1..], n, c + 2);
    } else if |ds| == 1 {
      assert ds[1..] == [];
    }
  }

  lemma {:induction false} PicksAreHits(ds: seq<Decision>, ws: seq<WeightedCluster>, s: nat, i: nat)
    requires 0 < Sum(ws) < U32 && PicksFollow(ds, ws, s) && i < |ws|
    ensures CountPick(ds, i) == Hits(s, 2, |ds|, Sum(ws), Low(ws, i), High(ws, i))
    decreases |ds|
  {
    if ds != [] {
      PickIsInterval(ws, Rem(s, Sum(ws)), i);
      PicksAreHits(ds[1..], ws, s + 2, i);
    }
  }

  lemma {:induction false} SlotsAreHits(ds: seq<Decision>, n: nat, s: nat, j: nat)
    requires n > 0 && SlotsFollow(ds, n, s)
    ensures CountSlot(ds, j) == Hits(s, 2, |ds|, n, j, j + 1)
    decreases |ds|
  {
    if ds != [] { SlotsAreHits(ds[1..], n, s + 2, j); }
  }

  // ---------- exact shares ----------

  ghost predicate AllEven(ws: seq<WeightedCluster>) {
    forall k | 0 <= k < |ws| :: ws[k].weight % 2 == 0
  }

  ghost predicate ExactShares(ws: seq<WeightedCluster>, ds: seq<Decision>) {
    forall i: nat | i < |ws| :: CountPick(ds, i) == ws[i].weight
  }

  lemma {:induction false} EvenPrefix(ws: seq<WeightedCluster>, i: nat)
    requires AllEven(ws) && i <= |ws|
    ensures Sum(ws[..i]) % 2 == 0
  {
    if i > 0 {
      EvenPrefix(ws, i - 1);
      assert ws[..i][..i - 1] == ws[..i - 1];
    }
  }

  lemma {:induction false} WholeTurn(ws: seq<WeightedCluster>, s: nat, i: nat)
    requires Sum(ws) > 0 && i < |ws| && (Sum(ws) % 2 == 1 || AllEven(ws))
    ensures Hits(s, 2, Sum(ws), Sum(ws), Low(ws, i), High(ws, i)) == ws[i].weight
  {
    var m, lo, hi := Sum(ws), Low(ws, i), High(ws, i);
    IntervalBounds(ws, i);
    if m % 2 == 1 {
      OddPeriod(s, m, lo, hi);
    } else {
      EvenPeriod(s, m, lo, hi);
      EvenPrefix(ws, i);
      assert ws[i].weight % 2 == 0;
      EvenBoundsHalf(s, m, lo, hi);
    }
  }

  lemma {:induction false} OneExactShare(ds: seq<Decision>, ws: seq<WeightedCluster>, s: nat, i: nat)
    requires 0 < Sum(ws) < U32 && PicksFollow(ds, ws, s) && |ds| == Sum(ws) && i < |ws|
    ensures Sum(ws) % 2 == 1 || AllEven(ws) ==> CountPick(ds, i) == ws[i].weight
    ensures Sum(ws) % 2 == 0 ==> CountPick(ds, i) % 2 == 0
  {
    PicksAreHits(ds, ws, s, i);
    if Sum(ws) % 2 == 1 || AllEven(ws) { WholeTurn(ws, s, i); }
    if Sum(ws) % 2 == 0 { EvenPeriod(s, Sum(ws), Low(ws, i), High(ws, i)); }
  }

  /**
   Over as many requests as the total weight, shares are exact if and only if the total is odd or all weights are
   even.
   */
  lemma {:induction false} SharesExactIff(cfg: RuntimeConfig, route: Route, inputs: seq<MatchInput>, c: u64)
    requires Steady(cfg, route, inputs) && |inputs| == Sum(route.weightedClusters) && Uncrossed(c, 2 * |inputs|)
    ensures var ws := route.weightedClusters;
      ExactShares(ws, Serve(cfg, inputs, c)) <==> Sum(ws) % 2 == 1 || AllEven(ws)
  {
    ServedPicksFollow(cfg, route, inputs, c);
    FollowersShareExactlyIff(Serve(cfg, inputs, c), route.weightedClusters, c % U32);
  }

  lemma {:induction false} FollowersShareExactlyIff(ds: seq<Decision>, ws: seq<WeightedCluster>, s: nat)
    requires 0 < Sum(ws) < U32 && PicksFollow(ds, ws, s) && |ds| == Sum(ws)
    ensures ExactShares(ws, ds) <==> Sum(ws) % 2 == 1 || AllEven(ws)
  {
    forall i: nat | i < |ws|
      ensures Sum(ws) % 2 == 1 || AllEven(ws) ==> CountPick(ds, i) == ws[i].weight
      ensures Sum(ws) % 2 == 0 ==> CountPick(ds, i) % 2 == 0
    {
      OneExactShare(ds, ws, s, i);
    }
  }

  // ---------- exact shares from every counter value ----------

  lemma {:induction false} TwoTicketsAcross(c: u64, r: nat)
    requires c % U32 == r
    ensures Advance(Advance(c)) % U32 == if r + 2 < U32 then r + 2 else r + 2 - U32
  {
  }

  /** Requests that cross a multiple of 2^32: every other ticket up to it, then every other ticket from `p`. */
  lemma {:induction false} PicksAreHitsAcross(
    ds: seq<Decision>, ws: seq<WeightedCluster>, c: u64, k: nat, p: nat, i: nat)
    requires 0 < Sum(ws) < U32 && i < |ws| && PicksTicketed(ds, ws, c) && 2 * |ds| <= U32
    requires p < 2 && 0 < k <= |ds| && c % U32 == U32 - 2 * k + p
    ensures var m, lo, hi := Sum(ws), Low(ws, i), High(ws, i);
      CountPick(ds, i) == Hits(U32 - 2 * k + p, 2, k, m, lo, hi) + Hits(p, 2, |ds| - k, m, lo, hi)
    decreases k
  {
    PickIsInterval(ws, Rem(c % U32, Sum(ws)), i);
    TwoTicketsAcross(c, U32 - 2 * k + p);
    if k == 1 {
      PicksWithoutCrossing(ds[1..], ws, Advance(Advance(c)));
      PicksAreHits(ds[1..], ws, p, i);
    } else {
      PicksAreHitsAcross(ds[1..], ws, Advance(Advance(c)), k - 1, p, i);
    }
  }

  lemma {:induction false} LoneIsExact(ds: seq<Decision>, ws: seq<WeightedCluster>, c: u64, i: nat, p: nat)
    requires 0 < Sum(ws) < U32 && PicksTicketed(ds, ws, c) && i < |ws| && p < |ws| && OnlyWeight(ws, p)
    ensures CountPick(ds, i) == if i == p then |ds| else 0
    decreases |ds|
  {
    LoneBounds(ws, p);
    if ds != [] {
      PickIsInterval(ws, Rem(c % U32, Sum(ws)), p);
      LoneIsExact(ds[1..], ws, Advance(Advance(c)), i, p);
    }
  }

  /** Tickets before the crossing, and the parity they keep. */
  lemma {:induction false} CrossingPoint(r: nat) returns (k: nat, p: nat)
    requires r < U32
    ensures p < 2 && k > 0 && r == U32 - 2 * k + p
  {
    p := r % 2;
    k := (U32 - r + p) / 2;
  }

  lemma {:induction false} DividingIsExact(ds: seq<Decision>, ws: seq<WeightedCluster>, c: u64, i: nat)
    requires 0 < 2 * Sum(ws) <= U32 && U32 % Sum(ws) == 0 && (Sum(ws) % 2 == 1 || AllEven(ws))
    requires PicksTicketed(ds, ws, c) && |ds| == Sum(ws) && i < |ws|
    ensures CountPick(ds, i) == ws[i].weight
  {
    var m, lo, hi := Sum(ws), Low(ws, i), High(ws, i);
    var k, p := CrossingPoint(c % U32);
    if k <= m {
      PicksAreHitsAcross(ds, ws, c, k, p, i);
      RestartByTwo(U32, p, k, m, m, lo, hi);
      WholeTurn(ws, U32 - 2 * k + p, i);
    } else {
      PicksWithoutCrossing(ds, ws, c);
      OneExactShare(ds, ws, c % U32, i);
    }
  }

  /** Shares are exact whatever the counter. */
  ghost predicate AlwaysSharesExactly(cfg: RuntimeConfig, route: Route, inputs: seq<MatchInput>) {
    forall c: u64 :: ExactShares(route.weightedClusters, Serve(cfg, inputs, c))
  }

  /** How many of the `n` residues of every second ticket, from a counter that stands at `c`, fall into `[lo, hi)`. */
  function HitsFrom(c: u64, n: nat, m: nat, lo: nat, hi: nat): nat
    requires m > 0
    decreases n
  {
    if n == 0 then 0 else
      (if Hit(c % U32, m, lo, hi) then 1 else 0) + HitsFrom(Advance(Advance(c)), n - 1, m, lo, hi)
  }

  function After(c: u64, n: nat): u64
    decreases n
  {
    if n == 0 then c else After(Advance(Advance(c)), n - 1)
  }

  lemma {:induction false} AfterPlain(c: u64, n: nat)
    requires c + 2 * n < U64
    ensures After(c, n) == c + 2 * n
    decreases n
  {
    if n > 0 { AfterPlain(c + 2, n - 1); }
  }

  lemma {:induction false} OneMoreHit(c: u64, n: nat, m: nat, lo: nat, hi: nat)
    requires m > 0
    ensures HitsFrom(c, n + 1, m, lo, hi) ==
      HitsFrom(c, n, m, lo, hi) + if Hit(After(c, n) % U32, m, lo, hi) then 1 else 0
    decreases n
  {
    if n > 0 { OneMoreHit(Advance(Advance(c)), n - 1, m, lo, hi); }
  }

  lemma {:induction false} CountIsHitsFrom(ds: seq<Decision>, ws: seq<WeightedCluster>, c: u64, i: nat)
    requires 0 < Sum(ws) < U32 && PicksTicketed(ds, ws, c) && i < |ws|
    ensures CountPick(ds, i) == HitsFrom(c, |ds|, Sum(ws), Low(ws, i), High(ws, i))
    decreases |ds|
  {
    if ds != [] {
      PickIsInterval(ws, Rem(c % U32, Sum(ws)), i);
      CountIsHitsFrom(ds[1..], ws, Advance(Advance(c)), i);
    }
  }

  lemma {:induction false} ExactCount(cfg: RuntimeConfig, route: Route, inputs: seq<MatchInput>, c: u64, i: nat)
    requires Steady(cfg, route, inputs) && AlwaysSharesExactly(cfg, route, inputs) && i < |route.weightedClusters|
    ensures var ws := route.weightedClusters; HitsFrom(c, |inputs|, Sum(ws), Low(ws, i), High(ws, i)) == ws[i].weight
  {
    ServedPicksTicketed(cfg, route, inputs, c);
    CountIsHitsFrom(Serve(cfg, inputs, c), route.weightedClusters, c, i);
    assert ExactShares(route.weightedClusters, Serve(cfg, inputs, c));
  }

  /**
   A window of requests that slides by one trades its first ticket for the one after its last: both hit or both miss.
   */
  lemma {:induction false} ExactSlides(cfg: RuntimeConfig, route: Route, inputs: seq<MatchInput>, c: u64, i: nat)
    requires Steady(cfg, route, inputs) && AlwaysSharesExactly(cfg, route, inputs) && i < |route.weightedClusters|
    requires c + 2 * |inputs| < U64
    ensures var ws := route.weightedClusters;
      Hit(c % U32, Sum(ws), Low(ws, i), High(ws, i)) ==
      Hit((c + 2 * |inputs|) % U32, Sum(ws), Low(ws, i), High(ws, i))
  {
    var ws := route.weightedClusters;
    ExactCount(cfg, route, inputs, c, i);
    ExactCount(cfg, route, inputs, Advance(Advance(c)), i);
    OneMoreHit(c, |inputs|, Sum(ws), Low(ws, i), High(ws, i));
    AfterPlain(c, |inputs|);
  }

  /**
   From every counter value, shares over as many requests as the total weight are exact if and only if one cluster has
   all the weight, or the total divides 2^32 and is odd or has only even parts.
   */
  lemma {:induction false} AlwaysSharesExactlyIff(cfg: RuntimeConfig, route: Route, inputs: seq<MatchInput>)
    requires Steady(cfg, route, inputs) && |inputs| == Sum(route.weightedClusters)
    ensures var ws := route.weightedClusters;
      AlwaysSharesExactly(cfg, route, inputs) <==>
      LoneWeight(ws) || (U32 % Sum(ws) == 0 && (Sum(ws) % 2 == 1 || AllEven(ws)))
  {
    var ws := route.weightedClusters;
    if LoneWeight(ws) {
      var p: nat :| p < |ws| && OnlyWeight(ws, p);
      forall c: u64 ensures ExactShares(ws, Serve(cfg, inputs, c)) { LoneServes(cfg, route, inputs, c, p); }
    } else if U32 % Sum(ws) == 0 && (Sum(ws) % 2 == 1 || AllEven(ws)) {
      forall c: u64 ensures ExactShares(ws, Serve(cfg, inputs, c)) { DividingServes(cfg, route, inputs, c); }
    } else if AlwaysSharesExactly(cfg, route, inputs) {
      ExactForcesDivision(cfg, route, inputs);
      DivisorIsSmall(Sum(ws));
      SharesExactIff(cfg, route, inputs, 0);
    }
  }

  lemma {:induction false} LoneServes(cfg: RuntimeConfig, route: Route, inputs: seq<MatchInput>, c: u64, p: nat)
    requires Steady(cfg, route, inputs) && |inputs| == Sum(route.weightedClusters)
    requires p < |route.weightedClusters| && OnlyWeight(route.weightedClusters, p)
    ensures ExactShares(route.weightedClusters, Serve(cfg, inputs, c))
  {
    var ws, ds := route.weightedClusters, Serve(cfg, inputs, c);
    ServedPicksTicketed(cfg, route, inputs, c);
    LoneBounds(ws, p);
    forall i: nat | i < |ws| ensures CountPick(ds, i) == ws[i].weight { LoneIsExact(ds, ws, c, i, p); }
  }

  lemma {:induction false} DividingServes(cfg: RuntimeConfig, route: Route, inputs: seq<MatchInput>, c: u64)
    requires Steady(cfg, route, inputs) && |inputs| == Sum(route.weightedClusters)
    requires var ws := route.weightedClusters; U32 % Sum(ws) == 0 && (Sum(ws) % 2 == 1 || AllEven(ws))
    ensures ExactShares(route.weightedClusters, Serve(cfg, inputs, c))
  {
    var ws, ds := route.weightedClusters, Serve(cfg, inputs, c);
    ServedPicksTicketed(cfg, route, inputs, c);
    DivisorIsSmall(Sum(ws));
    forall i: nat | i < |ws| ensures CountPick(ds, i) == ws[i].weight { DividingIsExact(ds, ws, c, i); }
  }

  /** The residue `2 * m` tickets after residue `x`. */
  function Slid(x: nat, m: nat): nat
    requires x < U32 && m < U32
  {
    var y := x + 2 * m;
    if y < U32 then y else if y < 2 * U32 then y - U32 else y - 2 * U32
  }

  lemma {:induction false} SlidIsResidue(x: nat, m: nat)
    requires x < U32 && m < U32
    ensures x % U32 == x && (x + 2 * m) % U32 == Slid(x, m)
  {
  }

  /**
   For a cluster with the residues from `lo` up to the total `m`: `x` and the residue a turn later both hit or both
   miss.
   */
  ghost predicate SlidesAlike(x: nat, m: nat, lo: nat)
    requires x < U32 && 0 < m < U32
  {
    Hit(x, m, lo, m) == Hit(Slid(x, m), m, lo, m)
  }

  lemma {:induction false} SmallTurnDivides(m: nat, lo: nat)
    requires 0 < lo < m && 2 * m < U32
    requires SlidesAlike(U32 - 2 * m, m, lo) && SlidesAlike(U32 - m - 1, m, lo)
    ensures U32 % m == 0
  {
    var d := U32 - 2 * m;
    assert Slid(d, m) == 0 && Slid(U32 - m - 1, m) == m - 1 && U32 - m - 1 == d + (m - 1);
    ShiftKeepsTop(d, m, lo);
    AddModulus(d, m);
    AddModulus(d + m, m);
  }

  lemma {:induction false} LargeTurnNeverSlides(m: nat, lo: nat)
    requires 0 < lo < m < U32 < 2 * m
    ensures !SlidesAlike(0, m, lo) || !SlidesAlike(m - 1, m, lo)
  {
    var e := 2 * m - U32;
    assert Slid(0, m) == e && Rem(e, m) == e && Rem(0, m) == 0 && Rem(m - 1, m) == m - 1;
    var z := Slid(m - 1, m);
    if m - 1 + e < U32 {
      assert z == m + (e - 1) && Rem(z, m) == Rem(e - 1, m) == e - 1;
    } else {
      assert z == m - 1 + e - U32 && Rem(z, m) == z;
    }
  }

  lemma {:induction false} ExactSlidesAlike(
    cfg: RuntimeConfig, route: Route, inputs: seq<MatchInput>, i: nat, x: nat)
    requires Steady(cfg, route, inputs) && AlwaysSharesExactly(cfg, route, inputs)
    requires var ws := route.weightedClusters; i < |ws| && |inputs| == Sum(ws) == High(ws, i) && x < U32
    ensures SlidesAlike(x, Sum(route.weightedClusters), Low(route.weightedClusters, i))
  {
    SlidIsResidue(x, |inputs|);
    ExactSlides(cfg, route, inputs, x, i);
  }

  lemma {:induction false} ExactForcesDivision(cfg: RuntimeConfig, route: Route, inputs: seq<MatchInput>)
    requires Steady(cfg, route, inputs) && |inputs| == Sum(route.weightedClusters)
    requires AlwaysSharesExactly(cfg, route, inputs) && !LoneWeight(route.weightedClusters)
    ensures U32 % Sum(route.weightedClusters) == 0
  {
    var ws := route.weightedClusters;
    var i := TopCluster(ws);
    var m, lo := Sum(ws), Low(ws, i);
    if 2 * m < U32 {
      ExactSlidesAlike(cfg, route, inputs, i, U32 - 2 * m);
      ExactSlidesAlike(cfg, route, inputs, i, U32 - m - 1);
      SmallTurnDivides(m, lo);
    } else if 2 * m == U32 {
      UniqueRemainder(U32, m, 2, 0);
    } else {
      ExactSlidesAlike(cfg, route, inputs, i, 0);
      ExactSlidesAlike(cfg, route, inputs, i, m - 1);
      LargeTurnNeverSlides(m, lo);
    }
  }

  lemma {:induction false} DivisorIsSmall(m: nat)
    requires 0 < m < U32 && U32 % m == 0
    ensures 2 * m <= U32
  {
    if 2 * m > U32 { UniqueRemainder(U32, m, 1, U32 - m); }
  }

  // ---------- inexact shares, for two clusters of weight one ----------

  function EvenCluster(name: string): Cluster {
    Cluster(name, [Endpoint(name, 80, true, None)], None)
  }

  const EVEN_ROUTE := Route("", [], [WeightedCluster("a", 1), WeightedCluster("b", 1)])

  const EVEN_CONFIG := RuntimeConfig("1",
    [Listener("", SocketAddr("", HTTP_LISTENER_PORT), Http, [VirtualHost("", ["*"], [EVEN_ROUTE])], None)],
    [EvenCluster("a"), EvenCluster("b")], [])

  lemma {:induction false} EvenSum()
    ensures Sum(EVEN_ROUTE.weightedClusters) == 2
  {
    var ws := EVEN_ROUTE.weightedClusters;
    assert ws[..1] == [ws[0]] && ws[..1][..0] == [];
    assert Sum(ws[..1]) == 1;
  }

  lemma {:induction false} EvenRouteFor(input: MatchInput)
    ensures RouteFor(EVEN_CONFIG, HTTP_LISTENER_PORT, input) == Some(EVEN_ROUTE)
  {
    assert "*" in ["*"] && DomainMatches("*", input.host);
    assert FindInHost(EVEN_CONFIG.listeners[0].virtualHosts[0], input) == Some(EVEN_ROUTE);
  }

  lemma {:induction false} EvenHealthy(name: string)
    requires name == "a" || name == "b"
    ensures HasHealthy(EVEN_CONFIG, name)
  {
    var cluster := EvenCluster(name);
    assert FindCluster(EVEN_CONFIG.clusters, name) == Some(cluster) by {
      assert EVEN_CONFIG.clusters[1..] == [EvenCluster("b")];
    }
    assert cluster.endpoints[..0] == [];
  }

  lemma {:induction false} EvenIsSteady(inputs: seq<MatchInput>)
    ensures Steady(EVEN_CONFIG, EVEN_ROUTE, inputs)
  {
    EvenSum();
    forall k | 0 <= k < |inputs| ensures RouteFor(EVEN_CONFIG, HTTP_LISTENER_PORT, inputs[k]) == Some(EVEN_ROUTE) {
      EvenRouteFor(inputs[k]);
    }
    EvenHealthy("a");
    EvenHealthy("b");
  }

  lemma {:induction false} PairFollowsFirst(ds: seq<Decision>, ws: seq<WeightedCluster>)
    requires |ws| == 2 && ws[0].weight == 1 && Sum(ws) == 2 && |ds| == 2 && PicksFollow(ds, ws, 0)
    ensures CountPick(ds, 0) == 2 && CountPick(ds, 1) == 0
  {
    PicksAreHits(ds, ws, 0, 0);
    PicksAreHits(ds, ws, 0, 1);
    IntervalBounds(ws, 0);
    IntervalBounds(ws, 1);
    assert ws[..0] == [] && ws[..2] == ws;
    EvenPeriodSingle(0, 2, 0);
    EvenPeriodSingle(0, 2, 1);
  }

  /** Two requests from counter zero both go to the first of two clusters of weight one. */
  lemma {:induction false} EqualWeightsCanStarveOne(inputs: seq<MatchInput>)
    requires |inputs| == 2
    ensures Steady(EVEN_CONFIG, EVEN_ROUTE, inputs)
    ensures var ds := Serve(EVEN_CONFIG, inputs, 0); CountPick(ds, 0) == 2 && CountPick(ds, 1) == 0
  {
    EvenIsSteady(inputs);
    EvenSum();
    ServedPicksFollow(EVEN_CONFIG, EVEN_ROUTE, inputs, 0);
    PairFollowsFirst(Serve(EVEN_CONFIG, inputs, 0), EVEN_ROUTE.weightedClusters);
  }

  // ---------- endpoint visits ----------

  /** The request is sent to the endpoint at position `pos` of `cluster`. */
  ghost predicate SentTo(d: Decision, cluster: Cluster, pos: nat) {
    && d.Dispatch? && d.cluster == cluster
    && NthHealthy(cluster.endpoints, d.slot, pos) && d.endpoint == cluster.endpoints[pos]
  }

  ghost function CountSentTo(ds: seq<Decision>, cluster: Cluster, pos: nat): nat {
    if ds == [] then 0 else (if SentTo(ds[0], cluster, pos) then 1 else 0) + CountSentTo(ds[1..], cluster, pos)
  }

  lemma {:induction false} SlotIsPosition(d: Decision, cluster: Cluster, slot: nat, pos: nat)
    requires d.Dispatch? && d.cluster == cluster && IsSlot(cluster, d.slot, d.endpoint)
    requires NthHealthy(cluster.endpoints, slot, pos)
    ensures SentTo(d, cluster, pos) <==> d.slot == slot
  {
    var at: nat :| NthHealthy(cluster.endpoints, d.slot, at) && cluster.endpoints[at] == d.endpoint;
    if d.slot == slot { NthHealthyUnique(cluster.endpoints, slot, at, pos); }
  }

  lemma {:induction false} SentToIsSlot(ds: seq<Decision>, cluster: Cluster, slot: nat, pos: nat)
    requires AllSentTo(ds, cluster) && NthHealthy(cluster.endpoints, slot, pos)
    ensures CountSentTo(ds, cluster, pos) == CountSlot(ds, slot)
  {
    if ds != [] {
      SlotIsPosition(ds[0], cluster, slot, pos);
      SentToIsSlot(ds[1..], cluster, slot, pos);
    }
  }

  /**
   As many requests as healthy endpoints of a lone cluster. The endpoint at position `pos`, with `slot` healthy ones
   before it, is sent exactly one if their number is odd; else two if `slot` has the parity of the second ticket, or
   none.
   */
  lemma {:induction false} EndpointVisits(
    cfg: RuntimeConfig, route: Route, cluster: Cluster, inputs: seq<MatchInput>, c: u64, slot: nat, pos: nat)
    requires Steady(cfg, route, inputs) && |route.weightedClusters| == 1
    requires FindCluster(cfg.clusters, route.weightedClusters[0].name) == Some(cluster)
    requires NthHealthy(cluster.endpoints, slot, pos)
    requires |inputs| == CountHealthy(cluster.endpoints) && c + 2 * |inputs| <= U64
    ensures CountSentTo(Serve(cfg, inputs, c), cluster, pos) ==
      if |inputs| % 2 == 1 then 1 else if slot % 2 == (c + 1) % 2 then 2 else 0
  {
    var es, n := cluster.endpoints, |inputs|;
    CountHealthyGrows(es, pos, |es|);
    assert es[..|es|] == es;
    ServedSlotsTicketed(cfg, route, cluster, inputs, c);
    SentToIsSlot(Serve(cfg, inputs, c), cluster, slot, pos);
    TicketedVisits(Serve(cfg, inputs, c), n, c, slot);
  }

  lemma {:induction false} TicketedVisits(ds: seq<Decision>, n: nat, c: u64, j: nat)
    requires |ds| == n > 0 && j < n && SlotsTicketed(ds, n, c) && c + 2 * n <= U64
    ensures CountSlot(ds, j) == if n % 2 == 1 then 1 else if j % 2 == (c + 1) % 2 then 2 else 0
  {
    TicketsWithoutWrap(ds, n, c);
    SlotsAreHits(ds, n, c + 1, j);
    if n % 2 == 1 { OddPeriod(c + 1, n, j, j + 1); } else { EvenPeriodSingle(c + 1, n, j); }
  }
}
