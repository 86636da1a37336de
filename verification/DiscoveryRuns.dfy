/** What every run of the discovery stream keeps, and what redelivery and reordering do to it. */
module DiscoveryRuns {
  import opened Wrappers
  import opened Text
  import opened Config
  import opened Messages
  import opened Translation
  import opened Discovery

  // ---------- invariants of a run ----------

  ghost predicate GoodListener(k: string, l: ListenerSnapshot) {
    l.listener.name == k && HasXdsShape(l.listener) && HaveDestinations(l.inlineVirtualHosts)
  }

  ghost predicate GoodListeners(m: map<string, ListenerSnapshot>) {
    forall k | k in m :: GoodListener(k, m[k])
  }

  ghost predicate GoodRoutes(m: map<string, seq<VirtualHost>>) {
    forall k | k in m :: HaveDestinations(m[k])
  }

  ghost predicate GoodClusters(m: map<string, ClusterSnapshot>) {
    forall k | k in m :: m[k].name == k
  }

  /** Entries sit under their own names and have the shape conversion gives them. */
  ghost predicate Keyed(s: AdsView) {
    GoodListeners(s.listeners) && GoodRoutes(s.routes) && GoodClusters(s.clusters)
  }

  ghost predicate FollowedUp(s: AdsView, t: TypeUrl) {
    Needs(s, t) == [] || Subscription(s, Follower(t)) == Needs(s, t)
  }

  /** Each stage's needs are empty or are exactly what is subscribed. */
  ghost predicate Closed(s: AdsView) {
    FollowedUp(s, ListenerType) && FollowedUp(s, RouteType) && FollowedUp(s, ClusterType)
  }

  function LastFor(log: seq<Request>, t: TypeUrl): Option<Request> {
    if log == [] then None
    else if log[|log| - 1].typeUrl == t then Some(log[|log| - 1])
    else LastFor(log[..|log| - 1], t)
  }

  ghost predicate LogCurrentFor(st: Stream, t: TypeUrl) {
    match LastFor(st.log, t)
    case None => t !in st.ads.subscriptions
    case Some(r) => r.names == Subscription(st.ads, t)
  }

  /** The last request sent for each type carries the current subscription. */
  ghost predicate LogCurrent(st: Stream) {
    forall t: TypeUrl :: LogCurrentFor(st, t)
  }

  ghost predicate Inv(st: Stream) {
    Keyed(st.ads) && Closed(st.ads) && LogCurrent(st)
  }

  // ---------- one response ----------

  lemma {:induction false} KeyedListeners(rs: seq<Resource>)
    ensures GoodListeners(Overlay(ListenerOutcomes(rs)))
  {
    var m := Overlay(ListenerOutcomes(rs));
    forall k | k in m ensures GoodListener(k, m[k]) {
      var i := OverlayLastWins(ListenerOutcomes(rs), k);
    }
  }

  lemma {:induction false} KeyedRoutes(rs: seq<Resource>)
    ensures GoodRoutes(Overlay(RouteOutcomes(rs)))
  {
    var m := Overlay(RouteOutcomes(rs));
    forall k | k in m ensures HaveDestinations(m[k]) {
      var i := OverlayLastWins(RouteOutcomes(rs), k);
    }
  }

  lemma {:induction false} KeyedClusters(rs: seq<Resource>)
    ensures GoodClusters(Overlay(ClusterOutcomes(rs)))
  {
    var m := Overlay(ClusterOutcomes(rs));
    forall k | k in m ensures m[k].name == k {
      var i := OverlayLastWins(ClusterOutcomes(rs), k);
    }
  }

  ghost predicate GoodUpdate(u: Update) {
    match u
    case ListenerUpdate(m) => GoodListeners(m)
    case RouteUpdate(m) => GoodRoutes(m)
    case ClusterUpdate(m, _) => GoodClusters(m)
    case _ => true
  }

  lemma {:induction false} ResponsesGiveGoodUpdates(resp: Response)
    ensures GoodUpdate(UpdateOf(resp)) && Stage(UpdateOf(resp)) == resp.typeUrl
  {
    match resp.typeUrl
    case ListenerType => KeyedListeners(resp.resources);
    case RouteType => KeyedRoutes(resp.resources);
    case ClusterType => KeyedClusters(resp.resources);
    case _ =>
  }

  lemma {:induction false} KeyedStep(s: AdsView, u: Update)
    requires Keyed(s) && GoodUpdate(u)
    ensures Keyed(Step(s, u))
  {
  }

  /** What a response leaves alone: the subscriptions, and the maps of other types. */
  lemma {:induction false} ApplyFrame(s: AdsView, u: Update)
    ensures var s' := Apply(s, u);
      && s'.subscriptions == s.subscriptions
      && (!u.ListenerUpdate? ==> s'.listeners == s.listeners)
      && (!u.RouteUpdate? ==> s'.routes == s.routes)
      && (!u.ClusterUpdate? ==> s'.clusters == s.clusters)
      && (!u.ClusterUpdate? && !u.EndpointUpdate? ==> s'.endpoints == s.endpoints)
  {
  }

  lemma {:induction false} ResubscribeFollows(s: AdsView, t: TypeUrl)
    ensures FollowedUp(Resubscribe(s, t), t)
  {
  }

  /** The map in which the names needed from the next stage are found is the same. */
  predicate SameSource(s: AdsView, s': AdsView, t: TypeUrl) {
    match t
    case ListenerType => s.listeners == s'.listeners
    case RouteType => s.routes == s'.routes
    case ClusterType => s.clusters == s'.clusters
    case _ => true
  }

  lemma {:induction false} SourceDecidesNeeds(s: AdsView, s': AdsView, t: TypeUrl)
    requires SameSource(s, s', t)
    ensures Needs(s, t) == Needs(s', t)
  {
  }

  lemma {:induction false} OtherSourcesKept(s: AdsView, u: Update, t: TypeUrl)
    requires t != Stage(u)
    ensures SameSource(s, Apply(s, u), t)
  {
    ApplyFrame(s, u);
  }

  lemma {:induction false} StepSource(s: AdsView, u: Update, t: TypeUrl)
    ensures SameSource(Apply(s, u), Step(s, u), t)
  {
  }

  lemma {:induction false} OwnSourceApplied(s: AdsView, s': AdsView, u: Update)
    requires s.subscriptions == s'.subscriptions && SameSource(s, s', Stage(u))
    ensures SameSource(Apply(s, u), Apply(s', u), Stage(u))
  {
  }

  lemma {:induction false} FollowKeeps(subs: map<TypeUrl, seq<string>>, t: TypeUrl, names: seq<string>, u: TypeUrl)
    requires t != u || names == []
    ensures u in Follow(subs, t, names) <==> u in subs
    ensures u in subs ==> Follow(subs, t, names)[u] == subs[u]
  {
  }

  lemma {:induction false} StillFollowed(s: AdsView, u: Update, t: TypeUrl)
    requires FollowedUp(s, t) && t != Stage(u)
    ensures FollowedUp(Step(s, u), t)
  {
    var s1 := Apply(s, u);
    OtherSourcesKept(s, u, t);
    StepSource(s, u, t);
    SourceDecidesNeeds(s, s1, t);
    SourceDecidesNeeds(s1, Step(s, u), t);
    ApplyFrame(s, u);
    if Needs(s, t) != [] {
      FollowKeeps(s.subscriptions, Follower(Stage(u)), Needs(s1, Stage(u)), Follower(t));
    }
  }

  /** The chain LDS, RDS, CDS, EDS stays closed under every response. */
  lemma {:induction false} ClosedStep(s: AdsView, u: Update)
    requires Closed(s)
    ensures Closed(Step(s, u))
  {
    ResubscribeFollows(Apply(s, u), Stage(u));
    if !u.ListenerUpdate? { StillFollowed(s, u, ListenerType); }
    if !u.RouteUpdate? { StillFollowed(s, u, RouteType); }
    if !u.ClusterUpdate? { StillFollowed(s, u, ClusterType); }
  }

  lemma {:induction false} LastForAppend(log: seq<Request>, r: Request, t: TypeUrl)
    ensures LastFor(log + [r], t) == if r.typeUrl == t then Some(r) else LastFor(log, t)
  {
    assert (log + [r])[..|log|] == log;
  }

  /** A new subscription request: for another type, with empty version and nonce, for a changed name set. */
  ghost predicate IsNewSubscription(s: AdsView, s': AdsView, t: TypeUrl, r: Request) {
    && r.typeUrl != t && r.version == "" && r.nonce == ""
    && r.names != Subscription(s, r.typeUrl)
    && s'.subscriptions == s.subscriptions[r.typeUrl := r.names]
  }

  lemma {:induction false} RequestsForShape(s: AdsView, t: TypeUrl, names: seq<string>)
    ensures var u := Follower(t);
      var more, s' := RequestsFor(s.subscriptions, u, names), s.(subscriptions := Follow(s.subscriptions, u, names));
      && |more| <= 1
      && (more == [] ==> s'.subscriptions == s.subscriptions)
      && (more != [] && t != u ==> IsNewSubscription(s, s', t, more[0]))
  {
  }

  /** Exactly one acknowledgement, then at most one new subscription, sent only for a changed name set. */
  lemma {:induction false} RequestsOfOneDigest(st: Stream, d: Digest) returns (ack: Request, more: seq<Request>)
    ensures var st', t := Deliver(st, d), Stage(d.update);
      && ack == Request(t, Subscription(st.ads, t), d.version, d.nonce)
      && st'.log == st.log + [ack] + more
      && |more| <= 1
      && (more == [] ==> st'.ads.subscriptions == st.ads.subscriptions)
      && (more != [] ==> IsNewSubscription(st.ads, st'.ads, t, more[0]))
  {
    var s := Apply(st.ads, d.update);
    ApplyFrame(st.ads, d.update);
    RequestsForShape(s, Stage(d.update), Needs(s, Stage(d.update)));
    ack, more := Ack(s, d), NewRequests(s, Stage(d.update));
  }

  /**
   A response is acknowledged once, with its type, version and nonce; at most one new subscription request follows.
   */
  lemma {:induction false} RequestsOfOneResponse(st: Stream, resp: Response) returns (ack: Request, more: seq<Request>)
    ensures var st' := Deliver(st, DigestOf(resp));
      && ack == Request(resp.typeUrl, Subscription(st.ads, resp.typeUrl), resp.version, resp.nonce)
      && st'.log == st.log + [ack] + more && |more| <= 1
      && (more == [] ==> st'.ads.subscriptions == st.ads.subscriptions)
      && (more != [] ==> IsNewSubscription(st.ads, st'.ads, resp.typeUrl, more[0]))
  {
    ResponsesGiveGoodUpdates(resp);
    ack, more := RequestsOfOneDigest(st, DigestOf(resp));
  }

  /** A connection starts with nothing held and one request, for the listeners by their sorted names; the cell stays. */
  lemma {:induction false} ConnectionStarts(listenerNames: seq<string>, cell: Cell)
    ensures var st := Connect(listenerNames, cell);
      && st.cell == cell && |st.log| == 1 && st.log[0] == Request(ListenerType, st.log[0].names, "", "")
      && StrictlySorted(st.log[0].names) && (forall n :: n in st.log[0].names <==> n in listenerNames)
      && st.ads == AdsView(map[ListenerType := st.log[0].names], map[], map[], map[], map[])
  {
    var names := SortedUnique(listenerNames);
    forall n ensures n in names <==> n in listenerNames {
      assert n in Elements(names) <==> n in Elements(listenerNames);
    }
  }

  lemma {:induction false} LogAdvances(st: Stream, st': Stream, ack: Request, more: seq<Request>, t: TypeUrl)
    requires LogCurrentFor(st, t) && ack.names == Subscription(st.ads, ack.typeUrl)
    requires st'.log == st.log + [ack] + more && |more| <= 1
    requires more == [] ==> st'.ads.subscriptions == st.ads.subscriptions
    requires more != [] ==> IsNewSubscription(st.ads, st'.ads, ack.typeUrl, more[0])
    ensures LogCurrentFor(st', t)
  {
    LastForAppend(st.log, ack, t);
    if more == [] {
      assert st'.log == st.log + [ack];
    } else {
      assert st'.log == st.log + [ack] + [more[0]];
      LastForAppend(st.log + [ack], more[0], t);
    }
  }

  lemma {:induction false} LogStep(st: Stream, d: Digest)
    requires LogCurrent(st)
    ensures LogCurrent(Deliver(st, d))
  {
    var ack, more := RequestsOfOneDigest(st, d);
    forall t: TypeUrl ensures LogCurrentFor(Deliver(st, d), t) {
      assert LogCurrentFor(st, t);
      LogAdvances(st, Deliver(st, d), ack, more, t);
    }
  }

  lemma {:induction false} InvStep(st: Stream, d: Digest)
    requires Inv(st) && GoodUpdate(d.update)
    ensures Inv(Deliver(st, d))
  {
    KeyedStep(st.ads, d.update);
    ClosedStep(st.ads, d.update);
    LogStep(st, d);
  }

  lemma {:induction false} InvConnect(listenerNames: seq<string>, cell: Cell)
    ensures Inv(Connect(listenerNames, cell))
  {
    var st := Connect(listenerNames, cell);
    assert RouteNameSet(map[]) == {} && ClusterNameSet(map[]) == {} && EdsNameSet(map[]) == {};
    forall t: TypeUrl ensures LogCurrentFor(st, t) {
      LastForAppend([], st.log[0], t);
      assert [] + [st.log[0]] == st.log;
    }
  }

  /** Over every run: the maps are keyed, the discovery chain is closed and the request log is current. */
  lemma {:induction false} EveryRunKeepsInv(listenerNames: seq<string>, cell: Cell, rs: seq<Response>)
    ensures Inv(ReceiveAll(Connect(listenerNames, cell), rs))
  {
    if rs == [] {
      InvConnect(listenerNames, cell);
    } else {
      var before, last := ReceiveAll(Connect(listenerNames, cell), rs[..|rs| - 1]), rs[|rs| - 1];
      EveryRunKeepsInv(listenerNames, cell, rs[..|rs| - 1]);
      ResponsesGiveGoodUpdates(last);
      InvStep(before, DigestOf(last));
    }
  }

  // ---------- redelivery ----------

  lemma {:induction false} RefreshTwice<T>(m: map<string, T>, asked: seq<string>, arrived: map<string, T>)
    ensures Refresh(Refresh(m, asked, arrived), asked, arrived) == Refresh(m, asked, arrived)
  {
  }

  lemma {:induction false} ApplyTwice(s: AdsView, u: Update)
    ensures Apply(Apply(s, u), u) == Apply(s, u)
  {
    var asked := Subscription(s, Stage(u));
    match u
    case ListenerUpdate(m) => RefreshTwice(s.listeners, asked, m);
    case RouteUpdate(m) => RefreshTwice(s.routes, asked, m);
    case ClusterUpdate(m, inline) =>
      RefreshTwice(s.clusters, asked, m);
      assert s.endpoints + inline + inline == s.endpoints + inline;
    case EndpointUpdate(m) => RefreshTwice(s.endpoints, asked, m);
    case NoUpdate(_) =>
  }

  /** Applying a response reads no subscription but its own. */
  lemma {:induction false} ApplyIgnoresOthers(s: AdsView, u: Update, t: TypeUrl, names: seq<string>)
    requires t != Stage(u) || names == []
    ensures var subs := Follow(s.subscriptions, t, names);
      Apply(s.(subscriptions := subs), u) == Apply(s, u).(subscriptions := subs)
  {
    var s' := s.(subscriptions := Follow(s.subscriptions, t, names));
    assert Subscription(s', Stage(u)) == Subscription(s, Stage(u));
  }

  lemma {:induction false} StepTwice(s: AdsView, u: Update)
    ensures Apply(Step(s, u), u) == Step(s, u)
  {
    var s1, t := Apply(s, u), Stage(u);
    ApplyTwice(s, u);
    ApplyIgnoresOthers(s1, u, Follower(t), Needs(s1, t));
  }

  lemma {:induction false} FollowTwice(m: map<TypeUrl, seq<string>>, t: TypeUrl, names: seq<string>)
    ensures var m' := Follow(m, t, names); Follow(m', t, names) == m' && RequestsFor(m', t, names) == []
  {
  }

  lemma {:induction false} ResubscribeTwice(s: AdsView, t: TypeUrl)
    ensures Resubscribe(Resubscribe(s, t), t) == Resubscribe(s, t)
    ensures NewRequests(Resubscribe(s, t), t) == []
  {
    SourceDecidesNeeds(Resubscribe(s, t), s, t);
    FollowTwice(s.subscriptions, Follower(t), Needs(s, t));
  }

  /** Redelivering a response changes nothing: it is acknowledged again and nothing is published. */
  lemma {:induction false} RedeliveryOnlyAcknowledges(st: Stream, d: Digest)
    ensures var st1 := Deliver(st, d);
      Deliver(st1, d) == st1.(log := st1.log + [Ack(st1.ads, d)])
  {
    var s2 := Step(st.ads, d.update);
    StepTwice(st.ads, d.update);
    ResubscribeTwice(Apply(st.ads, d.update), Stage(d.update));
    var log := Deliver(st, d).log + [Ack(s2, d)];
    assert log + [] == log;
  }

  // ---------- reordering ----------

  /** Neither update's subscription is derived from the other's resources, and they write different maps. */
  predicate Independent(a: Update, b: Update) {
    || (a.ListenerUpdate? && (b.ClusterUpdate? || b.EndpointUpdate?))
    || (a.RouteUpdate? && b.EndpointUpdate?)
  }

  lemma {:induction false} AppliesCommute(s: AdsView, a: Update, b: Update)
    requires Independent(a, b)
    ensures Apply(Apply(s, a), b) == Apply(Apply(s, b), a)
  {
  }

  lemma {:induction false} FollowsCommute(
    m: map<TypeUrl, seq<string>>, t: TypeUrl, n: seq<string>, u: TypeUrl, k: seq<string>)
    requires t != u || k == []
    ensures Follow(Follow(m, t, n), u, k) == Follow(Follow(m, u, k), t, n)
  {
  }

  /** `b` after `a`, when `b`'s own subscription is not the one `a` may change. */
  lemma {:induction false} StepAfter(s: AdsView, a: Update, b: Update)
    requires Follower(Stage(a)) != Stage(b) || Needs(Apply(s, a), Stage(a)) == []
    ensures Step(Step(s, a), b) ==
      Resubscribe(Apply(Apply(s, a), b).(subscriptions := Step(s, a).subscriptions), Stage(b))
  {
    ApplyIgnoresOthers(Apply(s, a), b, Follower(Stage(a)), Needs(Apply(s, a), Stage(a)));
  }

  lemma {:induction false} NeedsUnaffected(s: AdsView, a: Update, b: Update, subs: map<TypeUrl, seq<string>>)
    requires Independent(a, b) || Independent(b, a)
    ensures Needs(Apply(Apply(s, a), b).(subscriptions := subs), Stage(b)) == Needs(Apply(s, b), Stage(b))
  {
    var sa := Apply(s, a);
    ApplyFrame(s, a);
    OtherSourcesKept(s, a, Stage(b));
    OwnSourceApplied(s, sa, b);
    var sab := Apply(sa, b);
    SourceDecidesNeeds(Apply(s, b), sab, Stage(b));
    SourceDecidesNeeds(sab, sab.(subscriptions := subs), Stage(b));
  }

  /** Both applied, and both followed up from the maps of its own response. */
  function Combined(s: AdsView, a: Update, b: Update): AdsView {
    var more := Follow(s.subscriptions, Follower(Stage(a)), Needs(Apply(s, a), Stage(a)));
    Apply(Apply(s, a), b).(subscriptions := Follow(more, Follower(Stage(b)), Needs(Apply(s, b), Stage(b))))
  }

  lemma {:induction false} IndependentStages(a: Update, b: Update)
    requires Independent(a, b) || Independent(b, a)
    ensures Follower(Stage(a)) != Stage(b)
  {
  }

  lemma {:induction false} SubscriptionsAfter(s: AdsView, a: Update)
    ensures Step(s, a).subscriptions == Follow(s.subscriptions, Follower(Stage(a)), Needs(Apply(s, a), Stage(a)))
  {
    ApplyFrame(s, a);
  }

  lemma {:induction false} StepsApart(s: AdsView, a: Update, b: Update)
    requires Independent(a, b) || Independent(b, a)
    ensures Step(Step(s, a), b) == Combined(s, a, b)
  {
    IndependentStages(a, b);
    StepAfter(s, a, b);
    SubscriptionsAfter(s, a);
    NeedsUnaffected(s, a, b, Step(s, a).subscriptions);
  }

  lemma {:induction false} CombinedCommutes(s: AdsView, a: Update, b: Update)
    requires Independent(a, b)
    ensures Combined(s, a, b) == Combined(s, b, a)
  {
    AppliesCommute(s, a, b);
    FollowsCommute(s.subscriptions, Follower(Stage(a)), Needs(Apply(s, a), Stage(a)),
                   Follower(Stage(b)), Needs(Apply(s, b), Stage(b)));
  }

  /** Independent responses commute. */
  lemma {:induction false} IndependentResponsesCommute(s: AdsView, a: Update, b: Update)
    requires Independent(a, b)
    ensures Step(Step(s, a), b) == Step(Step(s, b), a)
  {
    StepsApart(s, a, b);
    StepsApart(s, b, a);
    CombinedCommutes(s, a, b);
  }

  // ---------- the only way to be incomplete ----------

  lemma {:induction false} SortedKeysDistinct(keys: set<string>, i: nat, j: nat)
    requires i < j < |Sorted(keys)|
    ensures Sorted(keys)[i] != Sorted(keys)[j]
  {
    LessAsymmetric(Sorted(keys)[i], Sorted(keys)[j]);
  }

  lemma {:induction false} SortedIndex(keys: set<string>, k: string) returns (i: nat)
    requires k in keys
    ensures i < |Sorted(keys)| && Sorted(keys)[i] == k
  {
    assert k in Elements(Sorted(keys));
    i :| 0 <= i < |Sorted(keys)| && Sorted(keys)[i] == k;
  }

  lemma {:induction false} AttachedHaveDestinations(routes: map<string, seq<VirtualHost>>, names: seq<string>)
    requires GoodRoutes(routes)
    ensures HaveDestinations(Attached(routes, names))
  {
    if names != [] { AttachedHaveDestinations(routes, names[..|names| - 1]); }
  }

  lemma {:induction false} ListenersUnique(
    listeners: map<string, ListenerSnapshot>, routes: map<string, seq<VirtualHost>>)
    requires GoodListeners(listeners)
    ensures UniqueListeners(ListenersOf(listeners, routes)) && BindsAgree(ListenersOf(listeners, routes))
  {
    var ks, ls := Sorted(listeners.Keys), ListenersOf(listeners, routes);
    forall i, j | 0 <= i < j < |ls| ensures ls[i].name != ls[j].name && Compatible(ls[i], ls[j]) {
      SortedKeysDistinct(listeners.Keys, i, j);
      assert GoodListener(ks[i], listeners[ks[i]]) && GoodListener(ks[j], listeners[ks[j]]);
    }
  }

  lemma {:induction false} ClustersUnique(clusters: map<string, ClusterSnapshot>, endpoints: map<string, seq<Endpoint>>)
    requires GoodClusters(clusters)
    ensures UniqueClusters(ClustersOf(clusters, endpoints))
    ensures ClusterNames(ClustersOf(clusters, endpoints)) == clusters.Keys
  {
    var ks, cs := Sorted(clusters.Keys), ClustersOf(clusters, endpoints);
    forall i, j | 0 <= i < j < |cs| ensures cs[i].name != cs[j].name { SortedKeysDistinct(clusters.Keys, i, j); }
    forall k | k in clusters ensures k in ClusterNames(cs) {
      var i := SortedIndex(clusters.Keys, k);
      assert cs[i] in cs && cs[i].name == k;
    }
  }

  /** Every destination of every attached virtual host is a known cluster. */
  ghost predicate Complete(s: AdsView) {
    forall k | k in s.listeners :: Destinations(HostsOf(s.listeners[k], s.routes)) <= s.clusters.Keys
  }

  lemma {:induction false} ResolveIsInclusion(hosts: seq<VirtualHost>, names: set<string>)
    requires HaveDestinations(hosts)
    ensures HostsResolve(hosts, names) <==> Destinations(hosts) <= names
  {
    if Destinations(hosts) <= names {
      forall h, r | h in hosts && r in h.routes ensures DestinationsExist(r, names) {
        forall d | d in r.weightedClusters ensures d.name in names { assert d.name in Destinations(hosts); }
      }
    }
    if HostsResolve(hosts, names) {
      forall n | n in Destinations(hosts) ensures n in names {
        var h, r, d :| h in hosts && r in h.routes && d in r.weightedClusters && d.name == n;
        assert DestinationsExist(r, names);
      }
    }
  }

  lemma {:induction false} HostsHaveDestinations(s: AdsView, k: string)
    requires Keyed(s) && k in s.listeners
    ensures HaveDestinations(HostsOf(s.listeners[k], s.routes))
  {
    assert GoodListener(k, s.listeners[k]);
    AttachedHaveDestinations(s.routes, s.listeners[k].routeNames);
  }

  lemma {:induction false} ListenerResolves(s: AdsView, k: string)
    requires Keyed(s) && k in s.listeners
    ensures var l := ListenerIn(s.listeners[k], s.routes);
      && l in ListenersOf(s.listeners, s.routes)
      && (HostsResolve(l.virtualHosts, s.clusters.Keys) <==>
          Destinations(HostsOf(s.listeners[k], s.routes)) <= s.clusters.Keys)
  {
    HostsHaveDestinations(s, k);
    ResolveIsInclusion(HostsOf(s.listeners[k], s.routes), s.clusters.Keys);
    var i := SortedIndex(s.listeners.Keys, k);
    assert ListenersOf(s.listeners, s.routes)[i] == ListenerIn(s.listeners[k], s.routes);
  }

  lemma {:induction false} ListenerOrigin(s: AdsView, l: Listener) returns (k: string)
    requires l in ListenersOf(s.listeners, s.routes)
    ensures k in s.listeners && l == ListenerIn(s.listeners[k], s.routes)
  {
    var ls := ListenersOf(s.listeners, s.routes);
    var i :| 0 <= i < |ls| && ls[i] == l;
    k := Sorted(s.listeners.Keys)[i];
  }

  lemma {:induction false} ListenersResolve(s: AdsView)
    requires Keyed(s)
    ensures Complete(s) <==>
      forall l | l in ListenersOf(s.listeners, s.routes) :: HostsResolve(l.virtualHosts, s.clusters.Keys)
  {
    if Complete(s) {
      forall l | l in ListenersOf(s.listeners, s.routes) ensures HostsResolve(l.virtualHosts, s.clusters.Keys) {
        var k := ListenerOrigin(s, l);
        ListenerResolves(s, k);
      }
    }
    if k :| k in s.listeners && !(Destinations(HostsOf(s.listeners[k], s.routes)) <= s.clusters.Keys) {
      ListenerResolves(s, k);
    }
  }

  /** The configuration validates exactly when it is complete. */
  lemma {:induction false} ValidatesIffComplete(s: AdsView, version: string)
    requires Keyed(s)
    ensures WellFormed(ConfigOf(s, version)) <==> Complete(s)
  {
    ListenersUnique(s.listeners, s.routes);
    ClustersUnique(s.clusters, s.endpoints);
    ListenersResolve(s);
  }

  lemma {:induction false} FaultyRoute(
    ls: seq<Listener>, names: set<string>, c: Conflict)
    returns (l: Listener, h: VirtualHost, r: Route)
    requires SomeListenerFaults(c, ls, names)
    ensures l in ls && h in l.virtualHosts && r in h.routes && RouteFaults(c, l.name, r, names)
  {
    var i :| 0 <= i < |ls| && SomeHostFaults(c, ls[i].name, ls[i].virtualHosts, names);
    l := ls[i];
    var j :| 0 <= j < |l.virtualHosts| && SomeRouteFaults(c, l.name, l.virtualHosts[j].routes, names);
    h := l.virtualHosts[j];
    var k :| 0 <= k < |h.routes| && RouteFaults(c, l.name, h.routes[k], names);
    r := h.routes[k];
  }

  lemma {:induction false} MissingOnly(s: AdsView, c: Conflict)
    requires Keyed(s) && c in DestinationConflicts(ListenersOf(s.listeners, s.routes), s.clusters.Keys)
    ensures c.MissingCluster? && c.cluster !in s.clusters
  {
    var ls := ListenersOf(s.listeners, s.routes);
    DestinationConflictsExact(ls, s.clusters.Keys, c);
    var l, h, r := FaultyRoute(ls, s.clusters.Keys, c);
    var k := ListenerOrigin(s, l);
    HostsHaveDestinations(s, k);
  }

  /** Whatever is wrong with the configuration of a keyed state is a missing cluster. */
  lemma {:induction false} OnlyClustersCanBeMissing(s: AdsView, version: string, c: Conflict)
    requires Keyed(s) && c in Conflicts(ConfigOf(s, version))
    ensures c.MissingCluster? && c.cluster !in s.clusters
  {
    var cfg := ConfigOf(s, version);
    ListenersUnique(s.listeners, s.routes);
    ClustersUnique(s.clusters, s.endpoints);
    ListenerConflictsExact(cfg.listeners);
    ClusterConflictsExact(cfg.clusters);
    assert Conflicts(cfg) == DestinationConflicts(cfg.listeners, s.clusters.Keys);
    MissingOnly(s, c);
  }

  /** Over every run: incomplete only by missing clusters, and valid exactly when none is missing. */
  lemma {:induction false} EveryRunIncompleteOnlyByClusters(
    listenerNames: seq<string>, cell: Cell, rs: seq<Response>, version: string)
    ensures var s := ReceiveAll(Connect(listenerNames, cell), rs).ads;
      && (Conflicts(ConfigOf(s, version)) == [] <==> Complete(s))
      && forall c | c in Conflicts(ConfigOf(s, version)) :: c.MissingCluster? && c.cluster !in s.clusters
  {
    EveryRunKeepsInv(listenerNames, cell, rs);
    var s := ReceiveAll(Connect(listenerNames, cell), rs).ads;
    ValidatesIffComplete(s, version);
    ConflictsExact(ConfigOf(s, version));
    forall c | c in Conflicts(ConfigOf(s, version)) ensures c.MissingCluster? && c.cluster !in s.clusters {
      OnlyClustersCanBeMissing(s, version, c);
    }
  }
}
