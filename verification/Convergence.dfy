/**
 Convergence: once a server has answered the listener, route, cluster and endpoint subscriptions in turn,
 the client's configuration is the direct join of the server's tables.
 */
module Convergence {
  import opened Wrappers
  import opened Text
  import opened Config
  import opened Messages
  import opened Translation
  import opened Discovery
  import opened DiscoveryRuns

  // ---------- the server's tables and their join ----------

  /** What a server holds, in the client's terms. */
  datatype Tables = Tables(
    listeners: map<string, ListenerSnapshot>, routes: map<string, seq<VirtualHost>>,
    clusters: map<string, ClusterSnapshot>, endpoints: map<string, seq<Endpoint>>)

  function Restrict<T>(m: map<string, T>, names: set<string>): map<string, T> {
    map k | k in m && k in names :: m[k]
  }

  /** What a subscription asks for; the empty subscription asks for everything. */
  function Asked<T>(m: map<string, T>, asked: seq<string>): map<string, T> {
    if asked == [] then m else Restrict(m, Elements(asked))
  }

  /** The clusters that the route configurations of the asked listeners lead to. */
  function Reach(tab: Tables, asked: seq<string>): set<string> {
    ClusterNameSet(Restrict(tab.routes, RouteNameSet(Asked(tab.listeners, asked))))
  }

  /** All clusters that the routes of the asked listeners lead to, those of inline route configurations included. */
  function Led(tab: Tables, asked: seq<string>): set<string> {
    LedFrom(Asked(tab.listeners, asked), tab.routes)
  }

  function LedFrom(ls: map<string, ListenerSnapshot>, routes: map<string, seq<VirtualHost>>): set<string> {
    set k, n | k in ls && n in Destinations(HostsOf(ls[k], routes)) :: n
  }

  /**
   Listeners asked for, with every route configuration they name; the clusters these lead to, with their endpoints.
   */
  function Join(tab: Tables, asked: seq<string>, version: string): RuntimeConfig {
    RuntimeConfig(
      ConfigVersion(version),
      ListenersOf(Asked(tab.listeners, asked), tab.routes),
      ClustersOf(Restrict(tab.clusters, Reach(tab, asked)), tab.endpoints), [])
  }

  ghost predicate GoodTables(tab: Tables) {
    GoodListeners(tab.listeners) && GoodRoutes(tab.routes) && GoodClusters(tab.clusters)
  }

  // ---------- one turn per type ----------

  predicate Skips(s: AdsView, t: TypeUrl) {
    t != ListenerType && Subscription(s, t) == []
  }

  /** The server's answer to a subscription; a cluster answer may carry any endpoints inline. */
  function AnswerTo(tab: Tables, t: TypeUrl, asked: seq<string>, inline: map<string, seq<Endpoint>>): Update {
    match t
    case ListenerType => ListenerUpdate(Asked(tab.listeners, asked))
    case RouteType => RouteUpdate(Asked(tab.routes, asked))
    case ClusterType => ClusterUpdate(Asked(tab.clusters, asked), inline)
    case EndpointType => EndpointUpdate(Asked(tab.endpoints, asked))
    case OtherType(url) => NoUpdate(url)
  }

  function Turn(s: AdsView, tab: Tables, t: TypeUrl, inline: map<string, seq<Endpoint>>): AdsView {
    if Skips(s, t) then s else Step(s, AnswerTo(tab, t, Subscription(s, t), inline))
  }

  function Synced(s: AdsView, tab: Tables, inline: map<string, seq<Endpoint>>): AdsView {
    var s1 := Turn(s, tab, ListenerType, inline);
    var s2 := Turn(s1, tab, RouteType, inline);
    var s3 := Turn(s2, tab, ClusterType, inline);
    Turn(s3, tab, EndpointType, inline)
  }

  /** The client holds no listener outside its subscription. */
  ghost predicate InScope(s: AdsView) {
    Subscription(s, ListenerType) == [] || s.listeners.Keys <= Elements(Subscription(s, ListenerType))
  }

  /** A listener response under a non-empty subscription brings only asked names. */
  ghost predicate BringsAsked(u: Update, asked: seq<string>) {
    u.ListenerUpdate? && asked != [] ==> u.listeners.Keys <= Elements(asked)
  }

  /**
   A step keeps the listener subscription, and ends in scope exactly if it started there and brought only asked names.
   */
  lemma {:induction false} InScopeStep(s: AdsView, u: Update)
    ensures Subscription(Step(s, u), ListenerType) == Subscription(s, ListenerType)
    ensures InScope(Step(s, u)) <==> InScope(s) && BringsAsked(u, Subscription(s, ListenerType))
  {
    ApplyFrame(s, u);
    var asked := Subscription(s, ListenerType);
    assert Follower(Stage(u)) == ListenerType ==> Needs(Apply(s, u), Stage(u)) == [];
    assert Step(s, u).listeners == Apply(s, u).listeners;
    if u.ListenerUpdate? && asked != [] {
      assert Step(s, u).listeners.Keys == (s.listeners.Keys - Elements(asked)) + u.listeners.Keys;
    }
  }

  ghost predicate AllBringAsked(history: seq<Response>, asked: seq<string>) {
    forall i | 0 <= i < |history| :: BringsAsked(UpdateOf(history[i]), asked)
  }

  lemma {:induction false} AllBringAskedNext(history: seq<Response>, resp: Response, asked: seq<string>)
    ensures AllBringAsked(history + [resp], asked)
      <==> AllBringAsked(history, asked) && BringsAsked(UpdateOf(resp), asked)
  {
    var all := history + [resp];
    assert forall i | 0 <= i < |history| :: all[i] == history[i];
    assert all[|history|] == resp;
  }

  lemma {:induction false} ReceiveNext(st: Stream, history: seq<Response>, resp: Response)
    ensures ReceiveAll(st, history + [resp]).ads == Step(ReceiveAll(st, history).ads, UpdateOf(resp))
  {
    assert (history + [resp])[..|history|] == history;
  }

  /** A connection is in scope exactly if no response ever brought a listener that was not asked for. */
  lemma {:induction false} InScopeIffOnlyAsked(listenerNames: seq<string>, cell: Cell, history: seq<Response>)
    ensures var s, asked := ReceiveAll(Connect(listenerNames, cell), history).ads, SortedUnique(listenerNames);
      Subscription(s, ListenerType) == asked && (InScope(s) <==> AllBringAsked(history, asked))
  {
    if history != [] {
      var before, resp := history[..|history| - 1], history[|history| - 1];
      assert history == before + [resp];
      InScopeIffOnlyAsked(listenerNames, cell, before);
      InScopeStep(ReceiveAll(Connect(listenerNames, cell), before).ads, UpdateOf(resp));
      ReceiveNext(Connect(listenerNames, cell), before, resp);
      AllBringAskedNext(before, resp, SortedUnique(listenerNames));
    }
  }

  ghost predicate Same<T(!new)>(m: map<string, T>, m': map<string, T>, k: string) {
    (k in m <==> k in m') && (k in m ==> m[k] == m'[k])
  }

  ghost predicate SameOn<T(!new)>(m: map<string, T>, m': map<string, T>, names: set<string>) {
    forall k | k in names :: Same(m, m', k)
  }

  lemma {:induction false} RefreshFromTable<T(!new)>(m: map<string, T>, tab: map<string, T>, asked: seq<string>)
    requires asked != []
    ensures SameOn(Refresh(m, asked, Asked(tab, asked)), tab, Elements(asked))
    ensures m == map[] ==> Refresh(m, asked, Asked(tab, asked)) == Restrict(tab, Elements(asked))
  {
  }

  lemma {:induction false} TurnClosed(s: AdsView, tab: Tables, t: TypeUrl, inline: map<string, seq<Endpoint>>)
    requires Closed(s)
    ensures Closed(Turn(s, tab, t, inline))
  {
    if !Skips(s, t) { ClosedStep(s, AnswerTo(tab, t, Subscription(s, t), inline)); }
  }

  /** A stage whose follower has no subscription yet subscribes to exactly what it needs. */
  lemma {:induction false} FirstSubscription(s: AdsView, u: Update)
    requires Stage(u) in {ListenerType, RouteType, ClusterType}
    ensures var s', f := Step(s, u), Follower(Stage(u));
      && (Subscription(s, f) == [] ==> Subscription(s', f) == Needs(s', Stage(u)))
      && forall t: TypeUrl :: t != f ==> Subscription(s', t) == Subscription(s, t)
  {
    ApplyFrame(s, u);
    var s1, f := Apply(s, u), Follower(Stage(u));
    assert Step(s, u).subscriptions == Follow(s.subscriptions, f, Needs(s1, Stage(u)));
    assert Needs(Step(s, u), Stage(u)) == Needs(s1, Stage(u));
  }

  lemma {:induction false} ListenerTurn(s: AdsView, tab: Tables, inline: map<string, seq<Endpoint>>)
    requires InScope(s)
    ensures var s1 := Turn(s, tab, ListenerType, inline);
      && s1.listeners == Asked(tab.listeners, Subscription(s, ListenerType))
      && s1.routes == s.routes && s1.clusters == s.clusters && s1.endpoints == s.endpoints
  {
    var asked := Subscription(s, ListenerType);
    assert Refresh(s.listeners, asked, Asked(tab.listeners, asked)) == Asked(tab.listeners, asked);
  }

  lemma {:induction false} RouteTurn(s: AdsView, tab: Tables, inline: map<string, seq<Endpoint>>)
    requires FollowedUp(s, ListenerType)
    ensures var s2 := Turn(s, tab, RouteType, inline);
      && s2.listeners == s.listeners && s2.clusters == s.clusters && s2.endpoints == s.endpoints
      && SameOn(s2.routes, tab.routes, RouteNameSet(s.listeners))
      && (s.routes == map[] && Subscription(s, RouteType) == Needs(s, ListenerType) ==>
            s2.routes == Restrict(tab.routes, RouteNameSet(s.listeners)))
  {
    var names := Subscription(s, RouteType);
    if names != [] {
      RefreshFromTable(s.routes, tab.routes, names);
    }
  }

  lemma {:induction false} ClusterTurn(s: AdsView, tab: Tables, inline: map<string, seq<Endpoint>>)
    requires FollowedUp(s, RouteType)
    ensures var s3 := Turn(s, tab, ClusterType, inline);
      && s3.listeners == s.listeners && s3.routes == s.routes
      && SameOn(s3.clusters, tab.clusters, ClusterNameSet(s.routes))
      && (s.clusters == map[] && Subscription(s, ClusterType) == Needs(s, RouteType) ==>
            s3.clusters == Restrict(tab.clusters, ClusterNameSet(s.routes)))
  {
    var names := Subscription(s, ClusterType);
    if names != [] {
      RefreshFromTable(s.clusters, tab.clusters, names);
    }
  }

  lemma {:induction false} EndpointTurn(s: AdsView, tab: Tables, inline: map<string, seq<Endpoint>>)
    requires FollowedUp(s, ClusterType)
    ensures var s4 := Turn(s, tab, EndpointType, inline);
      && s4.listeners == s.listeners && s4.routes == s.routes && s4.clusters == s.clusters
      && SameOn(s4.endpoints, tab.endpoints, EdsNameSet(s.clusters))
  {
    var names := Subscription(s, EndpointType);
    if names != [] {
      RefreshFromTable(s.endpoints, tab.endpoints, names);
    }
  }

  // ---------- four turns ----------

  /** After any history: each stage agrees with the server on every name the stage before it needs. */
  lemma {:induction false} SyncedAgrees(s: AdsView, tab: Tables, inline: map<string, seq<Endpoint>>)
    requires Closed(s) && InScope(s)
    ensures var t := Synced(s, tab, inline);
      && t.listeners == Asked(tab.listeners, Subscription(s, ListenerType))
      && SameOn(t.routes, tab.routes, RouteNameSet(t.listeners))
      && SameOn(t.clusters, tab.clusters, ClusterNameSet(t.routes))
      && SameOn(t.endpoints, tab.endpoints, EdsNameSet(t.clusters))
  {
    var s1 := Turn(s, tab, ListenerType, inline);
    ListenerTurn(s, tab, inline);
    TurnClosed(s, tab, ListenerType, inline);
    var s2 := Turn(s1, tab, RouteType, inline);
    RouteTurn(s1, tab, inline);
    TurnClosed(s1, tab, RouteType, inline);
    var s3 := Turn(s2, tab, ClusterType, inline);
    ClusterTurn(s2, tab, inline);
    TurnClosed(s2, tab, ClusterType, inline);
    EndpointTurn(s3, tab, inline);
  }

  ghost predicate IsFresh(s: AdsView, asked: seq<string>) {
    s == FRESH.(subscriptions := map[ListenerType := asked])
  }

  lemma {:induction false} NothingNeedsNothing()
    ensures RouteNameSet(map[]) == {} && ClusterNameSet(map[]) == {} && EdsNameSet(map[]) == {}
  {
  }

  /** From a fresh stream: the asked listeners, and a subscription to exactly the routes they need. */
  lemma {:induction false} FreshListeners(
    s: AdsView, asked: seq<string>, tab: Tables, inline: map<string, seq<Endpoint>>)
    requires IsFresh(s, asked)
    ensures var s1 := Turn(s, tab, ListenerType, inline);
      && s1.listeners == Asked(tab.listeners, asked) && s1.routes == map[] && s1.clusters == map[]
      && Subscription(s1, RouteType) == Needs(s1, ListenerType) && Subscription(s1, ClusterType) == []
  {
    ListenerTurn(s, tab, inline);
    FirstSubscription(s, AnswerTo(tab, ListenerType, asked, inline));
  }

  /** Then exactly those routes, and a subscription to exactly the clusters they need. */
  lemma {:induction false} FreshRoutes(s1: AdsView, tab: Tables, inline: map<string, seq<Endpoint>>)
    requires s1.routes == map[] && s1.clusters == map[]
    requires Subscription(s1, RouteType) == Needs(s1, ListenerType) && Subscription(s1, ClusterType) == []
    ensures var s2 := Turn(s1, tab, RouteType, inline);
      && s2.routes == Restrict(tab.routes, RouteNameSet(s1.listeners)) && s2.clusters == map[]
      && Subscription(s2, ClusterType) == Needs(s2, RouteType)
  {
    NothingNeedsNothing();
    RouteTurn(s1, tab, inline);
    if !Skips(s1, RouteType) {
      FirstSubscription(s1, AnswerTo(tab, RouteType, Subscription(s1, RouteType), inline));
    }
  }

  /** From a fresh stream the client ends up with exactly the clusters the listeners lead to. */
  lemma {:induction false} FreshClusters(
    s: AdsView, asked: seq<string>, tab: Tables, inline: map<string, seq<Endpoint>>)
    requires IsFresh(s, asked)
    ensures var t := Synced(s, tab, inline);
      && t.routes == Restrict(tab.routes, RouteNameSet(Asked(tab.listeners, asked)))
      && t.clusters == Restrict(tab.clusters, Reach(tab, asked))
  {
    var s1 := Turn(s, tab, ListenerType, inline);
    FreshListeners(s, asked, tab, inline);
    FreshRoutes(s1, tab, inline);
    var s2 := Turn(s1, tab, RouteType, inline);
    ClusterTurn(s2, tab, inline);
    TurnKeepsClusters(Turn(s2, tab, ClusterType, inline), tab, inline);
  }

  lemma {:induction false} TurnKeepsClusters(s: AdsView, tab: Tables, inline: map<string, seq<Endpoint>>)
    ensures var s4 := Turn(s, tab, EndpointType, inline); s4.routes == s.routes && s4.clusters == s.clusters
  {
  }

  // ---------- configurations ----------

  lemma {:induction false} AttachedSame(
    r: map<string, seq<VirtualHost>>, r': map<string, seq<VirtualHost>>, names: seq<string>)
    requires SameOn(r, r', Elements(names))
    ensures Attached(r, names) == Attached(r', names)
  {
    if names != [] {
      var n := |names| - 1;
      assert Elements(names[..n]) <= Elements(names) && names[n] in Elements(names);
      AttachedSame(r, r', names[..n]);
      assert Same(r, r', names[n]);
    }
  }

  lemma {:induction false} ListenersSame(
    ls: map<string, ListenerSnapshot>, r: map<string, seq<VirtualHost>>, r': map<string, seq<VirtualHost>>)
    requires SameOn(r, r', RouteNameSet(ls))
    ensures ListenersOf(ls, r) == ListenersOf(ls, r')
  {
    forall k | k in ls ensures ListenerIn(ls[k], r) == ListenerIn(ls[k], r') {
      assert Elements(ls[k].routeNames) <= RouteNameSet(ls);
      AttachedSame(r, r', ls[k].routeNames);
    }
  }

  lemma {:induction false} ClustersSame(
    cs: map<string, ClusterSnapshot>, e: map<string, seq<Endpoint>>, e': map<string, seq<Endpoint>>)
    requires SameOn(e, e', EdsNameSet(cs))
    ensures ClustersOf(cs, e) == ClustersOf(cs, e')
  {
    forall k | k in cs ensures ClusterIn(cs[k], e) == ClusterIn(cs[k], e') {
      assert Same(e, e', cs[k].edsServiceName);
    }
  }

  /** Convergence from a fresh stream, for every server: the configuration is the join. */
  lemma {:induction false} FreshStreamReachesJoin(
    s: AdsView, asked: seq<string>, tab: Tables, inline: map<string, seq<Endpoint>>, version: string)
    requires IsFresh(s, asked)
    ensures ConfigOf(Synced(s, tab, inline), version) == Join(tab, asked, version)
  {
    assert RouteNameSet(map[]) == {} && ClusterNameSet(map[]) == {} && EdsNameSet(map[]) == {};
    SyncedAgrees(s, tab, inline);
    FreshClusters(s, asked, tab, inline);
    var t := Synced(s, tab, inline);
    ListenersSame(t.listeners, t.routes, tab.routes);
    ClustersSame(t.clusters, t.endpoints, tab.endpoints);
  }

  // ---------- after any history ----------

  lemma {:induction false} FindPrefix(cs: seq<Cluster>, i: nat)
    requires UniqueClusters(cs) && i < |cs|
    ensures FindCluster(cs, cs[i].name) == Some(cs[i])
    decreases |cs|
  {
    if i > 0 {
      assert forall a, b | 0 <= a < b < |cs| - 1 :: cs[1..][a].name != cs[1..][b].name;
      FindPrefix(cs[1..], i - 1);
    }
  }

  lemma {:induction false} FindInClusters(cs: map<string, ClusterSnapshot>, e: map<string, seq<Endpoint>>, n: string)
    requires GoodClusters(cs)
    ensures FindCluster(ClustersOf(cs, e), n) == if n in cs then Some(ClusterIn(cs[n], e)) else None
  {
    ClustersUnique(cs, e);
    if n in cs {
      var i := SortedIndex(cs.Keys, n);
      FindPrefix(ClustersOf(cs, e), i);
    }
  }

  lemma {:induction false} ReachIsNeeded(tab: Tables, asked: seq<string>, t: AdsView, n: string)
    requires t.listeners == Asked(tab.listeners, asked) && SameOn(t.routes, tab.routes, RouteNameSet(t.listeners))
    requires n in Reach(tab, asked)
    ensures n in ClusterNameSet(t.routes)
  {
    var r := Restrict(tab.routes, RouteNameSet(t.listeners));
    var k :| k in r && n in Destinations(r[k]);
    assert Same(t.routes, tab.routes, k);
  }

  /** After any history: the listeners are the join's, and every cluster they lead to is looked up as in the join. */
  lemma {:induction false} SyncedLooksLikeJoin(
    s: AdsView, tab: Tables, inline: map<string, seq<Endpoint>>, version: string, n: string)
    requires Closed(s) && InScope(s) && Keyed(s) && GoodTables(tab)
    ensures var asked, cfg := Subscription(s, ListenerType), ConfigOf(Synced(s, tab, inline), version);
      && cfg.listeners == Join(tab, asked, version).listeners
      && (n in Reach(tab, asked) ==> FindCluster(cfg.clusters, n) == FindCluster(Join(tab, asked, version).clusters, n))
  {
    var asked, t := Subscription(s, ListenerType), Synced(s, tab, inline);
    SyncedAgrees(s, tab, inline);
    ListenersSame(t.listeners, t.routes, tab.routes);
    if n in Reach(tab, asked) {
      ReachIsNeeded(tab, asked, t, n);
      assert Same(t.clusters, tab.clusters, n);
      SyncedKeyed(s, tab, inline);
      FindInClusters(t.clusters, t.endpoints, n);
      FindInClusters(Restrict(tab.clusters, Reach(tab, asked)), tab.endpoints, n);
      if n in t.clusters {
        assert Same(t.endpoints, tab.endpoints, t.clusters[n].edsServiceName);
      }
    }
  }

  lemma {:induction false} LaterTurnsKeepListeners(
    s: AdsView, tab: Tables, t: TypeUrl, inline: map<string, seq<Endpoint>>)
    requires t in {RouteType, ClusterType, EndpointType}
    ensures Turn(s, tab, t, inline).listeners == s.listeners
  {
  }

  lemma {:induction false} StrayListenerStays(s: AdsView, tab: Tables, inline: map<string, seq<Endpoint>>, k: string)
    requires k in s.listeners && Subscription(s, ListenerType) != [] && k !in Subscription(s, ListenerType)
    ensures k in Synced(s, tab, inline).listeners
  {
    var s1 := Turn(s, tab, ListenerType, inline);
    var s2 := Turn(s1, tab, RouteType, inline);
    var s3 := Turn(s2, tab, ClusterType, inline);
    assert k in s1.listeners;
    LaterTurnsKeepListeners(s1, tab, RouteType, inline);
    LaterTurnsKeepListeners(s2, tab, ClusterType, inline);
    LaterTurnsKeepListeners(s3, tab, EndpointType, inline);
  }

  /** After any history a round of answers gives the join's listeners if and only if no stray listener was held. */
  lemma {:induction false} ListenersMatchIffInScope(
    s: AdsView, tab: Tables, inline: map<string, seq<Endpoint>>, version: string)
    requires Closed(s) && Keyed(s) && GoodTables(tab)
    ensures ConfigOf(Synced(s, tab, inline), version).listeners ==
      Join(tab, Subscription(s, ListenerType), version).listeners
      <==> InScope(s)
  {
    if InScope(s) {
      SyncedLooksLikeJoin(s, tab, inline, version, "");
    } else {
      var asked, t := Subscription(s, ListenerType), Synced(s, tab, inline);
      var k :| k in s.listeners && k !in Elements(asked);
      StrayListenerStays(s, tab, inline, k);
      SyncedKeyed(s, tab, inline);
      var i := SortedIndex(t.listeners.Keys, k);
      var mine, theirs := ListenersOf(t.listeners, t.routes), ListenersOf(Asked(tab.listeners, asked), tab.routes);
      assert mine[i].name == k && mine[i] in mine;
      if mine[i] in theirs {
        var k' := ListenerOrigin(AdsView(map[], Asked(tab.listeners, asked), tab.routes, map[], map[]), mine[i]);
        assert false;
      }
    }
  }

  lemma {:induction false} TurnKeyed(s: AdsView, tab: Tables, t: TypeUrl, inline: map<string, seq<Endpoint>>)
    requires Keyed(s) && GoodTables(tab)
    ensures Keyed(Turn(s, tab, t, inline))
  {
    if !Skips(s, t) { KeyedStep(s, AnswerTo(tab, t, Subscription(s, t), inline)); }
  }

  lemma {:induction false} SyncedKeyed(s: AdsView, tab: Tables, inline: map<string, seq<Endpoint>>)
    requires Keyed(s) && GoodTables(tab)
    ensures Keyed(Synced(s, tab, inline))
  {
    TurnKeyed(s, tab, ListenerType, inline);
    var s1 := Turn(s, tab, ListenerType, inline);
    TurnKeyed(s1, tab, RouteType, inline);
    var s2 := Turn(s1, tab, RouteType, inline);
    TurnKeyed(s2, tab, ClusterType, inline);
    var s3 := Turn(s2, tab, ClusterType, inline);
    TurnKeyed(s3, tab, EndpointType, inline);
  }

  // ---------- when the join validates ----------

  ghost predicate RdsOnly(ls: map<string, ListenerSnapshot>) {
    forall k | k in ls :: ls[k].inlineVirtualHosts == []
  }

  lemma {:induction false} AttachedDestinations(routes: map<string, seq<VirtualHost>>, names: seq<string>)
    ensures Destinations(Attached(routes, names)) == ClusterNameSet(Restrict(routes, Elements(names)))
  {
    if names == [] {
    } else {
      var n := |names| - 1;
      AttachedDestinations(routes, names[..n]);
      var front, last := Attached(routes, names[..n]), if names[n] in routes then routes[names[n]] else [];
      DestinationsAppend(front, last);
      assert Elements(names) == Elements(names[..n]) + {names[n]} by { assert names == names[..n] + [names[n]]; }
      ClusterNamesAdd(routes, Elements(names[..n]), names[n]);
    }
  }

  lemma {:induction false} DestinationsAppend(a: seq<VirtualHost>, b: seq<VirtualHost>)
    ensures Destinations(a + b) == Destinations(a) + Destinations(b)
  {
  }

  lemma {:induction false} ClusterNamesAdd(routes: map<string, seq<VirtualHost>>, names: set<string>, k: string)
    ensures ClusterNameSet(Restrict(routes, names + {k})) ==
      ClusterNameSet(Restrict(routes, names)) + Destinations(if k in routes then routes[k] else [])
  {
    var small, big := Restrict(routes, names), Restrict(routes, names + {k});
    forall n | n in ClusterNameSet(big)
      ensures n in ClusterNameSet(small) || (k in routes && n in Destinations(routes[k]))
    {
      var j :| j in big && n in Destinations(big[j]);
      if j != k { assert j in small && small[j] == big[j]; }
    }
    forall n | n in ClusterNameSet(small) ensures n in ClusterNameSet(big) {
      var j :| j in small && n in Destinations(small[j]);
      assert j in big && big[j] == small[j];
    }
    if k in routes { assert k in big && big[k] == routes[k]; }
  }

  lemma {:induction false} CompleteIffLed(s: AdsView)
    ensures Complete(s) <==> LedFrom(s.listeners, s.routes) <= s.clusters.Keys
  {
    if Complete(s) {
      forall n | n in LedFrom(s.listeners, s.routes) ensures n in s.clusters {
        var k :| k in s.listeners && n in Destinations(HostsOf(s.listeners[k], s.routes));
      }
    }
  }

  lemma {:induction false} ValidatesIffLed(s: AdsView, version: string)
    requires Keyed(s)
    ensures WellFormed(ConfigOf(s, version)) <==> LedFrom(s.listeners, s.routes) <= s.clusters.Keys
  {
    ValidatesIffComplete(s, version);
    CompleteIffLed(s);
  }

  /** A client state that shows the join. */
  function JoinView(tab: Tables, asked: seq<string>): AdsView {
    AdsView(map[], Asked(tab.listeners, asked), tab.routes, Restrict(tab.clusters, Reach(tab, asked)), tab.endpoints)
  }

  lemma {:induction false} JoinViewKeyed(tab: Tables, asked: seq<string>)
    requires GoodTables(tab)
    ensures Keyed(JoinView(tab, asked))
  {
  }

  lemma {:induction false} RestrictKeys<T>(m: map<string, T>, names: set<string>)
    ensures Restrict(m, names).Keys == names * m.Keys
  {
  }

  /** The join validates exactly when every cluster led to is reached by route discovery and the server has it. */
  lemma {:induction false} JoinValidates(tab: Tables, asked: seq<string>, version: string)
    requires GoodTables(tab)
    ensures WellFormed(Join(tab, asked, version)) <==> Led(tab, asked) <= Reach(tab, asked) * tab.clusters.Keys
  {
    JoinViewKeyed(tab, asked);
    ValidatesIffLed(JoinView(tab, asked), version);
    RestrictKeys(tab.clusters, Reach(tab, asked));
  }

  /** Listeners that use route discovery only lead to exactly the clusters reached. */
  lemma {:induction false} RdsOnlyLeadsToReach(tab: Tables, asked: seq<string>)
    requires RdsOnly(Asked(tab.listeners, asked))
    ensures Led(tab, asked) == Reach(tab, asked)
  {
    var ls := Asked(tab.listeners, asked);
    forall n | n in Led(tab, asked) ensures n in Reach(tab, asked) {
      var k :| k in ls && n in Destinations(HostsOf(ls[k], tab.routes));
      OneListenerReaches(tab, ls, k);
    }
    forall n | n in Reach(tab, asked) ensures n in Led(tab, asked) {
      var k := ReachedByOne(tab, ls, n);
    }
  }

  lemma {:induction false} OneListenerReaches(tab: Tables, ls: map<string, ListenerSnapshot>, k: string)
    requires k in ls && ls[k].inlineVirtualHosts == []
    ensures Destinations(HostsOf(ls[k], tab.routes)) <= ClusterNameSet(Restrict(tab.routes, RouteNameSet(ls)))
  {
    AttachedDestinations(tab.routes, ls[k].routeNames);
    assert HostsOf(ls[k], tab.routes) == Attached(tab.routes, ls[k].routeNames);
    var part := Restrict(tab.routes, Elements(ls[k].routeNames));
    var all := Restrict(tab.routes, RouteNameSet(ls));
    forall n | n in ClusterNameSet(part) ensures n in ClusterNameSet(all) {
      var r :| r in part && n in Destinations(part[r]);
      assert r in all && all[r] == part[r];
    }
  }

  lemma {:induction false} ReachedByOne(tab: Tables, ls: map<string, ListenerSnapshot>, n: string) returns (k: string)
    requires n in ClusterNameSet(Restrict(tab.routes, RouteNameSet(ls)))
    ensures k in ls && n in Destinations(HostsOf(ls[k], tab.routes))
  {
    var all := Restrict(tab.routes, RouteNameSet(ls));
    var r :| r in all && n in Destinations(all[r]);
    k :| k in ls && r in ls[k].routeNames;
    AttachedDestinations(tab.routes, ls[k].routeNames);
    var part := Restrict(tab.routes, Elements(ls[k].routeNames));
    assert r in part && part[r] == all[r];
    DestinationsAppend(ls[k].inlineVirtualHosts, Attached(tab.routes, ls[k].routeNames));
  }

  lemma {:induction false} SyncedLeads(s: AdsView, tab: Tables, inline: map<string, seq<Endpoint>>)
    requires Closed(s) && InScope(s)
    ensures var t := Synced(s, tab, inline); LedFrom(t.listeners, t.routes) == Led(tab, Subscription(s, ListenerType))
  {
    var t := Synced(s, tab, inline);
    SyncedAgrees(s, tab, inline);
    forall k | k in t.listeners ensures HostsOf(t.listeners[k], t.routes) == HostsOf(t.listeners[k], tab.routes) {
      assert Elements(t.listeners[k].routeNames) <= RouteNameSet(t.listeners);
      AttachedSame(t.routes, tab.routes, t.listeners[k].routeNames);
    }
  }

  lemma {:induction false} SyncedHasReached(s: AdsView, tab: Tables, inline: map<string, seq<Endpoint>>, n: string)
    requires Closed(s) && InScope(s) && n in Reach(tab, Subscription(s, ListenerType))
    ensures Same(Synced(s, tab, inline).clusters, tab.clusters, n)
  {
    SyncedAgrees(s, tab, inline);
    ReachIsNeeded(tab, Subscription(s, ListenerType), Synced(s, tab, inline), n);
  }

  lemma {:induction false} SyncedHasAllReached(s: AdsView, tab: Tables, inline: map<string, seq<Endpoint>>)
    requires Closed(s) && InScope(s)
    ensures var reach := Reach(tab, Subscription(s, ListenerType));
      reach * Synced(s, tab, inline).clusters.Keys == reach * tab.clusters.Keys
  {
    forall n | n in Reach(tab, Subscription(s, ListenerType))
      ensures n in Synced(s, tab, inline).clusters <==> n in tab.clusters
    {
      SyncedHasReached(s, tab, inline, n);
    }
  }

  /**
   After any history the configuration validates exactly like the join, if route discovery reaches every cluster that
   the routes lead to.
   */
  lemma {:induction false} SyncedValidates(s: AdsView, tab: Tables, inline: map<string, seq<Endpoint>>, version: string)
    requires Closed(s) && InScope(s) && Keyed(s) && GoodTables(tab)
    requires var asked := Subscription(s, ListenerType); Led(tab, asked) <= Reach(tab, asked)
    ensures WellFormed(ConfigOf(Synced(s, tab, inline), version)) <==>
      WellFormed(Join(tab, Subscription(s, ListenerType), version))
  {
    SyncedKeyed(s, tab, inline);
    ValidatesIffLed(Synced(s, tab, inline), version);
    SyncedLeads(s, tab, inline);
    JoinValidates(tab, Subscription(s, ListenerType), version);
    SyncedHasAllReached(s, tab, inline);
  }

  // ---------- when the configuration is the join itself ----------

  /** The client as it is when the cluster answer is due. */
  function BeforeClusters(s: AdsView, tab: Tables, inline: map<string, seq<Endpoint>>): AdsView {
    Turn(Turn(s, tab, ListenerType, inline), tab, RouteType, inline)
  }

  /** It holds no cluster outside its subscription, which names no cluster of the server's beyond the reached ones. */
  ghost predicate NoStrayCluster(s: AdsView, tab: Tables, asked: seq<string>) {
    var names := Elements(Subscription(s, ClusterType));
    s.clusters.Keys <= names && names * tab.clusters.Keys <= Reach(tab, asked)
  }

  lemma {:induction false} ReachIsSubscribed(s: AdsView, tab: Tables, inline: map<string, seq<Endpoint>>)
    requires Closed(s) && InScope(s)
    ensures Reach(tab, Subscription(s, ListenerType)) <=
      Elements(Subscription(BeforeClusters(s, tab, inline), ClusterType))
  {
    var asked, s1, s2 := Subscription(s, ListenerType), Turn(s, tab, ListenerType, inline),
      BeforeClusters(s, tab, inline);
    ListenerTurn(s, tab, inline);
    TurnClosed(s, tab, ListenerType, inline);
    RouteTurn(s1, tab, inline);
    TurnClosed(s1, tab, RouteType, inline);
    assert FollowedUp(s2, RouteType);
    forall n | n in Reach(tab, asked) ensures n in Elements(Subscription(s2, ClusterType)) {
      ReachIsNeeded(tab, asked, s2, n);
    }
  }

  lemma {:induction false} RefreshKeys<T>(m: map<string, T>, names: seq<string>, tab: map<string, T>)
    requires names != []
    ensures Refresh(m, names, Asked(tab, names)).Keys == (m.Keys - Elements(names)) + Elements(names) * tab.Keys
  {
    RestrictKeys(tab, Elements(names));
  }

  lemma {:induction false} ClusterTurnKeys(s: AdsView, tab: Tables, inline: map<string, seq<Endpoint>>)
    ensures var names := Elements(Subscription(s, ClusterType));
      Turn(s, tab, ClusterType, inline).clusters.Keys == (s.clusters.Keys - names) + names * tab.clusters.Keys
  {
    var names := Subscription(s, ClusterType);
    if names == [] {
      assert Elements(names) == {};
    } else {
      RefreshKeys(s.clusters, names, tab.clusters);
    }
  }

  lemma {:induction false} ClusterKeysMatchIff(s: AdsView, tab: Tables, inline: map<string, seq<Endpoint>>)
    requires Closed(s) && InScope(s)
    ensures var asked := Subscription(s, ListenerType);
      Synced(s, tab, inline).clusters.Keys == Reach(tab, asked) * tab.clusters.Keys
      <==> NoStrayCluster(BeforeClusters(s, tab, inline), tab, asked)
  {
    var s2 := BeforeClusters(s, tab, inline);
    ReachIsSubscribed(s, tab, inline);
    ClusterTurnKeys(s2, tab, inline);
    TurnKeepsClusters(Turn(s2, tab, ClusterType, inline), tab, inline);
    SetsMatchIff(s2.clusters.Keys, Elements(Subscription(s2, ClusterType)), tab.clusters.Keys,
                 Reach(tab, Subscription(s, ListenerType)));
  }

  lemma {:induction false} SetsMatchIff(held: set<string>, names: set<string>, server: set<string>, reach: set<string>)
    requires reach <= names
    ensures (held - names) + names * server == reach * server <==> held <= names && names * server <= reach
  {
    if n :| n in held && n !in names {
      assert n in (held - names) + names * server && n !in reach * server;
    }
    if n :| n in names * server && n !in reach {
      assert n in (held - names) + names * server && n !in reach * server;
    }
  }

  lemma {:induction false} SameClustersSameKeys(
    a: map<string, ClusterSnapshot>, e: map<string, seq<Endpoint>>,
    b: map<string, ClusterSnapshot>, f: map<string, seq<Endpoint>>)
    requires GoodClusters(a) && GoodClusters(b) && ClustersOf(a, e) == ClustersOf(b, f)
    ensures a.Keys == b.Keys
  {
    forall n ensures n in a <==> n in b {
      FindInClusters(a, e, n);
      FindInClusters(b, f, n);
    }
  }

  lemma {:induction false} ReachedClustersMatch(s: AdsView, tab: Tables, inline: map<string, seq<Endpoint>>)
    requires Closed(s) && InScope(s)
    requires Synced(s, tab, inline).clusters.Keys == Reach(tab, Subscription(s, ListenerType)) * tab.clusters.Keys
    ensures var t := Synced(s, tab, inline);
      ClustersOf(t.clusters, t.endpoints) ==
      ClustersOf(Restrict(tab.clusters, Reach(tab, Subscription(s, ListenerType))), tab.endpoints)
  {
    var t, reached := Synced(s, tab, inline), Restrict(tab.clusters, Reach(tab, Subscription(s, ListenerType)));
    RestrictKeys(tab.clusters, Reach(tab, Subscription(s, ListenerType)));
    forall n | n in reached ensures t.clusters[n] == reached[n] { SyncedHasReached(s, tab, inline, n); }
    assert t.clusters == reached;
    SyncedAgrees(s, tab, inline);
    ClustersSame(t.clusters, t.endpoints, tab.endpoints);
  }

  lemma {:induction false} ClustersMatchIff(
    s: AdsView, tab: Tables, inline: map<string, seq<Endpoint>>, version: string)
    requires Closed(s) && InScope(s) && Keyed(s) && GoodTables(tab)
    ensures var asked := Subscription(s, ListenerType);
      ConfigOf(Synced(s, tab, inline), version).clusters == Join(tab, asked, version).clusters
      <==> NoStrayCluster(BeforeClusters(s, tab, inline), tab, asked)
  {
    var asked, t := Subscription(s, ListenerType), Synced(s, tab, inline);
    var reached := Restrict(tab.clusters, Reach(tab, asked));
    ClusterKeysMatchIff(s, tab, inline);
    RestrictKeys(tab.clusters, Reach(tab, asked));
    if t.clusters.Keys == reached.Keys {
      ReachedClustersMatch(s, tab, inline);
    } else if ClustersOf(t.clusters, t.endpoints) == ClustersOf(reached, tab.endpoints) {
      SyncedKeyed(s, tab, inline);
      SameClustersSameKeys(t.clusters, t.endpoints, reached, tab.endpoints);
    }
  }

  /** After any history a round of answers gives the join if and only if no stray listener or cluster is held. */
  lemma {:induction false} ConfigIsJoinIff(s: AdsView, tab: Tables, inline: map<string, seq<Endpoint>>, version: string)
    requires Closed(s) && Keyed(s) && GoodTables(tab)
    ensures var asked := Subscription(s, ListenerType);
      ConfigOf(Synced(s, tab, inline), version) == Join(tab, asked, version)
      <==> InScope(s) && NoStrayCluster(BeforeClusters(s, tab, inline), tab, asked)
  {
    ListenersMatchIffInScope(s, tab, inline, version);
    if InScope(s) { ClustersMatchIff(s, tab, inline, version); }
  }
}
