/** What a built configuration holds, entry by entry, in terms of the client's maps and of the server's messages. */
module ConfigMeaning {
  import opened Wrappers
  import opened Text
  import opened Config
  import opened Messages
  import opened Endpoints
  import opened Translation
  import opened Discovery
  import opened DiscoveryRuns
  import opened Convergence
  import opened ServerSync

  // ---------- what one response brings ----------

  ghost predicate IsNamed(r: Resource, t: TypeUrl, k: string) {
    match t
    case ListenerType => r.asListener.Some? && r.asListener.value.name == k
    case RouteType => r.asRoute.Some? && r.asRoute.value.name == k
    case ClusterType => r.asCluster.Some? && r.asCluster.value.name == k && k != ""
    case EndpointType => r.asAssignment.Some? && r.asAssignment.value.clusterName == k && k != ""
    case OtherType(_) => false
  }

  /** Resource `i` is the last one with the name. */
  ghost predicate LastNamed(resp: Response, k: string, i: nat) {
    && i < |resp.resources| && IsNamed(resp.resources[i], resp.typeUrl, k)
    && forall j | i < j < |resp.resources| :: !IsNamed(resp.resources[j], resp.typeUrl, k)
  }

  ghost predicate NoneNamed(resp: Response, k: string) {
    forall j | 0 <= j < |resp.resources| :: !IsNamed(resp.resources[j], resp.typeUrl, k)
  }

  /** A listener response brings, under each name, the snapshot of the last listener with it. */
  lemma {:induction false} ListenersBrought(resp: Response, k: string) returns (i: nat)
    requires resp.typeUrl == ListenerType && Decodable(resp)
    ensures k !in UpdateOf(resp).listeners ==> NoneNamed(resp, k)
    ensures k in UpdateOf(resp).listeners ==>
      LastNamed(resp, k, i) && SnapshotOf(resp.resources[i].asListener.value) == Some(UpdateOf(resp).listeners[k])
  {
    var os := ListenerOutcomes(resp.resources);
    i := OverlayLastWins(os, k);
    forall j | 0 <= j < |os| ensures Names(os[j], k) <==> IsNamed(resp.resources[j], ListenerType, k) {}
  }

  /** A route response brings the translated virtual hosts of the last route configuration with the name. */
  lemma {:induction false} RoutesBrought(resp: Response, k: string) returns (i: nat)
    requires resp.typeUrl == RouteType && Decodable(resp)
    ensures k !in UpdateOf(resp).routes ==> NoneNamed(resp, k)
    ensures k in UpdateOf(resp).routes ==>
      LastNamed(resp, k, i) && UpdateOf(resp).routes[k] ==
        ConvertVirtualHosts(resp.resources[i].asRoute.value.virtualHosts)
  {
    var os := RouteOutcomes(resp.resources);
    i := OverlayLastWins(os, k);
    forall j | 0 <= j < |os| ensures Names(os[j], k) <==> IsNamed(resp.resources[j], RouteType, k) {}
  }

  /** A cluster response brings name, EDS name and TLS of the last cluster with the name. */
  lemma {:induction false} ClustersBrought(resp: Response, k: string) returns (i: nat)
    requires resp.typeUrl == ClusterType && Decodable(resp)
    ensures k !in UpdateOf(resp).clusters ==> NoneNamed(resp, k)
    ensures k in UpdateOf(resp).clusters ==>
      && LastNamed(resp, k, i)
      && var c := resp.resources[i].asCluster.value;
         UpdateOf(resp).clusters[k] == ClusterSnapshot(k, EdsServiceName(c), UpstreamTlsOf(c))
  {
    var os := ClusterOutcomes(resp.resources);
    i := OverlayLastWins(os, k);
    forall j | 0 <= j < |os| ensures Names(os[j], k) <==> IsNamed(resp.resources[j], ClusterType, k) {}
  }

  /** An endpoint response brings the endpoints of the last assignment with the name. */
  lemma {:induction false} EndpointsBrought(resp: Response, k: string) returns (i: nat)
    requires resp.typeUrl == EndpointType && Decodable(resp)
    ensures k !in UpdateOf(resp).endpoints ==> NoneNamed(resp, k)
    ensures k in UpdateOf(resp).endpoints ==>
      LastNamed(resp, k, i) && UpdateOf(resp).endpoints[k] == FromAssignment(resp.resources[i].asAssignment.value)
  {
    var os := AssignmentOutcomes(resp.resources);
    i := OverlayLastWins(os, k);
    forall j | 0 <= j < |os| ensures Names(os[j], k) <==> IsNamed(resp.resources[j], EndpointType, k) {}
  }

  /** A named cluster that carries endpoints inline, under EDS name `k`. */
  ghost predicate CarriesInline(r: Resource, k: string) {
    && r.asCluster.Some? && r.asCluster.value.name != "" && r.asCluster.value.loadAssignment.Some?
    && EdsServiceName(r.asCluster.value) == k
  }

  /** A cluster response also brings the inline endpoints of the last cluster that carries some under an EDS name. */
  lemma {:induction false} InlineBrought(resp: Response, k: string) returns (i: nat)
    requires resp.typeUrl == ClusterType && Decodable(resp)
    ensures k !in UpdateOf(resp).inline ==> forall j | 0 <= j < |resp.resources| :: !CarriesInline(resp.resources[j], k)
    ensures k in UpdateOf(resp).inline ==>
      && i < |resp.resources| && CarriesInline(resp.resources[i], k)
      && (forall j | i < j < |resp.resources| :: !CarriesInline(resp.resources[j], k))
      && UpdateOf(resp).inline[k] == FromAssignment(resp.resources[i].asCluster.value.loadAssignment.value)
  {
    var os := InlineOutcomes(resp.resources);
    i := OverlayLastWins(os, k);
    forall j | 0 <= j < |os| ensures Names(os[j], k) <==> CarriesInline(resp.resources[j], k) {}
  }

  /**
   What arrived is there; of the rest nothing that was asked for, nothing at all if everything was, and else as
   before.
   */
  ghost predicate Updated<T(!new)>(m': map<string, T>, m: map<string, T>, asked: seq<string>, arrived: map<string, T>) {
    && (forall k | k in arrived :: k in m' && m'[k] == arrived[k])
    && (forall k | k !in arrived && (asked == [] || k in asked) :: k !in m')
    && (forall k | k !in arrived && asked != [] && k !in asked :: Same(m', m, k))
  }

  /** Inline endpoints are added or replace what was held; nothing is removed. */
  ghost predicate Added<T(!new)>(m': map<string, T>, m: map<string, T>, arrived: map<string, T>) {
    && (forall k | k in arrived :: k in m' && m'[k] == arrived[k])
    && (forall k | k !in arrived :: Same(m', m, k))
  }

  lemma {:induction false} RefreshUpdates<T(!new)>(m: map<string, T>, asked: seq<string>, arrived: map<string, T>)
    ensures Updated(Refresh(m, asked, arrived), m, asked, arrived)
  {
    assert forall k :: k in Elements(asked) <==> k in asked;
  }

  /**
   State of the world: a response updates the map of its type alone; a cluster response also adds inline endpoints.
   */
  lemma {:induction false} OneResponseUpdates(s: AdsView, u: Update)
    ensures var (s', asked) := (Apply(s, u), Subscription(s, Stage(u)));
      match u
      case ListenerUpdate(m) => s' == s.(listeners := s'.listeners) && Updated(s'.listeners, s.listeners, asked, m)
      case RouteUpdate(m) => s' == s.(routes := s'.routes) && Updated(s'.routes, s.routes, asked, m)
      case ClusterUpdate(m, inline) =>
        && s' == s.(clusters := s'.clusters, endpoints := s'.endpoints)
        && Updated(s'.clusters, s.clusters, asked, m) && Added(s'.endpoints, s.endpoints, inline)
      case EndpointUpdate(m) => s' == s.(endpoints := s'.endpoints) && Updated(s'.endpoints, s.endpoints, asked, m)
      case NoUpdate(_) => s' == s
  {
    var asked := Subscription(s, Stage(u));
    match u
    case ListenerUpdate(m) => RefreshUpdates(s.listeners, asked, m);
    case RouteUpdate(m) => RefreshUpdates(s.routes, asked, m);
    case ClusterUpdate(m, _) => RefreshUpdates(s.clusters, asked, m);
    case EndpointUpdate(m) => RefreshUpdates(s.endpoints, asked, m);
    case NoUpdate(_) =>
  }

  // ---------- the entries of a configuration ----------

  /** The endpoints held under a name, or none. */
  ghost predicate HeldEndpoints(found: seq<Endpoint>, endpoints: map<string, seq<Endpoint>>, name: string) {
    if name in endpoints then found == endpoints[name] else found == []
  }

  /** Exactly one cluster of the list has the name, at position `i`. */
  ghost predicate OnlyCluster(cs: seq<Cluster>, k: string, i: nat) {
    i < |cs| && forall j | 0 <= j < |cs| :: cs[j].name == k <==> j == i
  }

  ghost predicate OnlyListener(ls: seq<Listener>, k: string, i: nat) {
    i < |ls| && forall j | 0 <= j < |ls| :: ls[j].name == k <==> j == i
  }

  /** Every cluster held has exactly one entry: its TLS settings, and the endpoints held under its EDS name. */
  lemma {:induction false} ClusterEntry(
    clusters: map<string, ClusterSnapshot>, endpoints: map<string, seq<Endpoint>>, k: string)
    returns (i: nat)
    requires GoodClusters(clusters) && k in clusters
    ensures var cs := ClustersOf(clusters, endpoints);
      && OnlyCluster(cs, k, i) && cs[i].tls == clusters[k].tls
      && HeldEndpoints(cs[i].endpoints, endpoints, clusters[k].edsServiceName)
  {
    ClustersUnique(clusters, endpoints);
    i := SortedIndex(clusters.Keys, k);
    ClusterAt(clusters, endpoints, i);
    UniqueIsOnly(ClustersOf(clusters, endpoints), i);
  }

  lemma {:induction false} ClusterAt(
    clusters: map<string, ClusterSnapshot>, endpoints: map<string, seq<Endpoint>>, i: nat)
    requires i < |Sorted(clusters.Keys)|
    ensures var (cs, k) := (ClustersOf(clusters, endpoints), Sorted(clusters.Keys)[i]);
      && i < |cs| && cs[i].name == clusters[k].name && cs[i].tls == clusters[k].tls
      && HeldEndpoints(cs[i].endpoints, endpoints, clusters[k].edsServiceName)
  {
  }

  lemma {:induction false} UniqueIsOnly(cs: seq<Cluster>, i: nat)
    requires UniqueClusters(cs) && i < |cs|
    ensures OnlyCluster(cs, cs[i].name, i)
  {
  }

  lemma {:induction false} UniqueListenerIsOnly(ls: seq<Listener>, i: nat)
    requires UniqueListeners(ls) && i < |ls|
    ensures OnlyListener(ls, ls[i].name, i)
  {
  }

  /** The blocks of virtual hosts of a listener: its inline ones, then each named route configuration's, if held. */
  ghost function HostBlocks(l: ListenerSnapshot, routes: map<string, seq<VirtualHost>>): seq<seq<VirtualHost>> {
    [l.inlineVirtualHosts] + NamedBlocks(routes, l.routeNames)
  }

  ghost function NamedBlocks(routes: map<string, seq<VirtualHost>>, names: seq<string>): seq<seq<VirtualHost>> {
    if names == [] then [] else
      var last := names[|names| - 1];
      NamedBlocks(routes, names[..|names| - 1]) + [if last in routes then routes[last] else []]
  }

  lemma {:induction false} AttachedJoined(
    first: seq<VirtualHost>, routes: map<string, seq<VirtualHost>>, names: seq<string>)
    ensures Joined(first + Attached(routes, names), [first] + NamedBlocks(routes, names))
  {
    if names == [] {
      assert [first][..0] == [] && [first] + NamedBlocks(routes, names) == [first];
      assert BlockAt(first, [first], 0) && first + Attached(routes, names) == first;
    } else {
      var n := |names| - 1;
      var block := if names[n] in routes then routes[names[n]] else [];
      AttachedJoined(first, routes, names[..n]);
      JoinedNext(first + Attached(routes, names[..n]), [first] + NamedBlocks(routes, names[..n]), block);
      Regroup(first, Attached(routes, names[..n]), block);
      Regroup([first], NamedBlocks(routes, names[..n]), [block]);
    }
  }

  /** Every listener held has exactly one entry: itself, with its blocks of virtual hosts one after the other. */
  lemma {:induction false} ListenerEntry(
    listeners: map<string, ListenerSnapshot>, routes: map<string, seq<VirtualHost>>, k: string)
    returns (i: nat)
    requires GoodListeners(listeners) && k in listeners
    ensures var (ls, l) := (ListenersOf(listeners, routes), listeners[k].listener);
      && OnlyListener(ls, k, i)
      && ls[i].bind == l.bind && ls[i].protocol == l.protocol && ls[i].tlsSecret == l.tlsSecret
      && Joined(ls[i].virtualHosts, HostBlocks(listeners[k], routes))
  {
    ListenersUnique(listeners, routes);
    i := SortedIndex(listeners.Keys, k);
    ListenerAt(listeners, routes, i);
    UniqueListenerIsOnly(ListenersOf(listeners, routes), i);
  }

  lemma {:induction false} ListenerAt(
    listeners: map<string, ListenerSnapshot>, routes: map<string, seq<VirtualHost>>, i: nat)
    requires GoodListeners(listeners) && i < |Sorted(listeners.Keys)|
    ensures var (ls, k) := (ListenersOf(listeners, routes), Sorted(listeners.Keys)[i]);
      var l := listeners[k].listener;
      && i < |ls| && ls[i].name == k
      && ls[i].bind == l.bind && ls[i].protocol == l.protocol && ls[i].tlsSecret == l.tlsSecret
      && Joined(ls[i].virtualHosts, HostBlocks(listeners[k], routes))
  {
    var k := Sorted(listeners.Keys)[i];
    assert GoodListener(k, listeners[k]);
    AttachedJoined(listeners[k].inlineVirtualHosts, routes, listeners[k].routeNames);
  }

  /** Listeners come in the order of their names, one for each key. */
  ghost predicate ListenersInOrder(ls: seq<Listener>, m: map<string, ListenerSnapshot>) {
    |ls| == |m| && forall i, j | 0 <= i < j < |ls| :: Less(ls[i].name, ls[j].name)
  }

  ghost predicate ClustersInOrder(cs: seq<Cluster>, m: map<string, ClusterSnapshot>) {
    |cs| == |m| && forall i, j | 0 <= i < j < |cs| :: Less(cs[i].name, cs[j].name)
  }

  lemma {:induction false} SortedLength(s: set<string>)
    ensures |Sorted(s)| == |s|
  {
    if s != {} { SortedLength(s - {Min(s)}); }
  }

  lemma {:induction false} ListenersOrdered(m: map<string, ListenerSnapshot>, routes: map<string, seq<VirtualHost>>)
    requires GoodListeners(m)
    ensures ListenersInOrder(ListenersOf(m, routes), m)
  {
    SortedLength(m.Keys);
    var ks := Sorted(m.Keys);
    assert forall i | 0 <= i < |ks| :: GoodListener(ks[i], m[ks[i]]);
  }

  lemma {:induction false} ClustersOrdered(m: map<string, ClusterSnapshot>, endpoints: map<string, seq<Endpoint>>)
    requires GoodClusters(m)
    ensures ClustersInOrder(ClustersOf(m, endpoints), m)
  {
    SortedLength(m.Keys);
  }

  /** The configuration as a whole: one entry per key in name order, no secrets, and the version, `ads` when empty. */
  lemma {:induction false} ConfigShape(s: AdsView, version: string)
    requires Keyed(s)
    ensures var cfg := ConfigOf(s, version);
      && ListenersInOrder(cfg.listeners, s.listeners) && ClustersInOrder(cfg.clusters, s.clusters) && cfg.secrets == []
      && (version != "" ==> cfg.version == version) && (version == "" ==> cfg.version == "ads")
  {
    ListenersOrdered(s.listeners, s.routes);
    ClustersOrdered(s.clusters, s.endpoints);
  }

  /** After every run, each cluster and each listener held has exactly its entry. */
  lemma {:induction false} EveryRunShows(
    listenerNames: seq<string>, cell: Cell, history: seq<Response>, version: string, k: string)
    returns (i: nat, j: nat)
    ensures var s := ReceiveAll(Connect(listenerNames, cell), history).ads;
      var cfg := ConfigOf(s, version);
      && (k in s.clusters ==>
            && OnlyCluster(cfg.clusters, k, i) && cfg.clusters[i].tls == s.clusters[k].tls
            && HeldEndpoints(cfg.clusters[i].endpoints, s.endpoints, s.clusters[k].edsServiceName))
      && (k in s.listeners ==>
            OnlyListener(cfg.listeners, k, j)
              && Joined(cfg.listeners[j].virtualHosts, HostBlocks(s.listeners[k], s.routes)))
  {
    EveryRunKeepsInv(listenerNames, cell, history);
    i, j := 0, 0;
    var s := ReceiveAll(Connect(listenerNames, cell), history).ads;
    if k in s.clusters { i := ClusterEntry(s.clusters, s.endpoints, k); }
    if k in s.listeners { j := ListenerEntry(s.listeners, s.routes, k); }
  }

  // ---------- the entries of the join, in the server's messages ----------

  /** The server's assignment under an EDS name: its usable places, each once, in order; none without an assignment. */
  ghost predicate ShowsAssignment(server: Server, name: string, es: seq<Endpoint>) {
    if name in server.assignments then
      var a := server.assignments[name];
      exists from :: AllStandAt(a, from, es) && EachUsableOnce(a, from) && Ordered(es, from)
    else es == []
  }

  /**
   Every cluster reached that the server has is in the join once, with its TLS settings and its assignment's
   endpoints.
   */
  lemma {:induction false} JoinShowsCluster(
    server: Server, asked: seq<string>, version: string, k: string)
    returns (i: nat)
    requires WellNamed(server) && k in server.clusters && k in Reach(TablesOf(server), asked)
    ensures var cs := Join(TablesOf(server), asked, version).clusters;
      && OnlyCluster(cs, k, i) && cs[i].tls == UpstreamTlsOf(server.clusters[k])
      && ShowsAssignment(server, EdsServiceName(server.clusters[k]), cs[i].endpoints)
  {
    var tab := TablesOf(server);
    TablesAreGood(server);
    var reached := Restrict(tab.clusters, Reach(tab, asked));
    i := ClusterEntry(reached, tab.endpoints, k);
    var name := EdsServiceName(server.clusters[k]);
    if name in server.assignments {
      var from := AssignmentMeaning(server.assignments[name]);
    }
  }

  /** Every listener asked for is in the join once, with the virtual hosts of its own and its route configurations. */
  lemma {:induction false} JoinShowsListener(
    server: Server, asked: seq<string>, version: string, k: string)
    returns (i: nat)
    requires WellNamed(server) && k in Asked(server.listeners, asked)
    ensures var (ls, tab) := (Join(TablesOf(server), asked, version).listeners, TablesOf(server));
      && OnlyListener(ls, k, i) && SnapshotOf(server.listeners[k]).Some?
      && ls[i].bind == SnapshotOf(server.listeners[k]).value.listener.bind
      && Joined(ls[i].virtualHosts, HostBlocks(SnapshotOf(server.listeners[k]).value, tab.routes))
  {
    var tab := TablesOf(server);
    TablesAreGood(server);
    i := ListenerEntry(Asked(tab.listeners, asked), tab.routes, k);
  }

  /** So a round of answers on a fresh connection shows every cluster reached with the endpoints of its assignment. */
  lemma {:induction false} FreshConnectionShowsServer(
    listenerNames: seq<string>, cell: Cell, server: Server,
    l: Response, r: Response, c: Response, e: Response, k: string)
    returns (i: nat)
    requires WellNamed(server) && AnsweredInTurn(server, Handled(Connect(listenerNames, cell), ""), l, r, c, e)
    requires k in server.clusters && k in Reach(TablesOf(server), SortedUnique(listenerNames))
    ensures var h := Round(Handled(Connect(listenerNames, cell), ""), l, r, c, e);
      var cs := ConfigOf(h.stream.ads, h.version).clusters;
      && OnlyCluster(cs, k, i) && cs[i].tls == UpstreamTlsOf(server.clusters[k])
      && ShowsAssignment(server, EdsServiceName(server.clusters[k]), cs[i].endpoints)
  {
    var h := Round(Handled(Connect(listenerNames, cell), ""), l, r, c, e);
    FreshConnectionConverges(listenerNames, cell, server, l, r, c, e);
    i := JoinShowsCluster(server, SortedUnique(listenerNames), h.version, k);
  }
}
