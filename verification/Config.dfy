/**
 The gateway's runtime configuration: what it holds, when it is well formed, the loop that validates it,
 and how a request selects a route.
 */
module Config {
  import opened Wrappers
  import opened Text

  type u32 = x: int | 0 <= x < 0x1_0000_0000

  datatype SocketAddr = SocketAddr(ip: string, port: u16)

  datatype ListenerProtocol = Http | Https

  datatype PathMatch = Prefix(prefix: string) | Exact(exact: string)

  datatype HeaderMatch = HeaderMatch(name: string, value: string)

  datatype RouteMatch = RouteMatch(path: PathMatch, headers: seq<HeaderMatch>)

  datatype WeightedCluster = WeightedCluster(name: string, weight: u32)

  datatype Route = Route(name: string, matches: seq<RouteMatch>, weightedClusters: seq<WeightedCluster>)

  datatype VirtualHost = VirtualHost(name: string, domains: seq<string>, routes: seq<Route>)

  datatype Listener = Listener(
    name: string, bind: SocketAddr, protocol: ListenerProtocol,
    virtualHosts: seq<VirtualHost>, tlsSecret: Option<string>)

  datatype Endpoint = Endpoint(address: string, port: u16, healthy: bool, nodeName: Option<string>)

  datatype UpstreamTls = UpstreamTls(
    sni: Option<string>, certificateProvider: Option<string>,
    validationProvider: Option<string>, alpnProtocols: seq<string>)

  datatype Cluster = Cluster(name: string, endpoints: seq<Endpoint>, tls: Option<UpstreamTls>)

  datatype TlsSecret = TlsSecret(name: string, certificateChainPem: string, privateKeyPem: string)

  datatype RuntimeConfig = RuntimeConfig(
    version: string, listeners: seq<Listener>, clusters: seq<Cluster>, secrets: seq<TlsSecret>)

  function EmptyConfig(version: string): RuntimeConfig {
    RuntimeConfig(version, [], [], [])
  }

  // ---------- well-formedness, as a reader of the configuration would state it ----------

  ghost predicate UniqueListeners(ls: seq<Listener>) {
    forall i, j | 0 <= i < j < |ls| :: ls[i].name != ls[j].name
  }

  predicate Agree(a: Listener, b: Listener) {
    a.bind == b.bind ==> a.protocol == b.protocol && a.tlsSecret.Some? == b.tlsSecret.Some?
  }

  /** Two listeners can share a socket only with one protocol and one TLS mode. */
  ghost predicate Compatible(a: Listener, b: Listener) {
    a.bind != b.bind || (a.protocol == b.protocol && (a.tlsSecret == None <==> b.tlsSecret == None))
  }

  ghost predicate BindsAgree(ls: seq<Listener>) {
    forall i, j | 0 <= i < j < |ls| :: Compatible(ls[i], ls[j])
  }

  ghost predicate UniqueClusters(cs: seq<Cluster>) {
    forall i, j | 0 <= i < j < |cs| :: cs[i].name != cs[j].name
  }

  function ClusterNames(cs: seq<Cluster>): set<string> {
    set c | c in cs :: c.name
  }

  ghost predicate DestinationsExist(r: Route, names: set<string>) {
    r.weightedClusters != [] && forall d | d in r.weightedClusters :: d.name in names
  }

  ghost predicate HostsResolve(hosts: seq<VirtualHost>, names: set<string>) {
    forall h, r | h in hosts && r in h.routes :: DestinationsExist(r, names)
  }

  ghost predicate WellFormed(cfg: RuntimeConfig) {
    && UniqueListeners(cfg.listeners)
    && BindsAgree(cfg.listeners)
    && UniqueClusters(cfg.clusters)
    && forall l | l in cfg.listeners :: HostsResolve(l.virtualHosts, ClusterNames(cfg.clusters))
  }

  // ---------- the conflicts that validation reports ----------

  datatype Conflict =
    | DuplicateListener(name: string)
    | ListenerBindConflict(existing: string, name: string, bind: SocketAddr)
    | DuplicateCluster(name: string)
    | EmptyRouteDestination(route: string, listener: string)
    | MissingCluster(route: string, cluster: string)

  function LastOnBind(ls: seq<Listener>, bind: SocketAddr): (r: Option<Listener>)
    ensures r.Some? ==> r.value in ls && r.value.bind == bind
    ensures r.None? ==> forall l | l in ls :: l.bind != bind
  {
    if ls == [] then None
    else if ls[|ls| - 1].bind == bind then Some(ls[|ls| - 1])
    else LastOnBind(ls[..|ls| - 1], bind)
  }

  function ListenerNames(ls: seq<Listener>): set<string> {
    set l | l in ls :: l.name
  }

  function OneListenerConflicts(before: seq<Listener>, l: Listener): seq<Conflict> {
    (if l.name in ListenerNames(before) then [DuplicateListener(l.name)] else []) +
    match LastOnBind(before, l.bind)
    case None => []
    case Some(p) => if Agree(p, l) then [] else [ListenerBindConflict(p.name, l.name, l.bind)]
  }

  function ListenerConflicts(ls: seq<Listener>): seq<Conflict> {
    if ls == [] then [] else
      var before := ls[..|ls| - 1];
      ListenerConflicts(before) + OneListenerConflicts(before, ls[|ls| - 1])
  }

  function ClusterConflicts(cs: seq<Cluster>): seq<Conflict> {
    if cs == [] then [] else
      var before, c := cs[..|cs| - 1], cs[|cs| - 1];
      ClusterConflicts(before) + if c.name in ClusterNames(before) then [DuplicateCluster(c.name)] else []
  }

  function MissingConflicts(route: string, ds: seq<WeightedCluster>, names: set<string>): seq<Conflict> {
    if ds == [] then [] else
      var d := ds[|ds| - 1];
      MissingConflicts(route, ds[..|ds| - 1], names) +
      if d.name in names then [] else [MissingCluster(route, d.name)]
  }

  function OneRouteConflicts(listener: string, r: Route, names: set<string>): seq<Conflict> {
    (if r.weightedClusters == [] then [EmptyRouteDestination(r.name, listener)] else []) +
    MissingConflicts(r.name, r.weightedClusters, names)
  }

  function RouteConflicts(listener: string, rs: seq<Route>, names: set<string>): seq<Conflict> {
    if rs == [] then [] else
      RouteConflicts(listener, rs[..|rs| - 1], names) + OneRouteConflicts(listener, rs[|rs| - 1], names)
  }

  function HostConflicts(listener: string, hosts: seq<VirtualHost>, names: set<string>): seq<Conflict> {
    if hosts == [] then [] else
      HostConflicts(listener, hosts[..|hosts| - 1], names) +
      RouteConflicts(listener, hosts[|hosts| - 1].routes, names)
  }

  function DestinationConflicts(ls: seq<Listener>, names: set<string>): seq<Conflict> {
    if ls == [] then [] else
      var l := ls[|ls| - 1];
      DestinationConflicts(ls[..|ls| - 1], names) + HostConflicts(l.name, l.virtualHosts, names)
  }

  /** Everything `validate` reports, in the order it reports it. */
  function Conflicts(cfg: RuntimeConfig): seq<Conflict> {
    ListenerConflicts(cfg.listeners) + ClusterConflicts(cfg.clusters) +
    DestinationConflicts(cfg.listeners, ClusterNames(cfg.clusters))
  }

  // ---------- the reported conflicts are exactly the ways of being ill formed ----------

  /** Comparing each listener only with the previous one on its bind decides pairwise agreement. */
  lemma {:induction false} ListenerConflictsExact(ls: seq<Listener>)
    ensures ListenerConflicts(ls) == [] <==> UniqueListeners(ls) && BindsAgree(ls)
    ensures forall c | c in ListenerConflicts(ls) :: c.DuplicateListener? || c.ListenerBindConflict?
  {
    if ls != [] {
      var n := |ls| - 1;
      ListenerConflictsExact(ls[..n]);
      if BindsAgree(ls[..n]) { OneListenerConflictsExact(ls[..n], ls[n]); }
      SplitLast(ls);
      var earlier, last := ListenerConflicts(ls[..n]), OneListenerConflicts(ls[..n], ls[n]);
      assert ListenerConflicts(ls) == earlier + last;
    }
  }

  lemma {:induction false} OneListenerConflictsExact(before: seq<Listener>, l: Listener)
    requires BindsAgree(before)
    ensures OneListenerConflicts(before, l) == [] <==>
      (forall i | 0 <= i < |before| :: before[i].name != l.name)
        && forall i | 0 <= i < |before| :: Compatible(before[i], l)
  {
    if l.name in ListenerNames(before) {
      var b :| b in before && b.name == l.name;
      var i :| 0 <= i < |before| && before[i] == b;
      assert before[i].name == l.name;
    }
    PreviousDecides(before, l);
  }

  lemma {:induction false} SplitLast(ls: seq<Listener>)
    requires ls != []
    ensures var n := |ls| - 1;
      && (UniqueListeners(ls) <==> UniqueListeners(ls[..n]) && forall i | 0 <= i < n :: ls[..n][i].name != ls[n].name)
      && (BindsAgree(ls) <==> BindsAgree(ls[..n]) && forall i | 0 <= i < n :: Compatible(ls[..n][i], ls[n]))
  {
    var n := |ls| - 1;
    assert forall i | 0 <= i < n :: ls[..n][i] == ls[i];
  }

  /** In a list that already agrees, the last listener on a bind speaks for all of them. */
  lemma {:induction false} PreviousDecides(before: seq<Listener>, l: Listener)
    requires BindsAgree(before)
    ensures (match LastOnBind(before, l.bind) case None => true case Some(p) => Compatible(p, l))
      <==> forall i | 0 <= i < |before| :: Compatible(before[i], l)
  {
    match LastOnBind(before, l.bind)
    case None =>
      assert forall i | 0 <= i < |before| :: before[i] in before;
    case Some(p) =>
      var k :| 0 <= k < |before| && before[k] == p;
      forall i | 0 <= i < |before| && Compatible(p, l) ensures Compatible(before[i], l) {
        assert i < k ==> Compatible(before[i], before[k]);
        assert k < i ==> Compatible(before[k], before[i]);
      }
  }

  /** `i` is the last listener before `j` on the bind of `j`. */
  ghost predicate PreviousOnBind(ls: seq<Listener>, i: nat, j: nat) {
    && i < j < |ls| && ls[i].bind == ls[j].bind
    && forall k | i < k < j :: ls[k].bind != ls[j].bind
  }

  /** Listener `j` is at fault in the way `c` says. */
  ghost predicate ListenerFault(ls: seq<Listener>, j: nat, c: Conflict) {
    && j < |ls|
    && match c
       case DuplicateListener(name) => ls[j].name == name && exists i | 0 <= i < j :: ls[i].name == name
       case ListenerBindConflict(existing, name, bind) =>
         && ls[j].name == name && ls[j].bind == bind
         && exists i: nat :: PreviousOnBind(ls, i, j) && ls[i].name == existing && !Compatible(ls[i], ls[j])
       case _ => false
  }

  lemma {:induction false} LastOnBindIsPrevious(ls: seq<Listener>, bind: SocketAddr) returns (i: nat)
    ensures match LastOnBind(ls, bind)
      case None => forall k | 0 <= k < |ls| :: ls[k].bind != bind
      case Some(l) =>
        i < |ls| && ls[i] == l && l.bind == bind && forall k | i < k < |ls| :: ls[k].bind != bind
  {
    i := 0;
    if ls != [] {
      var n := |ls| - 1;
      if ls[n].bind == bind {
        i := n;
      } else {
        i := LastOnBindIsPrevious(ls[..n], bind);
        assert forall k | 0 <= k < n :: ls[..n][k] == ls[k];
      }
    }
  }

  lemma {:induction false} LastListenerFault(ls: seq<Listener>, c: Conflict)
    requires ls != []
    ensures c in OneListenerConflicts(ls[..|ls| - 1], ls[|ls| - 1]) <==> ListenerFault(ls, |ls| - 1, c)
  {
    var n := |ls| - 1;
    var before, l := ls[..n], ls[n];
    assert forall k | 0 <= k < n :: before[k] == ls[k];
    assert l.name in ListenerNames(before) <==> exists i | 0 <= i < n :: ls[i].name == l.name by {
      if i :| 0 <= i < n && ls[i].name == l.name { assert before[i] in before; }
      if b :| b in before && b.name == l.name {
        var i :| 0 <= i < n && before[i] == b;
        assert ls[i].name == l.name;
      }
    }
    var p := LastOnBindIsPrevious(before, l.bind);
    if LastOnBind(before, l.bind).Some? {
      assert PreviousOnBind(ls, p, n);
      assert forall i: nat :: PreviousOnBind(ls, i, n) ==> i == p;
    }
  }

  lemma {:induction false} EarlierListenerFault(ls: seq<Listener>, j: nat, c: Conflict)
    requires j < |ls| - 1
    ensures ListenerFault(ls, j, c) <==> ListenerFault(ls[..|ls| - 1], j, c)
  {
    var before := ls[..|ls| - 1];
    assert forall k | 0 <= k < |before| :: before[k] == ls[k];
    assert forall i: nat :: PreviousOnBind(ls, i, j) <==> PreviousOnBind(before, i, j);
  }

  ghost predicate SomeListenerFault(ls: seq<Listener>, c: Conflict) {
    exists j: nat :: ListenerFault(ls, j, c)
  }

  lemma {:induction false} SplitLastFault(ls: seq<Listener>, c: Conflict)
    requires ls != []
    ensures var n := |ls| - 1;
      SomeListenerFault(ls, c) <==> SomeListenerFault(ls[..n], c) || ListenerFault(ls, n, c)
  {
    var n := |ls| - 1;
    if j: nat :| ListenerFault(ls, j, c) && j != n {
      EarlierListenerFault(ls, j, c);
    }
    if j: nat :| ListenerFault(ls[..n], j, c) {
      EarlierListenerFault(ls, j, c);
    }
  }

  /** Each listener conflict reported names a listener at fault in that way, and every such fault is reported. */
  lemma {:induction false} ListenerConflictsName(ls: seq<Listener>, c: Conflict)
    ensures c in ListenerConflicts(ls) <==> SomeListenerFault(ls, c)
  {
    if ls != [] {
      ListenerConflictsName(ls[..|ls| - 1], c);
      LastListenerFault(ls, c);
      SplitLastFault(ls, c);
    }
  }

  /** Cluster `j` repeats an earlier name, which `c` reports. */
  ghost predicate ClusterFault(cs: seq<Cluster>, j: nat, c: Conflict) {
    j < |cs| && c == DuplicateCluster(cs[j].name) && exists i | 0 <= i < j :: cs[i].name == cs[j].name
  }

  lemma {:induction false} EarlierClusterFault(cs: seq<Cluster>, j: nat, c: Conflict)
    requires j < |cs| - 1
    ensures ClusterFault(cs, j, c) <==> ClusterFault(cs[..|cs| - 1], j, c)
  {
    assert forall k | 0 <= k < |cs| - 1 :: cs[..|cs| - 1][k] == cs[k];
  }

  lemma {:induction false} LastClusterFault(cs: seq<Cluster>, c: Conflict)
    requires cs != []
    ensures var n := |cs| - 1;
      ClusterFault(cs, n, c) <==> c == DuplicateCluster(cs[n].name) && cs[n].name in ClusterNames(cs[..n])
  {
    var n := |cs| - 1;
    NameTaken(cs[..n], cs[n].name);
    assert forall k | 0 <= k < n :: cs[..n][k] == cs[k];
  }

  /** The same for clusters: a name is reported exactly if it occurs twice. */
  lemma {:induction false} ClusterConflictsName(cs: seq<Cluster>, c: Conflict)
    ensures c in ClusterConflicts(cs) <==> exists j: nat :: ClusterFault(cs, j, c)
  {
    if cs != [] {
      var n := |cs| - 1;
      ClusterConflictsName(cs[..n], c);
      LastClusterFault(cs, c);
      forall j: nat | j < n ensures ClusterFault(cs, j, c) <==> ClusterFault(cs[..n], j, c) {
        EarlierClusterFault(cs, j, c);
      }
    }
  }

  lemma {:induction false} ClusterConflictsExact(cs: seq<Cluster>)
    ensures ClusterConflicts(cs) == [] <==> UniqueClusters(cs)
    ensures forall c | c in ClusterConflicts(cs) :: c.DuplicateCluster?
  {
    if cs != [] {
      var n := |cs| - 1;
      ClusterConflictsExact(cs[..n]);
      NameTaken(cs[..n], cs[n].name);
      SplitLastCluster(cs);
    }
  }

  lemma {:induction false} NameTaken(cs: seq<Cluster>, name: string)
    ensures name in ClusterNames(cs) <==> !(forall i | 0 <= i < |cs| :: cs[i].name != name)
  {
    if name in ClusterNames(cs) {
      var c :| c in cs && c.name == name;
      var i :| 0 <= i < |cs| && cs[i] == c;
      assert cs[i].name == name;
    }
  }

  lemma {:induction false} SplitLastCluster(cs: seq<Cluster>)
    requires cs != []
    ensures var n := |cs| - 1;
      UniqueClusters(cs) <==> UniqueClusters(cs[..n]) && forall i | 0 <= i < n :: cs[..n][i].name != cs[n].name
  {
    var n := |cs| - 1;
    assert forall i | 0 <= i < n :: cs[..n][i] == cs[i];
  }

  /** Route `r` of listener `listener` is at fault in the way `c` says. */
  ghost predicate RouteFaults(c: Conflict, listener: string, r: Route, names: set<string>) {
    match c
    case EmptyRouteDestination(route, l) => r.weightedClusters == [] && route == r.name && l == listener
    case MissingCluster(route, cluster) =>
      route == r.name && cluster !in names && exists d :: d in r.weightedClusters && d.name == cluster
    case _ => false
  }

  lemma {:induction false} MissingConflictsExact(
    route: string, ds: seq<WeightedCluster>, names: set<string>, c: Conflict)
    ensures c in MissingConflicts(route, ds, names) <==>
      c.MissingCluster? && c.route == route && c.cluster !in names && exists d :: d in ds && d.name == c.cluster
  {
    if ds != [] {
      var n := |ds| - 1;
      MissingConflictsExact(route, ds[..n], names, c);
      assert ds == ds[..n] + [ds[n]];
    }
  }

  lemma {:induction false} OneRouteConflictsExact(listener: string, r: Route, names: set<string>, c: Conflict)
    ensures c in OneRouteConflicts(listener, r, names) <==> RouteFaults(c, listener, r, names)
  {
    MissingConflictsExact(r.name, r.weightedClusters, names, c);
  }

  ghost predicate SomeRouteFaults(c: Conflict, listener: string, rs: seq<Route>, names: set<string>) {
    exists k | 0 <= k < |rs| :: RouteFaults(c, listener, rs[k], names)
  }

  lemma {:induction false} RouteConflictsExact(listener: string, rs: seq<Route>, names: set<string>, c: Conflict)
    ensures c in RouteConflicts(listener, rs, names) <==> SomeRouteFaults(c, listener, rs, names)
  {
    if rs != [] {
      var n := |rs| - 1;
      RouteConflictsExact(listener, rs[..n], names, c);
      OneRouteConflictsExact(listener, rs[n], names, c);
      SplitLastRoute(c, listener, rs, names);
      var earlier, last := RouteConflicts(listener, rs[..n], names), OneRouteConflicts(listener, rs[n], names);
      assert RouteConflicts(listener, rs, names) == earlier + last;
      assert c in earlier + last <==> c in earlier || c in last;
    }
  }

  lemma {:induction false} SplitLastRoute(c: Conflict, listener: string, rs: seq<Route>, names: set<string>)
    requires rs != []
    ensures var n := |rs| - 1;
      SomeRouteFaults(c, listener, rs, names) <==>
      SomeRouteFaults(c, listener, rs[..n], names) || RouteFaults(c, listener, rs[n], names)
  {
    var n := |rs| - 1;
    assert forall k | 0 <= k < n :: rs[..n][k] == rs[k];
  }

  ghost predicate SomeHostFaults(c: Conflict, listener: string, hosts: seq<VirtualHost>, names: set<string>) {
    exists k | 0 <= k < |hosts| :: SomeRouteFaults(c, listener, hosts[k].routes, names)
  }

  lemma {:induction false} HostConflictsExact(
    listener: string, hosts: seq<VirtualHost>, names: set<string>, c: Conflict)
    ensures c in HostConflicts(listener, hosts, names) <==> SomeHostFaults(c, listener, hosts, names)
  {
    if hosts != [] {
      var n := |hosts| - 1;
      HostConflictsExact(listener, hosts[..n], names, c);
      RouteConflictsExact(listener, hosts[n].routes, names, c);
      SplitLastHost(c, listener, hosts, names);
      var earlier, last := HostConflicts(listener, hosts[..n], names), RouteConflicts(listener, hosts[n].routes, names);
      assert HostConflicts(listener, hosts, names) == earlier + last;
      assert c in earlier + last <==> c in earlier || c in last;
    }
  }

  lemma {:induction false} SplitLastHost(c: Conflict, listener: string, hosts: seq<VirtualHost>, names: set<string>)
    requires hosts != []
    ensures var n := |hosts| - 1;
      SomeHostFaults(c, listener, hosts, names) <==>
      SomeHostFaults(c, listener, hosts[..n], names) || SomeRouteFaults(c, listener, hosts[n].routes, names)
  {
    var n := |hosts| - 1;
    assert forall k | 0 <= k < n :: hosts[..n][k] == hosts[k];
  }

  ghost predicate SomeListenerFaults(c: Conflict, ls: seq<Listener>, names: set<string>) {
    exists k | 0 <= k < |ls| :: SomeHostFaults(c, ls[k].name, ls[k].virtualHosts, names)
  }

  /** A destination conflict is reported exactly when some route of some listener is at fault that way. */
  lemma {:induction false} DestinationConflictsExact(ls: seq<Listener>, names: set<string>, c: Conflict)
    ensures c in DestinationConflicts(ls, names) <==> SomeListenerFaults(c, ls, names)
  {
    if ls != [] {
      var n := |ls| - 1;
      DestinationConflictsExact(ls[..n], names, c);
      HostConflictsExact(ls[n].name, ls[n].virtualHosts, names, c);
      SplitLastListener(c, ls, names);
      var earlier, last := DestinationConflicts(ls[..n], names), HostConflicts(ls[n].name, ls[n].virtualHosts, names);
      assert DestinationConflicts(ls, names) == earlier + last;
      assert c in earlier + last <==> c in earlier || c in last;
    }
  }

  lemma {:induction false} SplitLastListener(c: Conflict, ls: seq<Listener>, names: set<string>)
    requires ls != []
    ensures var n := |ls| - 1;
      SomeListenerFaults(c, ls, names) <==>
      SomeListenerFaults(c, ls[..n], names) || SomeHostFaults(c, ls[n].name, ls[n].virtualHosts, names)
  {
    var n := |ls| - 1;
    assert forall k | 0 <= k < n :: ls[..n][k] == ls[k];
  }

  lemma {:induction false} FaultBreaksResolution(ls: seq<Listener>, names: set<string>, c: Conflict)
    requires SomeListenerFaults(c, ls, names)
    ensures exists l :: l in ls && !HostsResolve(l.virtualHosts, names)
  {
    var i :| 0 <= i < |ls| && SomeHostFaults(c, ls[i].name, ls[i].virtualHosts, names);
    var hosts := ls[i].virtualHosts;
    var j :| 0 <= j < |hosts| && SomeRouteFaults(c, ls[i].name, hosts[j].routes, names);
    var k :| 0 <= k < |hosts[j].routes| && RouteFaults(c, ls[i].name, hosts[j].routes[k], names);
    assert hosts[j] in hosts && !DestinationsExist(hosts[j].routes[k], names);
    assert ls[i] in ls && !HostsResolve(ls[i].virtualHosts, names);
  }

  lemma {:induction false} BrokenResolutionFaults(
    ls: seq<Listener>, names: set<string>, l: Listener)
    returns (c: Conflict)
    requires l in ls && !HostsResolve(l.virtualHosts, names)
    ensures SomeListenerFaults(c, ls, names)
  {
    var i :| 0 <= i < |ls| && ls[i] == l;
    var h, r :| h in l.virtualHosts && r in h.routes && !DestinationsExist(r, names);
    var j :| 0 <= j < |l.virtualHosts| && l.virtualHosts[j] == h;
    var k :| 0 <= k < |h.routes| && h.routes[k] == r;
    if r.weightedClusters == [] {
      c := EmptyRouteDestination(r.name, l.name);
    } else {
      var d :| d in r.weightedClusters && d.name !in names;
      c := MissingCluster(r.name, d.name);
    }
    assert RouteFaults(c, l.name, h.routes[k], names);
    assert SomeRouteFaults(c, l.name, l.virtualHosts[j].routes, names);
    assert SomeHostFaults(c, ls[i].name, ls[i].virtualHosts, names);
  }

  lemma {:induction false} DestinationsResolve(ls: seq<Listener>, names: set<string>)
    ensures DestinationConflicts(ls, names) == [] <==> forall l | l in ls :: HostsResolve(l.virtualHosts, names)
  {
    if DestinationConflicts(ls, names) != [] {
      var c := DestinationConflicts(ls, names)[0];
      DestinationConflictsExact(ls, names, c);
      FaultBreaksResolution(ls, names, c);
    }
    if l :| l in ls && !HostsResolve(l.virtualHosts, names) {
      var c := BrokenResolutionFaults(ls, names, l);
      DestinationConflictsExact(ls, names, c);
    }
  }

  /** Validation is sound and complete for well-formedness. */
  lemma {:induction false} ConflictsExact(cfg: RuntimeConfig)
    ensures Conflicts(cfg) == [] <==> WellFormed(cfg)
  {
    ListenerConflictsExact(cfg.listeners);
    ClusterConflictsExact(cfg.clusters);
    DestinationsResolve(cfg.listeners, ClusterNames(cfg.clusters));
  }

  lemma {:induction false} EmptyConfigIsWellFormed(version: string)
    ensures WellFormed(EmptyConfig(version))
  {
  }

  // ---------- the validation loops ----------

  ghost predicate BindsRecord(ls: seq<Listener>, binds: map<SocketAddr, Listener>) {
    forall b: SocketAddr :: LastOnBind(ls, b) == if b in binds then Some(binds[b]) else None
  }

  lemma {:induction false} BindsExtend(ls: seq<Listener>, l: Listener, binds: map<SocketAddr, Listener>)
    requires BindsRecord(ls, binds)
    ensures BindsRecord(ls + [l], binds[l.bind := l])
  {
    assert (ls + [l])[..|ls|] == ls;
  }

  lemma {:induction false} ListenerNext(ls: seq<Listener>, i: nat)
    requires i < |ls|
    ensures ls[..i + 1] == ls[..i] + [ls[i]]
    ensures ListenerConflicts(ls[..i + 1]) == ListenerConflicts(ls[..i]) + OneListenerConflicts(ls[..i], ls[i])
    ensures ListenerNames(ls[..i + 1]) == ListenerNames(ls[..i]) + {ls[i].name}
  {
    assert ls[..i + 1] == ls[..i] + [ls[i]] && ls[..i + 1][..i] == ls[..i];
  }

  /** The checks on one listener against the record of binds. */
  method CheckListener(l: Listener, names: set<string>, binds: map<SocketAddr, Listener>, ghost before: seq<Listener>)
    returns (found: seq<Conflict>)
    requires names == ListenerNames(before) && BindsRecord(before, binds)
    ensures found == OneListenerConflicts(before, l)
  {
    found := [];
    if l.name in names {
      found := [DuplicateListener(l.name)];
    }
    assert LastOnBind(before, l.bind) == if l.bind in binds then Some(binds[l.bind]) else None;
    if l.bind in binds {
      var p := binds[l.bind];
      if p.protocol != l.protocol || p.tlsSecret.Some? != l.tlsSecret.Some? {
        found := found + [ListenerBindConflict(p.name, l.name, l.bind)];
      }
    }
  }

  method ListenerPass(ls: seq<Listener>) returns (conflicts: seq<Conflict>)
    ensures conflicts == ListenerConflicts(ls)
  {
    conflicts := [];
    var names: set<string> := {};
    var binds: map<SocketAddr, Listener> := map[];
    for i := 0 to |ls|
      invariant conflicts == ListenerConflicts(ls[..i])
      invariant names == ListenerNames(ls[..i])
      invariant BindsRecord(ls[..i], binds)
    {
      var l := ls[i];
      var found := CheckListener(l, names, binds, ls[..i]);
      ListenerNext(ls, i);
      BindsExtend(ls[..i], l, binds);
      names := names + {l.name};
      binds := binds[l.bind := l];
      conflicts := conflicts + found;
    }
    assert ls[..|ls|] == ls;
  }

  lemma {:induction false} ClusterNext(cs: seq<Cluster>, i: nat)
    requires i < |cs|
    ensures ClusterConflicts(cs[..i + 1]) == ClusterConflicts(cs[..i]) +
      if cs[i].name in ClusterNames(cs[..i]) then [DuplicateCluster(cs[i].name)] else []
    ensures ClusterNames(cs[..i + 1]) == ClusterNames(cs[..i]) + {cs[i].name}
  {
    assert cs[..i + 1] == cs[..i] + [cs[i]] && cs[..i + 1][..i] == cs[..i];
  }

  method ClusterPass(cs: seq<Cluster>) returns (conflicts: seq<Conflict>, names: set<string>)
    ensures conflicts == ClusterConflicts(cs) && names == ClusterNames(cs)
  {
    conflicts, names := [], {};
    for i := 0 to |cs|
      invariant conflicts == ClusterConflicts(cs[..i])
      invariant names == ClusterNames(cs[..i])
    {
      ClusterNext(cs, i);
      if cs[i].name in names {
        conflicts := conflicts + [DuplicateCluster(cs[i].name)];
      }
      names := names + {cs[i].name};
    }
    assert cs[..|cs|] == cs;
  }

  lemma {:induction false} RouteNext(listener: string, rs: seq<Route>, names: set<string>, i: nat)
    requires i < |rs|
    ensures RouteConflicts(listener, rs[..i + 1], names) ==
      RouteConflicts(listener, rs[..i], names) + OneRouteConflicts(listener, rs[i], names)
  {
    assert rs[..i + 1][..i] == rs[..i];
  }

  /** The checks on one route: an empty destination list, then each destination. */
  method CheckRoute(listener: string, r: Route, names: set<string>) returns (found: seq<Conflict>)
    ensures found == OneRouteConflicts(listener, r, names)
  {
    var ds := r.weightedClusters;
    var empty := if ds == [] then [EmptyRouteDestination(r.name, listener)] else [];
    found := [];
    for j := 0 to |ds|
      invariant found == MissingConflicts(r.name, ds[..j], names)
    {
      assert ds[..j + 1][..j] == ds[..j];
      if ds[j].name !in names {
        found := found + [MissingCluster(r.name, ds[j].name)];
      }
    }
    assert ds[..|ds|] == ds;
    found := empty + found;
  }

  method RoutePass(listener: string, rs: seq<Route>, names: set<string>) returns (conflicts: seq<Conflict>)
    ensures conflicts == RouteConflicts(listener, rs, names)
  {
    conflicts := [];
    for i := 0 to |rs|
      invariant conflicts == RouteConflicts(listener, rs[..i], names)
    {
      var found := CheckRoute(listener, rs[i], names);
      RouteNext(listener, rs, names, i);
      conflicts := conflicts + found;
    }
    assert rs[..|rs|] == rs;
  }

  lemma {:induction false} HostNext(listener: string, hosts: seq<VirtualHost>, names: set<string>, i: nat)
    requires i < |hosts|
    ensures HostConflicts(listener, hosts[..i + 1], names) ==
      HostConflicts(listener, hosts[..i], names) + RouteConflicts(listener, hosts[i].routes, names)
  {
    assert hosts[..i + 1][..i] == hosts[..i];
  }

  method HostPass(listener: string, hosts: seq<VirtualHost>, names: set<string>) returns (conflicts: seq<Conflict>)
    ensures conflicts == HostConflicts(listener, hosts, names)
  {
    conflicts := [];
    for i := 0 to |hosts|
      invariant conflicts == HostConflicts(listener, hosts[..i], names)
    {
      var found := RoutePass(listener, hosts[i].routes, names);
      HostNext(listener, hosts, names, i);
      conflicts := conflicts + found;
    }
    assert hosts[..|hosts|] == hosts;
  }

  lemma {:induction false} DestinationNext(ls: seq<Listener>, names: set<string>, i: nat)
    requires i < |ls|
    ensures DestinationConflicts(ls[..i + 1], names) ==
      DestinationConflicts(ls[..i], names) + HostConflicts(ls[i].name, ls[i].virtualHosts, names)
  {
    assert ls[..i + 1][..i] == ls[..i];
  }

  method DestinationPass(ls: seq<Listener>, names: set<string>) returns (conflicts: seq<Conflict>)
    ensures conflicts == DestinationConflicts(ls, names)
  {
    conflicts := [];
    for i := 0 to |ls|
      invariant conflicts == DestinationConflicts(ls[..i], names)
    {
      var found := HostPass(ls[i].name, ls[i].virtualHosts, names);
      DestinationNext(ls, names, i);
      conflicts := conflicts + found;
    }
    assert ls[..|ls|] == ls;
  }

  /** `RuntimeConfig::validate`. */
  method Validate(cfg: RuntimeConfig) returns (r: Result<(), seq<Conflict>>)
    ensures r.Ok? <==> WellFormed(cfg)
    ensures r.Err? ==> r.error == Conflicts(cfg)
  {
    var conflicts := ListenerPass(cfg.listeners);
    var more, names := ClusterPass(cfg.clusters);
    conflicts := conflicts + more;
    more := DestinationPass(cfg.listeners, names);
    conflicts := conflicts + more;
    ConflictsExact(cfg);
    r := if conflicts == [] then Ok(()) else Err(conflicts);
  }

  // ---------- routing ----------

  datatype MatchInput = MatchInput(host: string, path: string, headers: seq<(string, string)>)

  predicate DomainMatches(domain: string, host: string) {
    || domain == "*"
    || EqIgnoreAsciiCase(domain, host)
    || (StartsWith(domain, "*.") && EndsWith(host, domain[2..]))
  }

  predicate HostMatches(domains: seq<string>, host: string) {
    exists d | d in domains :: DomainMatches(d, host)
  }

  predicate PathMatches(p: PathMatch, path: string) {
    match p
    case Prefix(prefix) => StartsWith(path, prefix)
    case Exact(exact) => path == exact
  }

  predicate HeaderPresent(name: string, value: string, input: MatchInput) {
    exists h | h in input.headers :: EqIgnoreAsciiCase(h.0, name) && h.1 == value
  }

  predicate MatchMatches(m: RouteMatch, input: MatchInput) {
    PathMatches(m.path, input.path) && forall h | h in m.headers :: HeaderPresent(h.name, h.value, input)
  }

  predicate RouteMatches(r: Route, input: MatchInput) {
    r.matches == [] || exists m | m in r.matches :: MatchMatches(m, input)
  }

  // ---------- what matching means: texts put together, lists by position ----------

  ghost predicate Wildcard(domain: string, host: string, s: string) {
    domain == "*." + s && HasSuffix(host, s)
  }

  /** The domain is `*`, or is the host but for case, or is `*.` and a text that the host ends with. */
  ghost predicate Covers(domain: string, host: string) {
    domain == "*" || SameIgnoringCase(domain, host) || exists s :: Wildcard(domain, host, s)
  }

  ghost predicate ServesHost(domains: seq<string>, host: string) {
    exists i | 0 <= i < |domains| :: Covers(domains[i], host)
  }

  ghost predicate PathFits(p: PathMatch, path: string) {
    match p
    case Prefix(prefix) => HasPrefix(path, prefix)
    case Exact(exact) => path == exact
  }

  /** Some header has the name, but for case, and exactly the value. */
  ghost predicate HeaderFits(name: string, value: string, headers: seq<(string, string)>) {
    exists i | 0 <= i < |headers| :: SameIgnoringCase(headers[i].0, name) && headers[i].1 == value
  }

  ghost predicate MatchFits(m: RouteMatch, input: MatchInput) {
    && PathFits(m.path, input.path)
    && forall i | 0 <= i < |m.headers| :: HeaderFits(m.headers[i].name, m.headers[i].value, input.headers)
  }

  ghost predicate RouteFits(r: Route, input: MatchInput) {
    r.matches == [] || exists i | 0 <= i < |r.matches| :: MatchFits(r.matches[i], input)
  }

  lemma {:induction false} DomainMatchesExact(domain: string, host: string)
    ensures DomainMatches(domain, host) <==> Covers(domain, host)
  {
    EqIgnoreAsciiCaseExact(domain, host);
    StartsWithExact(domain, "*.");
    if StartsWith(domain, "*.") {
      assert domain == "*." + domain[2..];
      EndsWithExact(host, domain[2..]);
      assert forall s :: Wildcard(domain, host, s) ==> s == domain[2..];
    }
    if s :| Wildcard(domain, host, s) { assert HasPrefix(domain, "*."); }
    if DomainMatches(domain, host) && StartsWith(domain, "*.") && EndsWith(host, domain[2..]) {
      assert Wildcard(domain, host, domain[2..]);
    }
  }

  lemma {:induction false} HostMatchesExact(domains: seq<string>, host: string)
    ensures HostMatches(domains, host) <==> ServesHost(domains, host)
  {
    forall d ensures DomainMatches(d, host) <==> Covers(d, host) { DomainMatchesExact(d, host); }
    if HostMatches(domains, host) {
      var d :| d in domains && DomainMatches(d, host);
      var i :| 0 <= i < |domains| && domains[i] == d;
      assert Covers(domains[i], host);
    }
  }

  lemma {:induction false} HeaderPresentExact(name: string, value: string, input: MatchInput)
    ensures HeaderPresent(name, value, input) <==> HeaderFits(name, value, input.headers)
  {
    var hs := input.headers;
    forall h ensures EqIgnoreAsciiCase(h, name) <==> SameIgnoringCase(h, name) { EqIgnoreAsciiCaseExact(h, name); }
    if HeaderPresent(name, value, input) {
      var h :| h in hs && EqIgnoreAsciiCase(h.0, name) && h.1 == value;
      var i :| 0 <= i < |hs| && hs[i] == h;
      assert SameIgnoringCase(hs[i].0, name) && hs[i].1 == value;
    }
    if i :| 0 <= i < |hs| && SameIgnoringCase(hs[i].0, name) && hs[i].1 == value {
      assert hs[i] in hs && EqIgnoreAsciiCase(hs[i].0, name);
    }
  }

  lemma {:induction false} PathMatchesExact(p: PathMatch, path: string)
    ensures PathMatches(p, path) <==> PathFits(p, path)
  {
    if p.Prefix? { StartsWithExact(path, p.prefix); }
  }

  lemma {:induction false} MatchMatchesExact(m: RouteMatch, input: MatchInput)
    ensures MatchMatches(m, input) <==> MatchFits(m, input)
  {
    PathMatchesExact(m.path, input.path);
    forall i | 0 <= i < |m.headers|
      ensures HeaderPresent(m.headers[i].name, m.headers[i].value, input) <==>
        HeaderFits(m.headers[i].name, m.headers[i].value, input.headers)
    {
      HeaderPresentExact(m.headers[i].name, m.headers[i].value, input);
    }
    assert (forall h | h in m.headers :: HeaderPresent(h.name, h.value, input)) <==>
      forall i | 0 <= i < |m.headers| :: HeaderPresent(m.headers[i].name, m.headers[i].value, input);
  }

  /**
   A route matches a request if and only if it has no matcher, or one of its matchers fits the path and all headers.
   */
  lemma {:induction false} RouteMatchesExact(r: Route, input: MatchInput)
    ensures RouteMatches(r, input) <==> RouteFits(r, input)
  {
    forall m ensures MatchMatches(m, input) <==> MatchFits(m, input) { MatchMatchesExact(m, input); }
    if m :| m in r.matches && MatchMatches(m, input) {
      var i :| 0 <= i < |r.matches| && r.matches[i] == m;
      assert MatchFits(r.matches[i], input);
    }
  }

  // ---------- searching ----------

  function FindListener(ls: seq<Listener>, port: u16): Option<Listener> {
    if ls == [] then None
    else if ls[0].bind.port == port then Some(ls[0])
    else FindListener(ls[1..], port)
  }

  function FindCluster(cs: seq<Cluster>, name: string): (r: Option<Cluster>)
    ensures r.Some? <==> name in ClusterNames(cs)
    ensures r.Some? ==> r.value in cs && r.value.name == name
  {
    if cs == [] then None
    else if cs[0].name == name then Some(cs[0])
    else assert cs == [cs[0]] + cs[1..]; FindCluster(cs[1..], name)
  }

  function FindRoute(rs: seq<Route>, input: MatchInput): Option<Route> {
    if rs == [] then None
    else if RouteMatches(rs[0], input) then Some(rs[0])
    else FindRoute(rs[1..], input)
  }

  function FindInHost(h: VirtualHost, input: MatchInput): Option<Route> {
    if HostMatches(h.domains, input.host) then FindRoute(h.routes, input) else None
  }

  /** The routes of the virtual hosts that match the host, searched in order. */
  function FindInHosts(hosts: seq<VirtualHost>, input: MatchInput): Option<Route> {
    if hosts == [] then None else
      var here := FindInHost(hosts[0], input);
      if here.Some? then here else FindInHosts(hosts[1..], input)
  }

  /** `RuntimeConfig::route_for`; `None` stands for the route-not-found error. */
  function RouteFor(cfg: RuntimeConfig, port: u16, input: MatchInput): Option<Route> {
    match FindListener(cfg.listeners, port)
    case None => None
    case Some(l) => FindInHosts(l.virtualHosts, input)
  }

  /**
   Host `i` and route `j` are the first that match: no earlier host has a match, no earlier route of host `i` does.
   */
  ghost predicate IsFirstMatch(hosts: seq<VirtualHost>, input: MatchInput, i: nat, j: nat) {
    && i < |hosts| && ServesHost(hosts[i].domains, input.host) && IsFirstRoute(hosts[i].routes, input, j)
    && NoneMatches(hosts[..i], input)
  }

  ghost predicate NoneMatches(hosts: seq<VirtualHost>, input: MatchInput) {
    forall h, r | h in hosts && r in h.routes :: !(ServesHost(h.domains, input.host) && RouteFits(r, input))
  }

  ghost predicate IsFirstRoute(rs: seq<Route>, input: MatchInput, j: nat) {
    j < |rs| && RouteFits(rs[j], input) && forall k | 0 <= k < j :: !RouteFits(rs[k], input)
  }

  lemma {:induction false} FindRouteIsFirst(rs: seq<Route>, input: MatchInput) returns (j: nat)
    ensures match FindRoute(rs, input)
      case None => forall r | r in rs :: !RouteFits(r, input)
      case Some(r) => IsFirstRoute(rs, input, j) && r == rs[j]
  {
    j := 0;
    if rs != [] {
      RouteMatchesExact(rs[0], input);
      if !RouteMatches(rs[0], input) {
        assert rs == [rs[0]] + rs[1..];
        j := FindRouteIsFirst(rs[1..], input);
        j := j + 1;
      }
    }
  }

  /** The search returns the first match in host order then route order, and `None` only when nothing matches. */
  lemma {:induction false} FindInHostsIsFirst(hosts: seq<VirtualHost>, input: MatchInput) returns (i: nat, j: nat)
    ensures match FindInHosts(hosts, input)
      case None => NoneMatches(hosts, input)
      case Some(r) => IsFirstMatch(hosts, input, i, j) && r == hosts[i].routes[j]
  {
    i, j := 0, 0;
    if hosts != [] {
      j := FindRouteIsFirst(hosts[0].routes, input);
      HostMatchesExact(hosts[0].domains, input.host);
      if FindInHost(hosts[0], input).None? {
        assert hosts == [hosts[0]] + hosts[1..];
        i, j := FindInHostsIsFirst(hosts[1..], input);
        i := i + 1;
        if FindInHosts(hosts, input).Some? {
          assert hosts[..i] == [hosts[0]] + hosts[1..][..i - 1];
        }
      } else {
        assert hosts[..0] == [];
      }
    }
  }

  ghost predicate IsFirstOnPort(ls: seq<Listener>, port: u16, i: nat) {
    i < |ls| && ls[i].bind.port == port && forall k | 0 <= k < i :: ls[k].bind.port != port
  }

  /** The listener chosen for a port is the first one bound to it. */
  lemma {:induction false} FoundListener(ls: seq<Listener>, port: u16) returns (i: nat)
    ensures match FindListener(ls, port)
      case None => forall l | l in ls :: l.bind.port != port
      case Some(l) => IsFirstOnPort(ls, port, i) && l == ls[i] && l in ls
  {
    i := 0;
    if ls != [] && ls[0].bind.port != port {
      i := FoundListener(ls[1..], port);
      i := i + 1;
    }
  }

  ghost predicate IsFirstNamed(cs: seq<Cluster>, name: string, i: nat) {
    i < |cs| && cs[i].name == name && forall k | 0 <= k < i :: cs[k].name != name
  }

  /** The cluster chosen for a name is the first one of that name. */
  lemma {:induction false} FoundCluster(cs: seq<Cluster>, name: string) returns (i: nat)
    ensures match FindCluster(cs, name)
      case None => forall c | c in cs :: c.name != name
      case Some(c) => IsFirstNamed(cs, name, i) && c == cs[i]
  {
    i := 0;
    if cs != [] && cs[0].name != name {
      i := FoundCluster(cs[1..], name);
      i := i + 1;
    }
  }

  /** The route for a request is the first match on the first listener of the port; none only if there is none. */
  lemma {:induction false} RouteForIsFirst(cfg: RuntimeConfig, port: u16, input: MatchInput)
    returns (l: nat, i: nat, j: nat)
    ensures match RouteFor(cfg, port, input)
      case None =>
        || (forall k | 0 <= k < |cfg.listeners| :: cfg.listeners[k].bind.port != port)
        || (IsFirstOnPort(cfg.listeners, port, l) && NoneMatches(cfg.listeners[l].virtualHosts, input))
      case Some(r) =>
        && IsFirstOnPort(cfg.listeners, port, l) && IsFirstMatch(cfg.listeners[l].virtualHosts, input, i, j)
        && r == cfg.listeners[l].virtualHosts[i].routes[j]
  {
    i, j := 0, 0;
    l := FoundListener(cfg.listeners, port);
    if FindListener(cfg.listeners, port).Some? {
      i, j := FindInHostsIsFirst(cfg.listeners[l].virtualHosts, input);
    }
  }
}
