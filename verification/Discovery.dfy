/**
 The aggregated discovery stream as values: the client's five maps, what one response does to them,
 the requests it sends and the configuration it publishes.
 */
module Discovery {
  import opened Text
  import opened Config
  import opened Messages
  import opened Endpoints
  import opened Translation

  datatype AdsView = AdsView(
    subscriptions: map<TypeUrl, seq<string>>,
    listeners: map<string, ListenerSnapshot>,
    routes: map<string, seq<VirtualHost>>,
    clusters: map<string, ClusterSnapshot>,
    endpoints: map<string, seq<Endpoint>>)

  const FRESH := AdsView(map[], map[], map[], map[], map[])

  function Subscription(s: AdsView, t: TypeUrl): seq<string> {
    if t in s.subscriptions then s.subscriptions[t] else []
  }

  // ---------- accepting resources ----------

  /** What the client makes of one resource: a decode error, nothing, or a named value. */
  datatype Outcome<T> = Failed | Skipped | Named(name: string, value: T)

  function AcceptListener(r: Resource): Outcome<ListenerSnapshot> {
    match r.asListener
    case None => Failed
    case Some(l) => match SnapshotOf(l) case None => Failed case Some(s) => Named(s.listener.name, s)
  }

  function AcceptRoute(r: Resource): Outcome<seq<VirtualHost>> {
    match r.asRoute
    case None => Failed
    case Some(rc) => Named(rc.name, ConvertVirtualHosts(rc.virtualHosts))
  }

  function AcceptCluster(r: Resource): Outcome<ClusterSnapshot> {
    match r.asCluster
    case None => Failed
    case Some(c) => if c.name == "" then Skipped else Named(c.name, ClusterOf(c))
  }

  /** The endpoints a cluster carries inline. */
  function AcceptInline(r: Resource): Outcome<seq<Endpoint>> {
    match r.asCluster
    case None => Failed
    case Some(c) =>
      if c.name == "" || c.loadAssignment.None? then Skipped
      else Named(EdsServiceName(c), FromAssignment(c.loadAssignment.value))
  }

  function AcceptAssignment(r: Resource): Outcome<seq<Endpoint>> {
    match r.asAssignment
    case None => Failed
    case Some(a) => if a.clusterName == "" then Skipped else Named(a.clusterName, FromAssignment(a))
  }

  function ListenerOutcomes(rs: seq<Resource>): seq<Outcome<ListenerSnapshot>> {
    seq(|rs|, i requires 0 <= i < |rs| => AcceptListener(rs[i]))
  }

  function RouteOutcomes(rs: seq<Resource>): seq<Outcome<seq<VirtualHost>>> {
    seq(|rs|, i requires 0 <= i < |rs| => AcceptRoute(rs[i]))
  }

  function ClusterOutcomes(rs: seq<Resource>): seq<Outcome<ClusterSnapshot>> {
    seq(|rs|, i requires 0 <= i < |rs| => AcceptCluster(rs[i]))
  }

  function InlineOutcomes(rs: seq<Resource>): seq<Outcome<seq<Endpoint>>> {
    seq(|rs|, i requires 0 <= i < |rs| => AcceptInline(rs[i]))
  }

  function AssignmentOutcomes(rs: seq<Resource>): seq<Outcome<seq<Endpoint>>> {
    seq(|rs|, i requires 0 <= i < |rs| => AcceptAssignment(rs[i]))
  }

  predicate Decodes<T>(os: seq<Outcome<T>>) {
    forall i | 0 <= i < |os| :: !os[i].Failed?
  }

  predicate Names<T>(o: Outcome<T>, k: string) {
    o.Named? && o.name == k
  }

  /** The named values of a response, later ones overriding earlier ones. */
  function Overlay<T>(os: seq<Outcome<T>>): map<string, T> {
    if os == [] then map[] else
      var before := Overlay(os[..|os| - 1]);
      match os[|os| - 1]
      case Named(k, v) => before[k := v]
      case _ => before
  }

  ghost predicate LastNaming<T>(os: seq<Outcome<T>>, k: string, i: nat) {
    i < |os| && Names(os[i], k) && forall j | i < j < |os| :: !Names(os[j], k)
  }

  /** A name is present exactly when some resource carries it, and the last such resource gives its value. */
  lemma {:induction false} OverlayLastWins<T>(os: seq<Outcome<T>>, k: string) returns (i: nat)
    ensures k in Overlay(os) ==> LastNaming(os, k, i) && os[i].value == Overlay(os)[k]
    ensures k !in Overlay(os) ==> forall j | 0 <= j < |os| :: !Names(os[j], k)
  {
    i := 0;
    if os != [] {
      var n := |os| - 1;
      if Names(os[n], k) {
        i := n;
      } else {
        i := OverlayLastWins(os[..n], k);
        assert forall j | 0 <= j < n :: os[..n][j] == os[j];
      }
    }
  }

  /** State of the world: forget what was asked for (everything, under the wildcard), then add what came. */
  function Refresh<T>(m: map<string, T>, requested: seq<string>, arrived: map<string, T>): map<string, T> {
    (if requested == [] then map[] else m - Elements(requested)) + arrived
  }

  // ---------- one response applied to the maps ----------

  /** What a response asks of the maps, once its resources are accepted. */
  datatype Update =
    | ListenerUpdate(listeners: map<string, ListenerSnapshot>)
    | RouteUpdate(routes: map<string, seq<VirtualHost>>)
    | ClusterUpdate(clusters: map<string, ClusterSnapshot>, inline: map<string, seq<Endpoint>>)
    | EndpointUpdate(endpoints: map<string, seq<Endpoint>>)
    | NoUpdate(url: string)

  function UpdateOf(resp: Response): Update {
    var rs := resp.resources;
    match resp.typeUrl
    case ListenerType => ListenerUpdate(Overlay(ListenerOutcomes(rs)))
    case RouteType => RouteUpdate(Overlay(RouteOutcomes(rs)))
    case ClusterType => ClusterUpdate(Overlay(ClusterOutcomes(rs)), Overlay(InlineOutcomes(rs)))
    case EndpointType => EndpointUpdate(Overlay(AssignmentOutcomes(rs)))
    case OtherType(url) => NoUpdate(url)
  }

  function Stage(u: Update): TypeUrl {
    match u
    case ListenerUpdate(_) => ListenerType
    case RouteUpdate(_) => RouteType
    case ClusterUpdate(_, _) => ClusterType
    case EndpointUpdate(_) => EndpointType
    case NoUpdate(url) => OtherType(url)
  }

  /** The maps after a response; only the type's own subscription is read. */
  function Apply(s: AdsView, u: Update): AdsView {
    var asked := Subscription(s, Stage(u));
    match u
    case ListenerUpdate(m) => s.(listeners := Refresh(s.listeners, asked, m))
    case RouteUpdate(m) => s.(routes := Refresh(s.routes, asked, m))
    case ClusterUpdate(m, inline) => s.(clusters := Refresh(s.clusters, asked, m), endpoints := s.endpoints + inline)
    case EndpointUpdate(m) => s.(endpoints := Refresh(s.endpoints, asked, m))
    case NoUpdate(_) => s
  }

  /** No resource of the response fails to decode; otherwise the stream is given up. */
  predicate Decodable(resp: Response) {
    match resp.typeUrl
    case ListenerType => Decodes(ListenerOutcomes(resp.resources))
    case RouteType => Decodes(RouteOutcomes(resp.resources))
    case ClusterType => Decodes(ClusterOutcomes(resp.resources))
    case EndpointType => Decodes(AssignmentOutcomes(resp.resources))
    case OtherType(_) => true
  }

  // ---------- the names each stage needs from the next ----------

  function RouteNameSet(listeners: map<string, ListenerSnapshot>): set<string> {
    set k, n | k in listeners && n in listeners[k].routeNames :: n
  }

  function Destinations(hosts: seq<VirtualHost>): set<string> {
    set h, r, d | h in hosts && r in h.routes && d in r.weightedClusters :: d.name
  }

  function ClusterNameSet(routes: map<string, seq<VirtualHost>>): set<string> {
    set k, n | k in routes && n in Destinations(routes[k]) :: n
  }

  function EdsNameSet(clusters: map<string, ClusterSnapshot>): set<string> {
    set k | k in clusters :: clusters[k].edsServiceName
  }

  /** The type whose names are found in resources of type `t`. */
  function Follower(t: TypeUrl): TypeUrl {
    match t
    case ListenerType => RouteType
    case RouteType => ClusterType
    case ClusterType => EndpointType
    case _ => t
  }

  /** The names found there, sorted. */
  function Needs(s: AdsView, t: TypeUrl): seq<string> {
    match t
    case ListenerType => Sorted(RouteNameSet(s.listeners))
    case RouteType => Sorted(ClusterNameSet(s.routes))
    case ClusterType => Sorted(EdsNameSet(s.clusters))
    case _ => []
  }

  function Follow(subscriptions: map<TypeUrl, seq<string>>, t: TypeUrl, names: seq<string>): map<TypeUrl, seq<string>> {
    if names == [] then subscriptions else subscriptions[t := names]
  }

  function Resubscribe(s: AdsView, t: TypeUrl): AdsView {
    s.(subscriptions := Follow(s.subscriptions, Follower(t), Needs(s, t)))
  }

  function RequestsFor(subscriptions: map<TypeUrl, seq<string>>, t: TypeUrl, names: seq<string>): seq<Request> {
    if names == [] || (t in subscriptions && subscriptions[t] == names) then [] else [Request(t, names, "", "")]
  }

  /** The subscription request that follows from the state, unless it needs nothing or nothing new. */
  function NewRequests(s: AdsView, t: TypeUrl): seq<Request> {
    RequestsFor(s.subscriptions, Follower(t), Needs(s, t))
  }

  /** What a decodable response does to the client's state. */
  function Step(s: AdsView, u: Update): AdsView {
    Resubscribe(Apply(s, u), Stage(u))
  }

  // ---------- the configuration ----------

  function Attached(routes: map<string, seq<VirtualHost>>, names: seq<string>): seq<VirtualHost> {
    if names == [] then [] else
      var last := names[|names| - 1];
      Attached(routes, names[..|names| - 1]) + if last in routes then routes[last] else []
  }

  function HostsOf(l: ListenerSnapshot, routes: map<string, seq<VirtualHost>>): seq<VirtualHost> {
    l.inlineVirtualHosts + Attached(routes, l.routeNames)
  }

  function ListenerIn(l: ListenerSnapshot, routes: map<string, seq<VirtualHost>>): Listener {
    l.listener.(virtualHosts := HostsOf(l, routes))
  }

  function ClusterIn(c: ClusterSnapshot, endpoints: map<string, seq<Endpoint>>): Cluster {
    Cluster(c.name, if c.edsServiceName in endpoints then endpoints[c.edsServiceName] else [], c.tls)
  }

  function ConfigVersion(version: string): string {
    if version == "" then "ads" else version
  }

  function ListenersOf(listeners: map<string, ListenerSnapshot>, routes: map<string, seq<VirtualHost>>): seq<Listener> {
    var ks := Sorted(listeners.Keys);
    seq(|ks|, i requires 0 <= i < |ks| => ListenerIn(listeners[ks[i]], routes))
  }

  function ClustersOf(clusters: map<string, ClusterSnapshot>, endpoints: map<string, seq<Endpoint>>): seq<Cluster> {
    var ks := Sorted(clusters.Keys);
    seq(|ks|, i requires 0 <= i < |ks| => ClusterIn(clusters[ks[i]], endpoints))
  }

  function ConfigOf(s: AdsView, version: string): RuntimeConfig {
    RuntimeConfig(ConfigVersion(version), ListenersOf(s.listeners, s.routes), ClustersOf(s.clusters, s.endpoints), [])
  }

  // ---------- the stream ----------

  /** The watch channel's slot: the latest value and how many sends produced it. */
  datatype Cell = Cell(value: RuntimeConfig, version: nat)

  function Send(cell: Cell, cfg: RuntimeConfig): Cell {
    Cell(cfg, cell.version + 1)
  }

  function Publish(cell: Cell, cfg: RuntimeConfig): Cell {
    if Conflicts(cfg) == [] && cfg != cell.value then Send(cell, cfg) else cell
  }

  datatype Stream = Stream(ads: AdsView, log: seq<Request>, cell: Cell)

  function Connect(listenerNames: seq<string>, cell: Cell): Stream {
    Stream(FRESH.(subscriptions := map[ListenerType := SortedUnique(listenerNames)]),
           [Request(ListenerType, SortedUnique(listenerNames), "", "")], cell)
  }

  /** A decoded response: its update, and the version and nonce to echo. */
  datatype Digest = Digest(update: Update, version: string, nonce: string)

  function DigestOf(resp: Response): Digest {
    Digest(UpdateOf(resp), resp.version, resp.nonce)
  }

  function Ack(s: AdsView, d: Digest): Request {
    Request(Stage(d.update), Subscription(s, Stage(d.update)), d.version, d.nonce)
  }

  /** One turn of the receive loop on a decodable response. */
  function Deliver(st: Stream, d: Digest): Stream {
    var s := Apply(st.ads, d.update);
    var s' := Step(st.ads, d.update);
    Stream(s', st.log + [Ack(s, d)] + NewRequests(s, Stage(d.update)), Publish(st.cell, ConfigOf(s', d.version)))
  }

  /** A run of the receive loop over decodable responses. */
  function ReceiveAll(st: Stream, rs: seq<Response>): Stream {
    if rs == [] then st else Deliver(ReceiveAll(st, rs[..|rs| - 1]), DigestOf(rs[|rs| - 1]))
  }

  predicate AllDecodable(rs: seq<Response>) {
    forall i | 0 <= i < |rs| :: Decodable(rs[i])
  }
}
