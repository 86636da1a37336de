/** What the proxy decides for a request: the route, the cluster, the endpoint, and the reply it gives. */
module Forwarding {
  import opened Wrappers
  import opened Text
  import opened Config
  import opened Tickets
  import opened Picker

  const HTTP_LISTENER_PORT: u16 := 80

  // ---------- requests ----------

  /** A header value is `None` when it is not visible ASCII text. */
  datatype HttpRequest = HttpRequest(pathAndQuery: Option<string>, headers: seq<(string, Option<string>)>)

  /** `HeaderMap::get(HOST)`: the first header of that name. */
  function HostHeader(headers: seq<(string, Option<string>)>): Option<string> {
    if headers == [] then None
    else if EqIgnoreAsciiCase(headers[0].0, "host") then headers[0].1
    else HostHeader(headers[1..])
  }

  function TextHeaders(headers: seq<(string, Option<string>)>): seq<(string, string)> {
    if headers == [] then [] else
      var last := headers[|headers| - 1];
      TextHeaders(headers[..|headers| - 1]) + match last.1 case None => [] case Some(v) => [(last.0, v)]
  }

  /** The host without its port, `*` when absent; the path with its query, `/` when absent. */
  function InputOf(req: HttpRequest): MatchInput {
    MatchInput(
      match HostHeader(req.headers) case None => "*" case Some(h) => Split(h, ':')[0],
      match req.pathAndQuery case None => "/" case Some(p) => p,
      TextHeaders(req.headers))
  }

  /** Header `i` is the first one named `host`. */
  ghost predicate FirstHost(headers: seq<(string, Option<string>)>, i: nat) {
    && i < |headers| && SameIgnoringCase(headers[i].0, "host")
    && forall k | 0 <= k < i :: !SameIgnoringCase(headers[k].0, "host")
  }

  ghost predicate NoHost(headers: seq<(string, Option<string>)>) {
    forall k | 0 <= k < |headers| :: !SameIgnoringCase(headers[k].0, "host")
  }

  lemma {:induction false} HostHeaderIsFirst(headers: seq<(string, Option<string>)>) returns (i: nat)
    ensures NoHost(headers) ==> HostHeader(headers) == None
    ensures !NoHost(headers) ==> FirstHost(headers, i) && HostHeader(headers) == headers[i].1
  {
    i := 0;
    if headers != [] {
      EqIgnoreAsciiCaseExact(headers[0].0, "host");
      if !EqIgnoreAsciiCase(headers[0].0, "host") {
        i := HostHeaderIsFirst(headers[1..]);
        i := i + 1;
        assert forall k | 1 <= k < |headers| :: headers[k] == headers[1..][k - 1];
      }
    }
  }

  /** `at` lists the positions of all headers whose value is text, in order, and `out` are these headers. */
  ghost predicate TextPositions(headers: seq<(string, Option<string>)>, at: seq<nat>, out: seq<(string, string)>) {
    && |out| == |at| && (forall j, k | 0 <= j < k < |at| :: at[j] < at[k])
    && (forall k | 0 <= k < |at| :: at[k] < |headers| && headers[at[k]] == (out[k].0, Some(out[k].1)))
    && (forall i: nat | i < |headers| && headers[i].1.Some? :: i in at)
  }

  lemma {:induction false} TextNext(headers: seq<(string, Option<string>)>, at: seq<nat>, out: seq<(string, string)>)
    requires headers != [] && TextPositions(headers[..|headers| - 1], at, out)
    ensures var n := |headers| - 1;
      match headers[n].1
      case None => TextPositions(headers, at, out)
      case Some(v) => TextPositions(headers, at + [n], out + [(headers[n].0, v)])
  {
    var n := |headers| - 1;
    assert forall k | 0 <= k < n :: headers[..n][k] == headers[k];
    forall i: nat | i < n && headers[i].1.Some? ensures i in at { assert headers[..n][i].1.Some?; }
    if headers[n].1.Some? {
      assert headers[n] == (headers[n].0, Some(headers[n].1.value));
      assert forall i: nat | i in at :: i in at + [n];
    }
  }

  lemma {:induction false} TextHeadersAre(headers: seq<(string, Option<string>)>) returns (at: seq<nat>)
    ensures TextPositions(headers, at, TextHeaders(headers))
  {
    at := [];
    if headers != [] {
      var n := |headers| - 1;
      at := TextHeadersAre(headers[..n]);
      TextNext(headers, at, TextHeaders(headers[..n]));
      if headers[n].1.Some? { at := at + [n]; }
    }
  }

  /** `host` is the text of a header value up to its first colon; `*` stands for a value that is not text. */
  ghost predicate HostOf(value: Option<string>, host: string) {
    match value
    case None => host == "*"
    case Some(h) => Free(':', host) && (h == host || HasPrefix(h, host + ":"))
  }

  lemma {:induction false} CutAtColon(h: string)
    ensures HostOf(Some(h), Split(h, ':')[0])
  {
    var host := Split(h, ':')[0];
    SplitHead(h, ':', host);
    assert host + [':'] == host + ":";
    StartsWithExact(h, host + ":");
  }

  /**
   What a request is matched by: the host up to its first colon, the path with its query, the headers that are text.
   */
  lemma {:induction false} InputMeaning(req: HttpRequest) returns (at: seq<nat>)
    ensures var input := InputOf(req);
      && (NoHost(req.headers) ==> input.host == "*")
      && (forall i: nat | FirstHost(req.headers, i) :: HostOf(req.headers[i].1, input.host))
      && input.path == (if req.pathAndQuery == None then "/" else req.pathAndQuery.value)
      && TextPositions(req.headers, at, input.headers)
  {
    at := TextHeadersAre(req.headers);
    var first := HostHeaderIsFirst(req.headers);
    assert forall i: nat | FirstHost(req.headers, i) :: i == first;
    if HostHeader(req.headers).Some? { CutAtColon(HostHeader(req.headers).value); }
  }

  // ---------- decisions ----------

  datatype Decision =
    | RouteNotFound
    | RouteHasNoClusters
    | ClusterNotFound(name: string)
    | NoHealthyEndpoints(cluster: Cluster)
    | Dispatch(pick: nat, cluster: Cluster, slot: nat, endpoint: Endpoint)

  /** The first half of a request: up to the chosen cluster, or a decision already. */
  datatype Choice = Settled(decision: Decision) | Chosen(pick: nat, cluster: Cluster)

  function ChooseCluster(cfg: RuntimeConfig, input: MatchInput, c: u64): (Choice, u64) {
    match RouteFor(cfg, HTTP_LISTENER_PORT, input)
    case None => (Settled(RouteNotFound), c)
    case Some(route) =>
      var (pick, c') := PickCluster(route.weightedClusters, c);
      if pick.None? then (Settled(RouteHasNoClusters), c') else
        var name := route.weightedClusters[pick.value].name;
        match FindCluster(cfg.clusters, name)
        case None => (Settled(ClusterNotFound(name)), c')
        case Some(cluster) => (Chosen(pick.value, cluster), c')
  }

  /** The second half: the endpoint, picked with whatever the shared counter has become. */
  function ChooseEndpoint(choice: Choice, c: u64): (Decision, u64) {
    match choice
    case Settled(d) => (d, c)
    case Chosen(pick, cluster) =>
      var (slot, c') := PickEndpoint(cluster.endpoints, c);
      if slot.None? then (NoHealthyEndpoints(cluster), c')
      else (Dispatch(pick, cluster, slot.value, Healthy(cluster.endpoints)[slot.value]), c')
  }

  /** A request served with nothing in between. */
  function Decide(cfg: RuntimeConfig, input: MatchInput, c: u64): (Decision, u64) {
    var (choice, c') := ChooseCluster(cfg, input, c);
    ChooseEndpoint(choice, c')
  }

  // ---------- replies ----------

  /** What foreign code answers: URI parsing, the mTLS client, the upstream. */
  datatype Outside = Outside(uriParses: bool, mtlsClient: bool, upstreamAnswers: bool)

  datatype Reply = Failure(status: nat) | FromUpstream(cluster: Cluster, endpoint: Endpoint)

  function ReplyTo(d: Decision, o: Outside): Reply {
    match d
    case RouteNotFound => Failure(404)
    case RouteHasNoClusters => Failure(503)
    case ClusterNotFound(_) => Failure(503)
    case NoHealthyEndpoints(_) => Failure(503)
    case Dispatch(_, cluster, _, endpoint) =>
      if o.uriParses && (cluster.tls.Some? ==> o.mtlsClient) && o.upstreamAnswers
      then FromUpstream(cluster, endpoint) else Failure(502)
  }

  // ---------- safety of one request ----------

  /** `cluster` is the configuration's own entry for destination `pick` of the route the request selects on port 80. */
  ghost predicate IsDestination(cfg: RuntimeConfig, input: MatchInput, pick: nat, cluster: Cluster) {
    var route := RouteFor(cfg, 80, input);
    && route.Some? && pick < |route.value.weightedClusters|
    && cluster in cfg.clusters && cluster.name == route.value.weightedClusters[pick].name
    && (route.value.weightedClusters[pick].weight == 0 ==> Sum(route.value.weightedClusters) % U32 == 0)
  }

  ghost predicate SafeChoice(cfg: RuntimeConfig, input: MatchInput, choice: Choice) {
    match choice
    case Settled(d) => d == RouteNotFound && RouteFor(cfg, 80, input).None?
    case Chosen(pick, cluster) => IsDestination(cfg, input, pick, cluster)
  }

  /**
   The endpoint stands at a position of the cluster's list with exactly `slot` healthy ones before it, and is healthy.
   */
  ghost predicate IsSlot(cluster: Cluster, slot: nat, endpoint: Endpoint) {
    exists pos: nat :: NthHealthy(cluster.endpoints, slot, pos) && cluster.endpoints[pos] == endpoint
  }

  ghost predicate SafeDecision(cfg: RuntimeConfig, input: MatchInput, d: Decision) {
    match d
    case RouteNotFound => RouteFor(cfg, 80, input).None?
    case NoHealthyEndpoints(cluster) =>
      (exists pick: nat :: IsDestination(cfg, input, pick, cluster)) && forall e | e in cluster.endpoints :: !e.healthy
    case Dispatch(pick, cluster, slot, endpoint) =>
      IsDestination(cfg, input, pick, cluster) && IsSlot(cluster, slot, endpoint)
    case _ => false
  }

  lemma {:induction false} RouteIsConfigured(cfg: RuntimeConfig, input: MatchInput)
    requires WellFormed(cfg) && RouteFor(cfg, HTTP_LISTENER_PORT, input).Some?
    ensures DestinationsExist(RouteFor(cfg, HTTP_LISTENER_PORT, input).value, ClusterNames(cfg.clusters))
  {
    var _ := FoundListener(cfg.listeners, HTTP_LISTENER_PORT);
    var l := FindListener(cfg.listeners, HTTP_LISTENER_PORT).value;
    var i, j := FindInHostsIsFirst(l.virtualHosts, input);
    assert l.virtualHosts[i] in l.virtualHosts && l.virtualHosts[i].routes[j] in l.virtualHosts[i].routes;
  }

  /** Whatever the counter, a well-formed configuration yields a destination of the selected route. */
  lemma {:induction false} ChoiceIsSafe(cfg: RuntimeConfig, input: MatchInput, c: u64)
    requires WellFormed(cfg)
    ensures SafeChoice(cfg, input, ChooseCluster(cfg, input, c).0)
  {
    var found := RouteFor(cfg, HTTP_LISTENER_PORT, input);
    if found.Some? {
      var ws := found.value.weightedClusters;
      RouteIsConfigured(cfg, input);
      PickIsTotal(ws, c);
      WrappedIsSum(ws);
      var pick := PickCluster(ws, c).0.value;
      assert ws[pick] in ws && ws[pick].name in ClusterNames(cfg.clusters);
    }
  }

  /**
   The endpoint a choice is sent to is the one in the slot that the counter gives, if the cluster has a healthy one.
   */
  lemma {:induction false} ChosenEndpoint(choice: Choice, c: u64)
    requires choice.Chosen?
    ensures var (n, (d, c')) := (CountHealthy(choice.cluster.endpoints), ChooseEndpoint(choice, c));
      if n == 0 then d == NoHealthyEndpoints(choice.cluster) && c' == c
      else
        && d.Dispatch? && d.pick == choice.pick && d.cluster == choice.cluster && c' == Advance(c)
        && d.slot == c % n && IsSlot(d.cluster, d.slot, d.endpoint)
  {
    var es := choice.cluster.endpoints;
    HealthyLength(es);
    if Healthy(es) != [] {
      RemIsMod(c, |Healthy(es)|);
      var pos := HealthyAt(es, c % |Healthy(es)|);
    }
  }

  /** Whatever the counter has become since, the endpoint is a healthy one of that cluster, or there is none. */
  lemma {:induction false} DecisionIsSafe(cfg: RuntimeConfig, input: MatchInput, choice: Choice, c: u64)
    requires SafeChoice(cfg, input, choice)
    ensures SafeDecision(cfg, input, ChooseEndpoint(choice, c).0)
  {
    if choice.Chosen? {
      ChosenEndpoint(choice, c);
      HealthyLength(choice.cluster.endpoints);
      if Healthy(choice.cluster.endpoints) == [] {
        assert IsDestination(cfg, input, choice.pick, choice.cluster);
      }
    }
  }

  /** The cluster is plaintext or a client for it can be made, the address forms a URI, and the upstream answers. */
  ghost predicate Reaches(cluster: Cluster, o: Outside) {
    o.uriParses && (cluster.tls == None || o.mtlsClient) && o.upstreamAnswers
  }

  /**
   404 exactly without a route; 503 exactly when the chosen cluster has no healthy endpoint; 502 exactly when the
   outside fails; else the answer of the endpoint sent to, healthy and of a destination.
   */
  ghost predicate SafeReply(cfg: RuntimeConfig, input: MatchInput, d: Decision, o: Outside) {
    var r := ReplyTo(d, o);
    && (r == Failure(404) <==> RouteFor(cfg, 80, input).None?)
    && (r == Failure(503) <==> d.NoHealthyEndpoints? && forall e | e in d.cluster.endpoints :: !e.healthy)
    && (r == Failure(502) <==> d.Dispatch? && !Reaches(d.cluster, o))
    && (r.Failure? ==> r.status in {404, 502, 503})
    && (r.FromUpstream? ==>
          && d == Dispatch(d.pick, r.cluster, d.slot, r.endpoint)
          && IsDestination(cfg, input, d.pick, r.cluster) && IsSlot(r.cluster, d.slot, r.endpoint))
  }

  lemma {:induction false} ReplyIsSafe(cfg: RuntimeConfig, input: MatchInput, d: Decision, o: Outside)
    requires SafeDecision(cfg, input, d)
    ensures SafeReply(cfg, input, d, o)
  {
  }
}
