/** Translation of xDS routes, listeners and clusters into the runtime configuration's terms. */
module Translation {
  import opened Wrappers
  import opened Text
  import opened Config
  import opened Messages
  import opened Endpoints

  // ---------- routes ----------

  function WeightOf(c: ClusterWeight): WeightedCluster {
    WeightedCluster(c.name, if c.weight.Some? then c.weight.value else 1)
  }

  function ConvertWeights(cs: seq<ClusterWeight>): seq<WeightedCluster> {
    if cs == [] then [] else
      var last := cs[|cs| - 1];
      ConvertWeights(cs[..|cs| - 1]) + if last.name == "" then [] else [WeightOf(last)]
  }

  function ConvertRouteAction(specifier: Option<ClusterSpecifier>): seq<WeightedCluster> {
    match specifier
    case Some(OneCluster(name)) => if name != "" then [WeightedCluster(name, 100)] else []
    case Some(WeightedClusters(clusters)) => ConvertWeights(clusters)
    case None => []
  }

  function ConvertPath(path: Option<PathSpecifier>): Option<PathMatch> {
    match path
    case Some(PrefixPath(p)) => Some(Prefix(p))
    case Some(ExactPath(p)) => Some(Exact(p))
    case Some(RegexPath(_)) => None
    case None => Some(Prefix("/"))
  }

  function ConvertHeaders(hs: seq<HeaderMatcher>): Option<seq<HeaderMatch>> {
    if hs == [] then Some([]) else
      var last := hs[|hs| - 1];
      match ConvertHeaders(hs[..|hs| - 1])
      case None => None
      case Some(done) =>
        match last.specifier
        case Some(ExactHeader(value)) => Some(done + [HeaderMatch(last.name, value)])
        case Some(RegexHeader(_)) => None
        case None => Some(done)
  }

  function ConvertRouteMatch(m: XRouteMatch): Option<RouteMatch> {
    match ConvertPath(m.path)
    case None => None
    case Some(path) =>
      match ConvertHeaders(m.headers)
      case None => None
      case Some(headers) => Some(RouteMatch(path, headers))
  }

  lemma {:induction false} RegexHeaderFails(hs: seq<HeaderMatcher>, i: nat)
    requires i < |hs| && hs[i].specifier.Some? && hs[i].specifier.value.RegexHeader?
    ensures ConvertHeaders(hs) == None
    decreases |hs|
  {
    if i < |hs| - 1 { RegexHeaderFails(hs[..|hs| - 1], i); }
  }

  /** `convert_route_match`, with its early return on a regular expression. */
  method ConvertRouteMatchLoop(m: XRouteMatch) returns (r: Option<RouteMatch>)
    ensures r == ConvertRouteMatch(m)
  {
    var path := ConvertPath(m.path);
    if path.None? {
      return None;
    }
    var headers := [];
    for i := 0 to |m.headers|
      invariant ConvertHeaders(m.headers[..i]) == Some(headers)
    {
      assert m.headers[..i + 1][..i] == m.headers[..i];
      match m.headers[i].specifier {
        case Some(ExactHeader(value)) =>
          headers := headers + [HeaderMatch(m.headers[i].name, value)];
        case Some(RegexHeader(_)) =>
          RegexHeaderFails(m.headers, i);
          return None;
        case None =>
      }
    }
    assert m.headers[..|m.headers|] == m.headers;
    return Some(RouteMatch(path.value, headers));
  }

  function ConvertRoute(r: XRoute): Option<Route> {
    match r.action
    case None => None
    case Some(action) =>
      var ds := if action.ForwardTo? then ConvertRouteAction(action.specifier) else [];
      if ds == [] then None else
        match r.matcher
        case None => Some(Route(r.name, [], ds))
        case Some(m) =>
          match ConvertRouteMatch(m)
          case None => None
          case Some(cm) => Some(Route(r.name, [cm], ds))
  }

  function ConvertRoutes(rs: seq<XRoute>): (out: seq<Route>)
    ensures forall r | r in out :: r.weightedClusters != []
  {
    if rs == [] then [] else
      (match ConvertRoute(rs[0]) case None => [] case Some(r) => [r]) + ConvertRoutes(rs[1..])
  }

  function ConvertHost(h: XVirtualHost): VirtualHost {
    VirtualHost(h.name, h.domains, ConvertRoutes(h.routes))
  }

  function ConvertVirtualHosts(hs: seq<XVirtualHost>): (out: seq<VirtualHost>)
    ensures |out| == |hs|
    ensures HaveDestinations(out)
  {
    if hs == [] then [] else [ConvertHost(hs[0])] + ConvertVirtualHosts(hs[1..])
  }

  predicate HaveDestinations(hosts: seq<VirtualHost>) {
    forall h | h in hosts :: forall r | r in h.routes :: r.weightedClusters != []
  }

  // ---------- direct interpretation of xDS routes ----------

  /** A route the gateway supports: it forwards somewhere by name and uses no regular expression. */
  ghost predicate Supported(r: XRoute) {
    && r.action.Some? && r.action.value.ForwardTo?
    && (match r.action.value.specifier
        case Some(OneCluster(name)) => name != ""
        case Some(WeightedClusters(cs)) => exists i | 0 <= i < |cs| :: cs[i].name != ""
        case None => false)
    && (r.matcher.Some? ==>
          && !(r.matcher.value.path.Some? && r.matcher.value.path.value.RegexPath?)
          && NoRegex(r.matcher.value.headers))
  }

  ghost predicate IsRegex(h: HeaderMatcher) {
    h.specifier.Some? && h.specifier.value.RegexHeader?
  }

  ghost predicate DirectHeader(h: HeaderMatcher, input: MatchInput) {
    h.specifier.Some? && h.specifier.value.ExactHeader? ==> HeaderFits(h.name, h.specifier.value.value, input.headers)
  }

  /** What an xDS matcher without regular expressions asks of a request. */
  ghost predicate DirectMatch(m: XRouteMatch, input: MatchInput) {
    && (match m.path
        case Some(PrefixPath(p)) => HasPrefix(input.path, p)
        case Some(ExactPath(p)) => input.path == p
        case Some(RegexPath(_)) => false
        case None => HasPrefix(input.path, "/"))
    && AllDirect(m.headers, input)
  }

  ghost predicate Eligible(r: XRoute, input: MatchInput) {
    Supported(r) && (r.matcher.Some? ==> DirectMatch(r.matcher.value, input))
  }

  ghost predicate FirstEligible(rs: seq<XRoute>, input: MatchInput, j: nat) {
    j < |rs| && Eligible(rs[j], input) && forall k | 0 <= k < j :: !Eligible(rs[k], input)
  }

  /** Host `i` and route `j` hold the first eligible route. */
  ghost predicate Selects(hs: seq<XVirtualHost>, input: MatchInput, i: nat, j: nat) {
    && i < |hs| && ServesHost(hs[i].domains, input.host) && FirstEligible(hs[i].routes, input, j)
    && NoneServe(hs[..i], input)
  }

  ghost predicate NoneServe(hs: seq<XVirtualHost>, input: MatchInput) {
    forall k | 0 <= k < |hs| :: !HostServes(hs[k], input)
  }

  ghost predicate HostServes(h: XVirtualHost, input: MatchInput) {
    ServesHost(h.domains, input.host) && exists k | 0 <= k < |h.routes| :: Eligible(h.routes[k], input)
  }

  /**
   `c` carries the name and the destinations of `r`: one of weight 100, or the named ones with their weights, in
   order.
   */
  ghost predicate IsDestinationOf(c: Route, r: XRoute) {
    && c.name == r.name && r.action.Some? && r.action.value.ForwardTo?
    && match r.action.value.specifier
       case Some(OneCluster(name)) => c.weightedClusters == [WeightedCluster(name, 100)]
       case Some(WeightedClusters(cs)) => exists at :: NamedPositions(cs, at) && AreWeights(cs, at, c.weightedClusters)
       case None => false
  }

  /** `at` lists the positions of all named clusters in order. */
  ghost predicate NamedPositions(cs: seq<ClusterWeight>, at: seq<nat>) {
    && (forall k | 0 <= k < |at| :: at[k] < |cs| && cs[at[k]].name != "")
    && (forall j, k | 0 <= j < k < |at| :: at[j] < at[k])
    && (forall i: nat | i < |cs| && cs[i].name != "" :: i in at)
  }

  /** Each destination has the name of the cluster at its position, and its weight, or 1 where none is given. */
  ghost predicate AreWeights(cs: seq<ClusterWeight>, at: seq<nat>, out: seq<WeightedCluster>) {
    && |out| == |at|
    && forall k | 0 <= k < |at| ::
         && at[k] < |cs| && out[k].name == cs[at[k]].name
         && match cs[at[k]].weight case Some(w) => out[k].weight == w case None => out[k].weight == 1
  }

  // ---------- the translation keeps that meaning ----------

  lemma {:induction false} UnnamedNext(cs: seq<ClusterWeight>, at: seq<nat>)
    requires cs != [] && cs[|cs| - 1].name == "" && NamedPositions(cs[..|cs| - 1], at)
    ensures NamedPositions(cs, at)
  {
    var n := |cs| - 1;
    assert forall k | 0 <= k < |at| :: cs[..n][at[k]] == cs[at[k]];
    forall i: nat | i < |cs| && cs[i].name != "" ensures i in at { assert cs[..n][i] == cs[i]; }
  }

  lemma {:induction false} NamedNext(cs: seq<ClusterWeight>, at: seq<nat>)
    requires cs != [] && cs[|cs| - 1].name != "" && NamedPositions(cs[..|cs| - 1], at)
    ensures NamedPositions(cs, at + [|cs| - 1])
  {
    var n := |cs| - 1;
    assert forall k | 0 <= k < |at| :: cs[..n][at[k]] == cs[at[k]];
    forall i: nat | i < |cs| && cs[i].name != "" ensures i in at + [n] {
      if i < n { assert cs[..n][i] == cs[i]; }
    }
  }

  lemma {:induction false} AreWeightsNext(cs: seq<ClusterWeight>, at: seq<nat>, out: seq<WeightedCluster>)
    requires cs != [] && AreWeights(cs[..|cs| - 1], at, out)
    ensures AreWeights(cs, at, out) && AreWeights(cs, at + [|cs| - 1], out + [WeightOf(cs[|cs| - 1])])
  {
    var n := |cs| - 1;
    assert forall k | 0 <= k < |at| :: cs[..n][at[k]] == cs[at[k]];
  }

  /** Weighted destinations are the named clusters in order, with weight 1 where none is given. */
  lemma {:induction false} WeightsAreNamedClusters(cs: seq<ClusterWeight>) returns (at: seq<nat>)
    ensures NamedPositions(cs, at) && AreWeights(cs, at, ConvertWeights(cs))
  {
    at := [];
    if cs != [] {
      var n := |cs| - 1;
      at := WeightsAreNamedClusters(cs[..n]);
      AreWeightsNext(cs, at, ConvertWeights(cs[..n]));
      if cs[n].name == "" {
        UnnamedNext(cs, at);
      } else {
        NamedNext(cs, at);
        at := at + [n];
      }
    }
  }

  lemma {:induction false} WeightsEmpty(cs: seq<ClusterWeight>)
    ensures ConvertWeights(cs) == [] <==> !(exists i | 0 <= i < |cs| :: cs[i].name != "")
  {
    var at := WeightsAreNamedClusters(cs);
    if i: nat :| i < |cs| && cs[i].name != "" { assert i in at; }
    if at != [] { assert cs[at[0]].name != ""; }
  }

  ghost predicate AllFit(cs: seq<HeaderMatch>, input: MatchInput) {
    forall i | 0 <= i < |cs| :: HeaderFits(cs[i].name, cs[i].value, input.headers)
  }

  ghost predicate AllDirect(hs: seq<HeaderMatcher>, input: MatchInput) {
    forall i | 0 <= i < |hs| :: DirectHeader(hs[i], input)
  }

  ghost predicate NoRegex(hs: seq<HeaderMatcher>) {
    forall i | 0 <= i < |hs| :: !IsRegex(hs[i])
  }

  lemma {:induction false} SplitLastHeader(hs: seq<HeaderMatcher>, input: MatchInput)
    requires hs != []
    ensures var front, last := hs[..|hs| - 1], hs[|hs| - 1];
      && (AllDirect(hs, input) <==> AllDirect(front, input) && DirectHeader(last, input))
      && (NoRegex(hs) <==> NoRegex(front) && !IsRegex(last))
  {
    var front := hs[..|hs| - 1];
    assert forall i | 0 <= i < |front| :: front[i] == hs[i];
  }

  lemma {:induction false} OneMoreFits(cs: seq<HeaderMatch>, c: HeaderMatch, input: MatchInput)
    ensures AllFit(cs + [c], input) <==> AllFit(cs, input) && HeaderFits(c.name, c.value, input.headers)
  {
    var all := cs + [c];
    assert all[|cs|] == c && forall i | 0 <= i < |cs| :: all[i] == cs[i];
  }

  /** The converted headers ask the same of a request; there are none exactly if one is a regular expression. */
  lemma {:induction false} HeadersMeaning(hs: seq<HeaderMatcher>, input: MatchInput)
    ensures match ConvertHeaders(hs)
      case None => !NoRegex(hs)
      case Some(cs) => NoRegex(hs) && (AllFit(cs, input) <==> AllDirect(hs, input))
  {
    if hs != [] {
      var front, last := hs[..|hs| - 1], hs[|hs| - 1];
      HeadersMeaning(front, input);
      SplitLastHeader(hs, input);
      if ConvertHeaders(front).Some? && last.specifier.Some? && last.specifier.value.ExactHeader? {
        OneMoreFits(ConvertHeaders(front).value, HeaderMatch(last.name, last.specifier.value.value), input);
      }
    }
  }

  lemma {:induction false} MatchMeaning(m: XRouteMatch, input: MatchInput)
    ensures match ConvertRouteMatch(m)
      case None => (m.path.Some? && m.path.value.RegexPath?) || !NoRegex(m.headers)
      case Some(cm) =>
        !(m.path.Some? && m.path.value.RegexPath?) && NoRegex(m.headers) &&
        (MatchFits(cm, input) <==> DirectMatch(m, input))
  {
    HeadersMeaning(m.headers, input);
  }

  lemma {:induction false} ActionMeaning(r: XRoute, ds: seq<WeightedCluster>)
    requires r.action.Some? && r.action.value.ForwardTo? && ds == ConvertRouteAction(r.action.value.specifier) != []
    ensures IsDestinationOf(Route(r.name, [], ds), r)
  {
    if r.action.value.specifier.value.WeightedClusters? {
      var at := WeightsAreNamedClusters(r.action.value.specifier.value.clusters);
    }
  }

  /** A converted route matches exactly the requests its source is eligible for, and keeps its destinations. */
  lemma {:induction false} RouteMeaning(r: XRoute, input: MatchInput)
    ensures match ConvertRoute(r)
      case None => !Supported(r)
      case Some(c) => Supported(r) && (RouteFits(c, input) <==> Eligible(r, input)) && IsDestinationOf(c, r)
  {
    if r.matcher.Some? { MatchMeaning(r.matcher.value, input); }
    if r.action.Some? && r.action.value.ForwardTo? && r.action.value.specifier.Some? &&
      r.action.value.specifier.value.WeightedClusters? {
      WeightsEmpty(r.action.value.specifier.value.clusters);
    }
    match ConvertRoute(r)
    case None =>
    case Some(c) =>
      if r.matcher.Some? { assert RouteFits(c, input) <==> MatchFits(c.matches[0], input); }
      ActionMeaning(r, c.weightedClusters);
      assert IsDestinationOf(Route(r.name, [], c.weightedClusters), r);
  }

  lemma {:induction false} RoutesMeaning(rs: seq<XRoute>, input: MatchInput) returns (j: nat)
    ensures match FindRoute(ConvertRoutes(rs), input)
      case None => forall k | 0 <= k < |rs| :: !Eligible(rs[k], input)
      case Some(c) => FirstEligible(rs, input, j) && IsDestinationOf(c, rs[j])
  {
    j := 0;
    if rs != [] {
      RouteMeaning(rs[0], input);
      if ConvertRoute(rs[0]).Some? { RouteMatchesExact(ConvertRoute(rs[0]).value, input); }
      var rest := ConvertRoutes(rs[1..]);
      if ConvertRoute(rs[0]).None? {
        assert ConvertRoutes(rs) == rest;
      } else {
        assert ConvertRoutes(rs)[1..] == rest;
      }
      if !Eligible(rs[0], input) {
        j := RoutesMeaning(rs[1..], input);
        j := j + 1;
        assert forall k | 1 <= k < |rs| :: rs[k] == rs[1..][k - 1];
      }
    }
  }

  lemma {:induction false} HostMeaning(h: XVirtualHost, input: MatchInput) returns (j: nat)
    ensures match FindInHost(ConvertHost(h), input)
      case None => !HostServes(h, input)
      case Some(c) =>
        ServesHost(h.domains, input.host) && FirstEligible(h.routes, input, j) && IsDestinationOf(c, h.routes[j])
  {
    HostMatchesExact(h.domains, input.host);
    j := RoutesMeaning(h.routes, input);
  }

  /** Converted hosts keep their order, names and domains. */
  lemma {:induction false} HostsKept(hs: seq<XVirtualHost>, i: nat)
    requires i < |hs|
    ensures var out := ConvertVirtualHosts(hs); out[i].name == hs[i].name && out[i].domains == hs[i].domains
  {
    if i > 0 { HostsKept(hs[1..], i - 1); }
  }

  /** First match over the converted hosts is the first eligible xDS route, with its destinations. */
  lemma {:induction false} TranslationPreservesMeaning(
    hs: seq<XVirtualHost>, input: MatchInput)
    returns (i: nat, j: nat)
    ensures match FindInHosts(ConvertVirtualHosts(hs), input)
      case None => NoneServe(hs, input)
      case Some(c) => Selects(hs, input, i, j) && IsDestinationOf(c, hs[i].routes[j])
  {
    i, j := 0, 0;
    if hs != [] {
      var out := ConvertVirtualHosts(hs);
      assert out[0] == ConvertHost(hs[0]) && out[1..] == ConvertVirtualHosts(hs[1..]);
      j := HostMeaning(hs[0], input);
      if FindInHost(out[0], input).Some? {
        assert NoneServe(hs[..0], input);
      } else {
        i, j := TranslationPreservesMeaning(hs[1..], input);
        if FindInHosts(out[1..], input).Some? {
          NoneServeCons(hs, i, input);
        } else {
          assert hs[1..][..|hs| - 1] == hs[1..] && hs[..|hs|] == hs;
          NoneServeCons(hs, |hs| - 1, input);
        }
        i := i + 1;
      }
    }
  }

  lemma {:induction false} NoneServeCons(hs: seq<XVirtualHost>, n: nat, input: MatchInput)
    requires n < |hs| && !HostServes(hs[0], input) && NoneServe(hs[1..][..n], input)
    ensures NoneServe(hs[..n + 1], input)
  {
    var front := hs[..n + 1];
    forall k | 0 <= k < |front| ensures !HostServes(front[k], input) {
      if k > 0 { assert front[k] == hs[1..][..n][k - 1]; }
    }
  }

  /** The selected position is unique, so the theorem above fixes the answer. */
  lemma {:induction false} SelectsUnique(hs: seq<XVirtualHost>, input: MatchInput, i: nat, j: nat, i': nat, j': nat)
    requires Selects(hs, input, i, j) && Selects(hs, input, i', j')
    ensures i == i' && j == j'
  {
    assert HostServes(hs[i], input) && HostServes(hs[i'], input);
  }

  // ---------- listeners ----------

  datatype ListenerSnapshot = ListenerSnapshot(
    listener: Listener, routeNames: seq<string>, inlineVirtualHosts: seq<VirtualHost>)

  const MANAGER_NAME := "http_connection_manager"
  const MANAGER_TYPE := "extensions.filters.network.http_connection_manager.v1.HttpConnectionManager"

  predicate IsConnectionManager(f: Filter) {
    f.config.Some? && (Contains(f.name, MANAGER_NAME) || EndsWith(f.config.value.typeUrl, MANAGER_TYPE))
  }

  /** One decoded manager appended, or failure. */
  function Push(done: Option<seq<ConnectionManager>>, any: Packed<ConnectionManager>): Option<seq<ConnectionManager>> {
    if done.Some? && any.message.Some? then Some(done.value + [any.message.value]) else None
  }

  function FilterManagers(start: Option<seq<ConnectionManager>>, fs: seq<Filter>): Option<seq<ConnectionManager>> {
    if fs == [] then start else
      var done, f := FilterManagers(start, fs[..|fs| - 1]), fs[|fs| - 1];
      if IsConnectionManager(f) then Push(done, f.config.value) else done
  }

  function ChainManagers(start: Option<seq<ConnectionManager>>, cs: seq<FilterChain>): Option<seq<ConnectionManager>> {
    if cs == [] then start else
      FilterManagers(ChainManagers(start, cs[..|cs| - 1]), cs[|cs| - 1].filters)
  }

  function ApiManagers(l: XListener): Option<seq<ConnectionManager>> {
    match l.apiListener
    case None => Some([])
    case Some(any) => match any.message case None => None case Some(m) => Some([m])
  }

  /** `http_connection_managers`: the API listener's, then the filters' in order; `None` on a decode error. */
  function Managers(l: XListener): Option<seq<ConnectionManager>> {
    ChainManagers(ApiManagers(l), l.filterChains)
  }

  // The managers, stated without the loops: the candidates in order, all decoded.

  function FilterCandidates(fs: seq<Filter>): seq<Packed<ConnectionManager>> {
    if fs == [] then [] else
      FilterCandidates(fs[..|fs| - 1]) + if IsConnectionManager(fs[|fs| - 1]) then [fs[|fs| - 1].config.value] else []
  }

  function ChainCandidates(cs: seq<FilterChain>): seq<Packed<ConnectionManager>> {
    if cs == [] then [] else ChainCandidates(cs[..|cs| - 1]) + FilterCandidates(cs[|cs| - 1].filters)
  }

  function Candidates(l: XListener): seq<Packed<ConnectionManager>> {
    (match l.apiListener case None => [] case Some(any) => [any]) + ChainCandidates(l.filterChains)
  }

  ghost predicate Decoded(r: Option<seq<ConnectionManager>>, anys: seq<Packed<ConnectionManager>>) {
    match r
    case None => exists i | 0 <= i < |anys| :: anys[i].message.None?
    case Some(ms) => |ms| == |anys| && forall i | 0 <= i < |anys| :: anys[i].message == Some(ms[i])
  }

  /** The filter is named after the HTTP connection manager, or its type is. */
  ghost predicate IsManagerFilter(f: Filter) {
    && f.config.Some?
    && (HasPart(f.name, "http_connection_manager") ||
        HasSuffix(f.config.value.typeUrl,
                  "extensions.filters.network.http_connection_manager.v1.HttpConnectionManager"))
  }

  lemma {:induction false} ManagerFilterExact(f: Filter)
    ensures IsConnectionManager(f) <==> IsManagerFilter(f)
  {
    ContainsExact(f.name, MANAGER_NAME);
    if f.config.Some? { EndsWithExact(f.config.value.typeUrl, MANAGER_TYPE); }
  }

  /** A filter's place in a listener: a chain and a position in it. */
  datatype FilterPlace = FilterPlace(chain: nat, position: nat)

  ghost predicate Earlier(p: FilterPlace, q: FilterPlace) {
    p.chain < q.chain || (p.chain == q.chain && p.position < q.position)
  }

  ghost predicate ManagerAt(cs: seq<FilterChain>, p: FilterPlace) {
    && p.chain < |cs| && p.position < |cs[p.chain].filters|
    && IsManagerFilter(cs[p.chain].filters[p.position])
  }

  /** `at` lists all places of manager filters before `end` in order, and `out` is what they hold. */
  ghost predicate ManagersUpTo(
    cs: seq<FilterChain>, at: seq<FilterPlace>, out: seq<Packed<ConnectionManager>>, end: FilterPlace)
  {
    && |out| == |at| && (forall j, k | 0 <= j < k < |at| :: Earlier(at[j], at[k]))
    && (forall k | 0 <= k < |at| ::
          && ManagerAt(cs, at[k]) && Earlier(at[k], end)
          && cs[at[k].chain].filters[at[k].position].config == Some(out[k]))
    && forall p | ManagerAt(cs, p) && Earlier(p, end) :: p in at
  }

  lemma {:induction false} NoMoreManager(
    cs: seq<FilterChain>, at: seq<FilterPlace>, out: seq<Packed<ConnectionManager>>, end: FilterPlace)
    requires ManagersUpTo(cs, at, out, end) && !ManagerAt(cs, end)
    ensures ManagersUpTo(cs, at, out, FilterPlace(end.chain, end.position + 1))
  {
    var next := FilterPlace(end.chain, end.position + 1);
    forall p | ManagerAt(cs, p) && Earlier(p, next) ensures p in at { assert Earlier(p, end); }
  }

  lemma {:induction false} OneMoreManager(
    cs: seq<FilterChain>, at: seq<FilterPlace>, out: seq<Packed<ConnectionManager>>, end: FilterPlace)
    requires ManagersUpTo(cs, at, out, end) && ManagerAt(cs, end)
    ensures ManagersUpTo(cs, at + [end], out + [cs[end.chain].filters[end.position].config.value],
                         FilterPlace(end.chain, end.position + 1))
  {
    var next, more := FilterPlace(end.chain, end.position + 1), at + [end];
    forall p | ManagerAt(cs, p) && Earlier(p, next) ensures p in more {
      if p != end { assert Earlier(p, end) && p in at; }
    }
  }

  lemma {:induction false} NextFilter(
    cs: seq<FilterChain>, at: seq<FilterPlace>, out: seq<Packed<ConnectionManager>>, end: FilterPlace)
    returns (more: seq<FilterPlace>)
    requires end.chain < |cs| && end.position < |cs[end.chain].filters| && ManagersUpTo(cs, at, out, end)
    ensures var f := cs[end.chain].filters[end.position];
      ManagersUpTo(cs, more, out + if IsConnectionManager(f) then [f.config.value] else [],
                   FilterPlace(end.chain, end.position + 1))
  {
    var f := cs[end.chain].filters[end.position];
    ManagerFilterExact(f);
    if IsConnectionManager(f) {
      OneMoreManager(cs, at, out, end);
      more := at + [end];
    } else {
      NoMoreManager(cs, at, out, end);
      more := at;
      assert out + [] == out;
    }
  }

  lemma {:induction false} FilterPlaces(
    cs: seq<FilterChain>, i: nat, n: nat, at: seq<FilterPlace>, out: seq<Packed<ConnectionManager>>)
    returns (more: seq<FilterPlace>)
    requires i < |cs| && n <= |cs[i].filters| && ManagersUpTo(cs, at, out, FilterPlace(i, 0))
    ensures ManagersUpTo(cs, more, out + FilterCandidates(cs[i].filters[..n]), FilterPlace(i, n))
    decreases n
  {
    var fs := cs[i].filters;
    if n == 0 {
      more := at;
      assert out + FilterCandidates(fs[..0]) == out;
    } else {
      var mid := FilterPlaces(cs, i, n - 1, at, out);
      var so := out + FilterCandidates(fs[..n - 1]);
      more := NextFilter(cs, mid, so, FilterPlace(i, n - 1));
      assert fs[..n][..n - 1] == fs[..n - 1];
      assert out + FilterCandidates(fs[..n]) ==
        so + if IsConnectionManager(fs[n - 1]) then [fs[n - 1].config.value] else [];
    }
  }

  lemma {:induction false} NewChain(
    cs: seq<FilterChain>, at: seq<FilterPlace>, out: seq<Packed<ConnectionManager>>, i: nat)
    requires i < |cs| && ManagersUpTo(cs, at, out, FilterPlace(i, |cs[i].filters|))
    ensures ManagersUpTo(cs, at, out, FilterPlace(i + 1, 0))
  {
    forall p | ManagerAt(cs, p) && Earlier(p, FilterPlace(i + 1, 0)) ensures p in at {
      assert Earlier(p, FilterPlace(i, |cs[i].filters|));
    }
  }

  lemma {:induction false} ChainPlaces(cs: seq<FilterChain>, m: nat) returns (at: seq<FilterPlace>)
    requires m <= |cs|
    ensures ManagersUpTo(cs, at, ChainCandidates(cs[..m]), FilterPlace(m, 0))
  {
    at := [];
    if m > 0 {
      at := ChainPlaces(cs, m - 1);
      var fs := cs[m - 1].filters;
      assert cs[..m][..m - 1] == cs[..m - 1] && fs[..|fs|] == fs;
      at := FilterPlaces(cs, m - 1, |fs|, at, ChainCandidates(cs[..m - 1]));
      NewChain(cs, at, ChainCandidates(cs[..m]), m - 1);
    }
  }

  /** The candidates are the API listener's, if any, and then what the manager filters hold, in order, none left out. */
  lemma {:induction false} CandidatesInOrder(l: XListener) returns (at: seq<FilterPlace>)
    ensures var api := match l.apiListener case None => [] case Some(any) => [any];
      && api <= Candidates(l)
      && ManagersUpTo(l.filterChains, at, Candidates(l)[|api|..], FilterPlace(|l.filterChains|, 0))
  {
    at := ChainPlaces(l.filterChains, |l.filterChains|);
    assert l.filterChains[..|l.filterChains|] == l.filterChains;
  }

  lemma {:induction false} DecodedPush(
    r: Option<seq<ConnectionManager>>, anys: seq<Packed<ConnectionManager>>, any: Packed<ConnectionManager>)
    requires Decoded(r, anys)
    ensures Decoded(Push(r, any), anys + [any])
  {
    var longer := anys + [any];
    assert longer[|anys|] == any && forall i | 0 <= i < |anys| :: longer[i] == anys[i];
    if r.None? {
      var i :| 0 <= i < |anys| && anys[i].message.None?;
      assert longer[i].message.None?;
    }
  }

  lemma {:induction false} FiltersDecoded(
    start: Option<seq<ConnectionManager>>, anys: seq<Packed<ConnectionManager>>, fs: seq<Filter>)
    requires Decoded(start, anys)
    ensures Decoded(FilterManagers(start, fs), anys + FilterCandidates(fs))
  {
    if fs == [] {
      assert anys + [] == anys;
    } else {
      var init, f := fs[..|fs| - 1], fs[|fs| - 1];
      FiltersDecoded(start, anys, init);
      var front := anys + FilterCandidates(init);
      if IsConnectionManager(f) {
        DecodedPush(FilterManagers(start, init), front, f.config.value);
        assert anys + FilterCandidates(fs) == front + [f.config.value];
      } else {
        assert anys + FilterCandidates(fs) == front;
      }
    }
  }

  lemma {:induction false} ChainsDecoded(
    start: Option<seq<ConnectionManager>>, anys: seq<Packed<ConnectionManager>>, cs: seq<FilterChain>)
    requires Decoded(start, anys)
    ensures Decoded(ChainManagers(start, cs), anys + ChainCandidates(cs))
  {
    if cs == [] {
      assert anys + [] == anys;
    } else {
      var init, last := cs[..|cs| - 1], cs[|cs| - 1].filters;
      ChainsDecoded(start, anys, init);
      FiltersDecoded(ChainManagers(start, init), anys + ChainCandidates(init), last);
      assert anys + ChainCandidates(cs) == anys + ChainCandidates(init) + FilterCandidates(last);
    }
  }

  /** The listener's managers are its candidates decoded one by one, in order; one failure fails all. */
  lemma {:induction false} ManagersAreDecodedCandidates(l: XListener)
    ensures Decoded(Managers(l), Candidates(l))
  {
    var api := match l.apiListener case None => [] case Some(any) => [any];
    assert Decoded(ApiManagers(l), api) by {
      if l.apiListener.Some? && l.apiListener.value.message.None? { assert api[0].message.None?; }
    }
    ChainsDecoded(ApiManagers(l), api, l.filterChains);
  }

  lemma {:induction false} FilterFailureSticks(fs: seq<Filter>)
    ensures FilterManagers(None, fs) == None
  {
    if fs != [] { FilterFailureSticks(fs[..|fs| - 1]); }
  }

  lemma {:induction false} FilterFailurePropagates(start: Option<seq<ConnectionManager>>, fs: seq<Filter>, n: nat)
    requires n <= |fs| && FilterManagers(start, fs[..n]) == None
    ensures FilterManagers(start, fs) == None
    decreases |fs|
  {
    if n == |fs| {
      assert fs[..n] == fs;
    } else {
      assert fs[..|fs| - 1][..n] == fs[..n];
      FilterFailurePropagates(start, fs[..|fs| - 1], n);
    }
  }

  lemma {:induction false} ChainFailurePropagates(start: Option<seq<ConnectionManager>>, cs: seq<FilterChain>, n: nat)
    requires n <= |cs| && ChainManagers(start, cs[..n]) == None
    ensures ChainManagers(start, cs) == None
    decreases |cs|
  {
    if n == |cs| {
      assert cs[..n] == cs;
    } else {
      assert cs[..|cs| - 1][..n] == cs[..n];
      ChainFailurePropagates(start, cs[..|cs| - 1], n);
      FilterFailureSticks(cs[|cs| - 1].filters);
    }
  }

  method FilterLoop(start: seq<ConnectionManager>, fs: seq<Filter>) returns (r: Option<seq<ConnectionManager>>)
    ensures r == FilterManagers(Some(start), fs)
  {
    var managers := start;
    for j := 0 to |fs|
      invariant FilterManagers(Some(start), fs[..j]) == Some(managers)
    {
      assert fs[..j + 1][..j] == fs[..j];
      if IsConnectionManager(fs[j]) {
        if fs[j].config.value.message.None? {
          FilterFailurePropagates(Some(start), fs, j + 1);
          return None;
        }
        managers := managers + [fs[j].config.value.message.value];
      }
    }
    assert fs[..|fs|] == fs;
    return Some(managers);
  }

  method HttpConnectionManagers(l: XListener) returns (r: Option<seq<ConnectionManager>>)
    ensures r == Managers(l)
  {
    var cs := l.filterChains;
    var managers := [];
    if l.apiListener.Some? {
      if l.apiListener.value.message.None? {
        ChainFailurePropagates(None, cs, 0);
        return None;
      }
      managers := [l.apiListener.value.message.value];
    }
    assert ApiManagers(l) == Some(managers);
    for i := 0 to |cs|
      invariant ChainManagers(ApiManagers(l), cs[..i]) == Some(managers)
    {
      assert cs[..i + 1][..i] == cs[..i];
      var more := FilterLoop(managers, cs[i].filters);
      if more.None? {
        ChainFailurePropagates(ApiManagers(l), cs, i + 1);
        return None;
      }
      managers := more.value;
    }
    assert cs[..|cs|] == cs;
    return Some(managers);
  }

  function RdsNames(ms: seq<ConnectionManager>): seq<string> {
    if ms == [] then [] else
      RdsNames(ms[..|ms| - 1]) +
      match ms[|ms| - 1].routeSpecifier
      case Some(Rds(name)) => if name != "" then [name] else []
      case _ => []
  }

  function InlineHosts(ms: seq<ConnectionManager>): (out: seq<VirtualHost>)
    ensures HaveDestinations(out)
  {
    if ms == [] then [] else
      InlineHosts(ms[..|ms| - 1]) +
      match ms[|ms| - 1].routeSpecifier
      case Some(InlineRoutes(config)) => ConvertVirtualHosts(config.virtualHosts)
      case _ => []
  }

  /** The virtual hosts a manager carries inline. */
  function InlineBlock(m: ConnectionManager): seq<VirtualHost> {
    match m.routeSpecifier
    case Some(InlineRoutes(config)) => ConvertVirtualHosts(config.virtualHosts)
    case _ => []
  }

  function InlineBlocks(ms: seq<ConnectionManager>): seq<seq<VirtualHost>> {
    if ms == [] then [] else InlineBlocks(ms[..|ms| - 1]) + [InlineBlock(ms[|ms| - 1])]
  }

  /** Inline virtual hosts come manager by manager. */
  lemma {:induction false} InlineHostsJoined(ms: seq<ConnectionManager>)
    ensures Joined(InlineHosts(ms), InlineBlocks(ms))
  {
    if ms != [] {
      var n := |ms| - 1;
      InlineHostsJoined(ms[..n]);
      JoinedNext(InlineHosts(ms[..n]), InlineBlocks(ms[..n]), InlineBlock(ms[n]));
    }
  }

  function ListenerPort(l: XListener): u16 {
    match SocketOf(l.address)
    case Some(s) => s.1
    case None =>
      match AfterLast(l.name, ':')
      case None => 80
      case Some(text) => match ParseU16(text) case Some(port) => port case None => 80
  }

  const UNSPECIFIED := "0.0.0.0"

  /** What every xDS listener looks like: bound to all addresses, HTTPS exactly on port 443, no TLS secret. */
  predicate HasXdsShape(l: Listener) {
    l.bind.ip == "0.0.0.0" && l.tlsSecret == None && (l.protocol == Https <==> l.bind.port == 443)
  }

  function SnapshotOf(l: XListener): (r: Option<ListenerSnapshot>)
    ensures r.Some? ==>
      && r.value.listener.name == l.name && HasXdsShape(r.value.listener)
      && StrictlySorted(r.value.routeNames) && HaveDestinations(r.value.inlineVirtualHosts)
  {
    match Managers(l)
    case None => None
    case Some(ms) =>
      var port := ListenerPort(l);
      Some(ListenerSnapshot(
        Listener(l.name, SocketAddr(UNSPECIFIED, port), if port == 443 then Https else Http, [], None),
        SortedUnique(RdsNames(ms)), InlineHosts(ms)))
  }

  lemma {:induction false} RdsNamesMembers(ms: seq<ConnectionManager>, n: string)
    ensures n in RdsNames(ms) <==> n != "" && ConnectionManager(Some(Rds(n))) in ms
  {
    if ms != [] {
      RdsNamesMembers(ms[..|ms| - 1], n);
      assert ms == ms[..|ms| - 1] + [ms[|ms| - 1]];
    }
  }

  /** Candidate `i` decodes to a manager that names route configuration `n`. */
  ghost predicate AsksForRoute(l: XListener, i: nat, n: string) {
    i < |Candidates(l)| && Candidates(l)[i].message == Some(ConnectionManager(Some(Rds(n))))
  }

  /**
   A snapshot exists if and only if all candidates decode, and names exactly the route configurations they ask for.
   */
  lemma {:induction false} SnapshotNamesRoutes(l: XListener, n: string)
    ensures SnapshotOf(l).Some? <==> forall i | 0 <= i < |Candidates(l)| :: Candidates(l)[i].message.Some?
    ensures SnapshotOf(l).Some? ==>
      (n in SnapshotOf(l).value.routeNames <==> n != "" && exists i: nat :: AsksForRoute(l, i, n))
  {
    ManagersAreDecodedCandidates(l);
    if SnapshotOf(l).Some? {
      var ms := Managers(l).value;
      RdsNamesMembers(ms, n);
      var manager := ConnectionManager(Some(Rds(n)));
      assert n in SnapshotOf(l).value.routeNames <==> n in RdsNames(ms) by {
        assert n in Elements(SnapshotOf(l).value.routeNames) <==> n in Elements(RdsNames(ms));
      }
      if manager in ms {
        var i :| 0 <= i < |ms| && ms[i] == manager;
        assert AsksForRoute(l, i, n);
      }
    }
  }

  /** A snapshot's inline virtual hosts are those of the decoded candidates, one after the other. */
  lemma {:induction false} SnapshotHostsJoined(l: XListener) returns (ms: seq<ConnectionManager>)
    requires SnapshotOf(l).Some?
    ensures |ms| == |Candidates(l)| && forall i | 0 <= i < |ms| :: Candidates(l)[i].message == Some(ms[i])
    ensures Joined(SnapshotOf(l).value.inlineVirtualHosts, InlineBlocks(ms))
  {
    ManagersAreDecodedCandidates(l);
    ms := Managers(l).value;
    InlineHostsJoined(ms);
  }

  /**
   A snapshot's listener keeps the name, binds all addresses, is HTTPS exactly on 443 and has no TLS secret. Its port is
   the socket address's; without one, the number after the name's last colon; else 80.
   */
  lemma {:induction false} SnapshotPort(l: XListener, front: string, text: string)
    requires SnapshotOf(l).Some?
    ensures SnapshotOf(l).value.listener.name == l.name && HasXdsShape(SnapshotOf(l).value.listener)
    ensures var port := SnapshotOf(l).value.listener.bind.port;
      match SocketOf(l.address)
      case Some(socket) => port == socket.1
      case None =>
        && (l.name == front + ":" + text && Free(':', text) ==>
              port == match ParseU16(text) case Some(p) => p case None => 80)
        && (Free(':', l.name) ==> port == 80)
  {
    if l.name == front + ":" + text && Free(':', text) {
      AfterLastIs(front, ':', text);
      assert [':'] == ":";
    }
  }

  method ListenerSnapshotLoop(l: XListener) returns (r: Option<ListenerSnapshot>)
    ensures r == SnapshotOf(l)
  {
    var port := ListenerPort(l);
    var routeNames: seq<string>, inline: seq<VirtualHost> := [], [];
    var managers := HttpConnectionManagers(l);
    if managers.None? {
      return None;
    }
    var ms := managers.value;
    for i := 0 to |ms|
      invariant routeNames == RdsNames(ms[..i]) && inline == InlineHosts(ms[..i])
    {
      assert ms[..i + 1][..i] == ms[..i];
      match ms[i].routeSpecifier {
        case Some(Rds(name)) =>
          if name != "" {
            routeNames := routeNames + [name];
          }
        case Some(InlineRoutes(config)) =>
          inline := inline + ConvertVirtualHosts(config.virtualHosts);
        case None =>
      }
    }
    assert ms[..|ms|] == ms;
    return Some(ListenerSnapshot(
      Listener(l.name, SocketAddr(UNSPECIFIED, port), if port == 443 then Https else Http, [], None),
      SortedUnique(routeNames), inline));
  }

  // ---------- clusters ----------

  datatype ClusterSnapshot = ClusterSnapshot(name: string, edsServiceName: string, tls: Option<UpstreamTls>)

  const TLS_TYPE := "extensions.transport_sockets.tls.v1.UpstreamTlsContext"

  function NonEmpty(s: string): Option<string> {
    if s == "" then None else Some(s)
  }

  /** The fourth '|'-separated field of a cluster name. */
  function ClusterAuthority(name: string): (r: Option<string>)
    ensures r.Some? ==> r.value != "" && Free('|', r.value)
  {
    var pieces := Split(name, '|');
    if |pieces| > 3 then NonEmpty(pieces[3]) else None
  }

  /** `name` is `a|b|c|tail` with bar-free `a`, `b`, `c`. */
  ghost predicate HasFields(name: string, a: string, b: string, c: string, tail: string) {
    && Free('|', a) && Free('|', b) && Free('|', c)
    && name == a + "|" + (b + "|" + (c + "|" + tail))
  }

  /** `d` is the bar-free text between the third bar of `name` and the next one, or the end. */
  ghost predicate IsFourthField(name: string, d: string) {
    && Free('|', d)
    && exists a, b, c, tail :: HasFields(name, a, b, c, tail) && (tail == d || StartsWith(tail, d + "|"))
  }

  lemma {:induction false} SplitBar(a: string, rest: string)
    requires Free('|', a)
    ensures Split(a + "|" + rest, '|') == [a] + Split(rest, '|')
  {
    SplitCons(a, '|', rest);
  }

  lemma {:induction false} ThreeCons(a: string, b: string, c: string, rest: seq<string>)
    ensures [a] + ([b] + ([c] + rest)) == [a, b, c] + rest
  {
  }

  lemma {:induction false} FieldsSplit(name: string, a: string, b: string, c: string, tail: string)
    requires HasFields(name, a, b, c, tail)
    ensures Split(name, '|') == [a, b, c] + Split(tail, '|')
  {
    var third := c + "|" + tail;
    var second := b + "|" + third;
    SplitBar(a, second);
    SplitBar(b, third);
    SplitBar(c, tail);
    ThreeCons(a, b, c, Split(tail, '|'));
  }

  lemma {:induction false} FourPieces(name: string) returns (a: string, b: string, c: string, tail: string)
    requires |Split(name, '|')| > 3
    ensures HasFields(name, a, b, c, tail)
  {
    var ps := Split(name, '|');
    a, b, c, tail := ps[0], ps[1], ps[2], JoinWith(ps[3..], "|");
    assert ['|'] == "|";
    assert ps[1..][1..] == ps[2..] && ps[2..][1..] == ps[3..];
    assert JoinWith(ps, "|") == a + "|" + JoinWith(ps[1..], "|");
    assert JoinWith(ps[1..], "|") == b + "|" + JoinWith(ps[2..], "|");
    assert JoinWith(ps[2..], "|") == c + "|" + tail;
  }

  /** The authority is the fourth field, if there is one and it is not empty. */
  lemma {:induction false} AuthorityIsFourthField(name: string, d: string)
    ensures ClusterAuthority(name) == Some(d) <==> d != "" && IsFourthField(name, d)
  {
    if |Split(name, '|')| > 3 {
      var a, b, c, tail := FourPieces(name);
      FieldsSplit(name, a, b, c, tail);
      SplitHead(tail, '|', d);
    }
    forall a, b, c, tail | HasFields(name, a, b, c, tail)
      ensures ClusterAuthority(name) == NonEmpty(Split(tail, '|')[0])
      ensures Split(tail, '|')[0] == d <==> Free('|', d) && (tail == d || StartsWith(tail, d + "|"))
    {
      FieldsSplit(name, a, b, c, tail);
      SplitHead(tail, '|', d);
    }
  }

  function InstanceName(instance: Option<string>): Option<string> {
    match instance case None => None case Some(name) => NonEmpty(name)
  }

  function UpstreamTlsOf(c: XCluster): (r: Option<UpstreamTls>)
    ensures r.Some? && r.value.sni.Some? ==> r.value.sni.value != ""
  {
    match c.transportSocket
    case None => None
    case Some(any) =>
      if !EndsWith(any.typeUrl, TLS_TYPE) || any.message.None? then None else
        var tls := any.message.value;
        var common := tls.common;
        Some(UpstreamTls(
          if tls.sni != "" then Some(tls.sni) else ClusterAuthority(c.name),
          if common.None? then None else InstanceName(common.value.certificate),
          if common.None? then None else InstanceName(common.value.validation),
          if common.None? then [] else common.value.alpnProtocols))
  }

  function EdsServiceName(c: XCluster): (r: string)
    ensures c.name != "" ==> r != ""
  {
    match c.edsServiceName case Some(s) => if s != "" then s else c.name case None => c.name
  }

  function ClusterOf(c: XCluster): ClusterSnapshot {
    ClusterSnapshot(c.name, EdsServiceName(c), UpstreamTlsOf(c))
  }

  /** The EDS name is the configured one if it is not empty, else the cluster's name. */
  lemma {:induction false} EdsServiceNameMeaning(c: XCluster, s: string)
    ensures c.edsServiceName == Some(s) && s != "" ==> EdsServiceName(c) == s
    ensures c.edsServiceName == None || c.edsServiceName == Some("") ==> EdsServiceName(c) == c.name
  {
  }

  ghost predicate IsTlsSocket(any: Packed<UpstreamTlsContext>) {
    HasSuffix(any.typeUrl, "extensions.transport_sockets.tls.v1.UpstreamTlsContext") && any.message.Some?
  }

  /**
   A cluster has upstream TLS exactly if its transport socket is a decodable TLS context. The server name is the given
   one, else the fourth field of the cluster's name; providers are the instances named; empty names count as none.
   */
  lemma {:induction false} UpstreamTlsMeaning(c: XCluster)
    ensures UpstreamTlsOf(c).Some? <==> c.transportSocket.Some? && IsTlsSocket(c.transportSocket.value)
    ensures UpstreamTlsOf(c).Some? ==>
      var (t, x) := (UpstreamTlsOf(c).value, c.transportSocket.value.message.value);
      && (x.sni != "" ==> t.sni == Some(x.sni))
      && (x.sni == "" ==> forall d :: t.sni == Some(d) <==> d != "" && IsFourthField(c.name, d))
      && (x.common == None ==> t == UpstreamTls(t.sni, None, None, []))
      && (x.common.Some? ==>
            && NamedBy(t.certificateProvider, x.common.value.certificate)
            && NamedBy(t.validationProvider, x.common.value.validation)
            && t.alpnProtocols == x.common.value.alpnProtocols)
  {
    if c.transportSocket.Some? { EndsWithExact(c.transportSocket.value.typeUrl, TLS_TYPE); }
    forall d ensures ClusterAuthority(c.name) == Some(d) <==> d != "" && IsFourthField(c.name, d) {
      AuthorityIsFourthField(c.name, d);
    }
  }

  /** `name` is the instance's, unless there is none or it is empty. */
  ghost predicate NamedBy(name: Option<string>, instance: Option<string>) {
    if instance == None || instance == Some("") then name == None else name == instance
  }
}
