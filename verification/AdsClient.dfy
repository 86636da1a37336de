/**
 The discovery client as it runs: maps updated in place, requests sent and the watch channel fed by a receive loop.
 */
module AdsClient {
  import opened Wrappers
  import opened Text
  import opened Config
  import opened Messages
  import opened Endpoints
  import opened Translation
  import opened Discovery

  datatype XdsError = DecodeError(typeUrl: TypeUrl)

  datatype DiscoveryUpdates = DiscoveryUpdates(
    routeNames: seq<string>, clusterNames: seq<string>, edsNames: seq<string>)

  const NO_UPDATES := DiscoveryUpdates([], [], [])

  /** `DiscoveryUpdates::subscriptions`: only the non-empty name lists, in order. */
  function Subscriptions(u: DiscoveryUpdates): seq<(TypeUrl, seq<string>)> {
    (if u.routeNames == [] then [] else [(RouteType, u.routeNames)]) +
    (if u.clusterNames == [] then [] else [(ClusterType, u.clusterNames)]) +
    (if u.edsNames == [] then [] else [(EndpointType, u.edsNames)])
  }

  /** What follows from a response of type `t`: at most one list of names to subscribe to. */
  ghost function Wanted(s: AdsView, t: TypeUrl): seq<(TypeUrl, seq<string>)> {
    if Needs(s, t) == [] then [] else [(Follower(t), Needs(s, t))]
  }

  // ---------- partial application ----------

  /** How many resources are accepted before the first decode error. */
  function Accepted<T>(os: seq<Outcome<T>>): (n: nat)
    ensures n <= |os| && Decodes(os[..n])
    ensures n < |os| ==> os[n].Failed?
    ensures n == |os| <==> Decodes(os)
  {
    if os == [] || os[0].Failed? then 0 else
      var n := Accepted(os[1..]) + 1;
      assert forall i | 0 < i < |os| :: os[i] == os[1..][i - 1];
      assert forall i | 0 < i < n :: os[..n][i] == os[1..][..n - 1][i - 1];
      n
  }

  lemma {:induction false} AcceptedNext<T>(os: seq<Outcome<T>>, i: nat)
    requires i < |os|
    ensures Accepted(os[i..]) == if os[i].Failed? then 0 else 1 + Accepted(os[i + 1..])
  {
    assert os[i..][1..] == os[i + 1..];
  }

  function Insert<T>(m: map<string, T>, o: Outcome<T>): map<string, T> {
    match o case Named(k, v) => m[k := v] case _ => m
  }

  lemma {:induction false} OverlayNext<T>(os: seq<Outcome<T>>, i: nat)
    requires i < |os|
    ensures Overlay(os[..i + 1]) == Insert(Overlay(os[..i]), os[i])
  {
    assert os[..i + 1][..i] == os[..i];
  }

  lemma {:induction false} RefreshNext<T>(m: map<string, T>, asked: seq<string>, os: seq<Outcome<T>>, i: nat)
    requires i < |os|
    ensures Refresh(m, asked, Overlay(os[..i + 1])) == Insert(Refresh(m, asked, Overlay(os[..i])), os[i])
  {
    OverlayNext(os, i);
  }

  lemma {:induction false} MergeNext<T>(m: map<string, T>, os: seq<Outcome<T>>, i: nat)
    requires i < |os|
    ensures m + Overlay(os[..i + 1]) == Insert(m + Overlay(os[..i]), os[i])
  {
    OverlayNext(os, i);
  }

  /** `prune_requested`. */
  method PruneRequested<T>(m: map<string, T>, requested: seq<string>) returns (r: map<string, T>)
    ensures r == Refresh(m, requested, map[])
  {
    if requested == [] {
      r := map[];
    } else {
      r := m;
      for i := 0 to |requested|
        invariant r == m - Elements(requested[..i])
      {
        assert Elements(requested[..i + 1]) == Elements(requested[..i]) + {requested[i]} by {
          assert requested[..i + 1] == requested[..i] + [requested[i]];
        }
        r := r - {requested[i]};
      }
      assert requested[..|requested|] == requested;
    }
  }

  method TakeListener(resource: Resource) returns (o: Outcome<ListenerSnapshot>)
    ensures o == AcceptListener(resource) && !o.Skipped?
  {
    if resource.asListener.None? {
      return Failed;
    }
    var snapshot := ListenerSnapshotLoop(resource.asListener.value);
    return if snapshot.None? then Failed else Named(snapshot.value.listener.name, snapshot.value);
  }

  /** A cluster resource yields its snapshot and, when it carries a load assignment, its endpoints. */
  method TakeCluster(resource: Resource) returns (o: Outcome<ClusterSnapshot>, carried: Outcome<seq<Endpoint>>)
    ensures o == AcceptCluster(resource) && carried == AcceptInline(resource)
  {
    if resource.asCluster.None? {
      return Failed, Failed;
    }
    var cluster := resource.asCluster.value;
    if cluster.name == "" {
      return Skipped, Skipped;
    }
    var eds := EdsServiceName(cluster);
    carried := Skipped;
    if cluster.loadAssignment.Some? {
      var found := EndpointsFromAssignment(cluster.loadAssignment.value);
      carried := Named(eds, found);
    }
    o := Named(cluster.name, ClusterSnapshot(cluster.name, eds, UpstreamTlsOf(cluster)));
  }

  class AdsState {
    var subscriptions: map<TypeUrl, seq<string>>
    var listeners: map<string, ListenerSnapshot>
    var routes: map<string, seq<VirtualHost>>
    var clusters: map<string, ClusterSnapshot>
    var endpoints: map<string, seq<Endpoint>>

    ghost function View(): AdsView
      reads this
    {
      AdsView(subscriptions, listeners, routes, clusters, endpoints)
    }

    constructor ()
      ensures View() == FRESH
    {
      subscriptions, listeners, routes, clusters, endpoints := map[], map[], map[], map[], map[];
    }

    function CurrentSubscription(t: TypeUrl): (names: seq<string>)
      reads this
      ensures names == Subscription(View(), t)
    {
      if t in subscriptions then subscriptions[t] else []
    }

    method SetSubscription(t: TypeUrl, names: seq<string>) returns (changed: bool)
      modifies this
      ensures View() == old(View()).(subscriptions := old(subscriptions)[t := SortedUnique(names)])
      ensures changed <==> !(t in old(subscriptions) && old(subscriptions)[t] == SortedUnique(names))
    {
      var sorted := SortedUnique(names);
      if t in subscriptions && subscriptions[t] == sorted {
        assert subscriptions == subscriptions[t := sorted];
        return false;
      }
      subscriptions := subscriptions[t := sorted];
      return true;
    }

    method ApplyListeners(resources: seq<Resource>) returns (r: Result<DiscoveryUpdates, XdsError>)
      modifies this
      ensures var os := ListenerOutcomes(resources);
        && (r.Ok? <==> Decodes(os))
        && View() == Apply(old(View()), ListenerUpdate(Overlay(os[..Accepted(os)])))
      ensures r.Ok? ==> r.value == NO_UPDATES.(routeNames := Needs(View(), ListenerType))
    {
      ghost var before := listeners;
      ghost var os := ListenerOutcomes(resources);
      assert os[0..] == os;
      var requested := CurrentSubscription(ListenerType);
      listeners := PruneRequested(listeners, requested);
      for i := 0 to |resources|
        invariant View() == old(View()).(listeners := Refresh(before, requested, Overlay(os[..i])))
        invariant Accepted(os) == i + Accepted(os[i..])
      {
        RefreshNext(before, requested, os, i);
        AcceptedNext(os, i);
        var snapshot := TakeListener(resources[i]);
        assert os[i] == snapshot;
        if snapshot.Failed? {
          return Err(DecodeError(ListenerType));
        }
        listeners := listeners[snapshot.name := snapshot.value];
      }
      assert os[..|os|] == os;
      r := Ok(NO_UPDATES.(routeNames := Sorted(RouteNameSet(listeners))));
    }

    method ApplyRoutes(resources: seq<Resource>) returns (r: Result<DiscoveryUpdates, XdsError>)
      modifies this
      ensures var os := RouteOutcomes(resources);
        && (r.Ok? <==> Decodes(os))
        && View() == Apply(old(View()), RouteUpdate(Overlay(os[..Accepted(os)])))
      ensures r.Ok? ==> r.value == NO_UPDATES.(clusterNames := Needs(View(), RouteType))
    {
      ghost var before := routes;
      ghost var os := RouteOutcomes(resources);
      assert os[0..] == os;
      var requested := CurrentSubscription(RouteType);
      routes := PruneRequested(routes, requested);
      for i := 0 to |resources|
        invariant View() == old(View()).(routes := Refresh(before, requested, Overlay(os[..i])))
        invariant Accepted(os) == i + Accepted(os[i..])
      {
        RefreshNext(before, requested, os, i);
        AcceptedNext(os, i);
        assert os[i] == AcceptRoute(resources[i]);
        if resources[i].asRoute.None? {
          return Err(DecodeError(RouteType));
        }
        var route := resources[i].asRoute.value;
        var hosts := ConvertVirtualHosts(route.virtualHosts);
        routes := routes[route.name := hosts];
      }
      assert os[..|os|] == os;
      r := Ok(NO_UPDATES.(clusterNames := Sorted(ClusterNameSet(routes))));
    }

    method ApplyClusters(resources: seq<Resource>) returns (r: Result<DiscoveryUpdates, XdsError>)
      modifies this
      ensures var os, inline := ClusterOutcomes(resources), InlineOutcomes(resources);
        && (r.Ok? <==> Decodes(os))
        && View() == Apply(old(View()), ClusterUpdate(Overlay(os[..Accepted(os)]), Overlay(inline[..Accepted(os)])))
      ensures r.Ok? ==> r.value == NO_UPDATES.(edsNames := Needs(View(), ClusterType))
    {
      var requested := CurrentSubscription(ClusterType);
      var decoded := InsertClusters(resources, requested);
      if !decoded {
        return Err(DecodeError(ClusterType));
      }
      r := Ok(NO_UPDATES.(edsNames := Sorted(EdsNameSet(clusters))));
    }

    /** Prune, then the loop over the cluster resources. */
    method InsertClusters(resources: seq<Resource>, requested: seq<string>) returns (decoded: bool)
      modifies this`clusters, this`endpoints
      ensures var os, inline := ClusterOutcomes(resources), InlineOutcomes(resources);
        && (decoded <==> Decodes(os))
        && clusters == Refresh(old(clusters), requested, Overlay(os[..Accepted(os)]))
        && endpoints == old(endpoints) + Overlay(inline[..Accepted(os)])
    {
      ghost var before, oldEndpoints := clusters, endpoints;
      ghost var os, inline := ClusterOutcomes(resources), InlineOutcomes(resources);
      assert os[0..] == os;
      clusters := PruneRequested(clusters, requested);
      for i := 0 to |resources|
        invariant clusters == Refresh(before, requested, Overlay(os[..i]))
        invariant endpoints == oldEndpoints + Overlay(inline[..i])
        invariant Accepted(os) == i + Accepted(os[i..])
      {
        RefreshNext(before, requested, os, i);
        MergeNext(oldEndpoints, inline, i);
        AcceptedNext(os, i);
        var cluster, carried := TakeCluster(resources[i]);
        assert os[i] == cluster && inline[i] == carried;
        if cluster.Failed? {
          return false;
        }
        if carried.Named? {
          endpoints := endpoints[carried.name := carried.value];
        }
        if cluster.Named? {
          clusters := clusters[cluster.name := cluster.value];
        }
      }
      decoded := true;
    }

    method ApplyEndpoints(resources: seq<Resource>) returns (r: Result<DiscoveryUpdates, XdsError>)
      modifies this
      ensures var os := AssignmentOutcomes(resources);
        && (r.Ok? <==> Decodes(os))
        && View() == Apply(old(View()), EndpointUpdate(Overlay(os[..Accepted(os)])))
      ensures r.Ok? ==> r.value == NO_UPDATES
    {
      ghost var before := endpoints;
      ghost var os := AssignmentOutcomes(resources);
      assert os[0..] == os;
      var requested := CurrentSubscription(EndpointType);
      endpoints := PruneRequested(endpoints, requested);
      for i := 0 to |resources|
        invariant View() == old(View()).(endpoints := Refresh(before, requested, Overlay(os[..i])))
        invariant Accepted(os) == i + Accepted(os[i..])
      {
        RefreshNext(before, requested, os, i);
        AcceptedNext(os, i);
        assert os[i] == AcceptAssignment(resources[i]);
        if resources[i].asAssignment.None? {
          return Err(DecodeError(EndpointType));
        }
        var assignment := resources[i].asAssignment.value;
        if assignment.clusterName != "" {
          var found := EndpointsFromAssignment(assignment);
          endpoints := endpoints[assignment.clusterName := found];
        }
      }
      assert os[..|os|] == os;
      r := Ok(NO_UPDATES);
    }

    /** Succeeds exactly on decodable responses, and then applies the whole update. */
    method ApplyResponse(resp: Response) returns (r: Result<DiscoveryUpdates, XdsError>)
      modifies this
      ensures r.Ok? <==> Decodable(resp)
      ensures r.Ok? ==> View() == Apply(old(View()), UpdateOf(resp))
      ensures r.Ok? ==> Subscriptions(r.value) == Wanted(View(), resp.typeUrl)
    {
      match resp.typeUrl
      case ListenerType => r := ApplyListeners(resp.resources);
        ghost var os := ListenerOutcomes(resp.resources);
        assert os[..|os|] == os;
      case RouteType => r := ApplyRoutes(resp.resources);
        ghost var os := RouteOutcomes(resp.resources);
        assert os[..|os|] == os;
      case ClusterType => r := ApplyClusters(resp.resources);
        ghost var os, inline := ClusterOutcomes(resp.resources), InlineOutcomes(resp.resources);
        assert os[..|os|] == os && inline[..|os|] == inline;
      case EndpointType => r := ApplyEndpoints(resp.resources);
        ghost var os := AssignmentOutcomes(resp.resources);
        assert os[..|os|] == os;
      case OtherType(_) => r := Ok(NO_UPDATES);
    }

    /** `runtime_config`: listeners and clusters in key order, virtual hosts joined route by route. */
    method BuildConfig(version: string) returns (cfg: RuntimeConfig)
      ensures cfg == ConfigOf(View(), version)
    {
      var ls := BuildListeners();
      var cs := BuildClusters();
      cfg := RuntimeConfig(if version == "" then "ads" else version, ls, cs, []);
    }

    method BuildListeners() returns (ls: seq<Listener>)
      ensures ls == ListenersOf(listeners, routes)
    {
      ls := [];
      var keys := Sorted(listeners.Keys);
      ghost var all := ListenersOf(listeners, routes);
      for i := 0 to |keys|
        invariant ls == all[..i]
      {
        var listener := AttachRoutes(listeners[keys[i]]);
        assert listener == all[i];
        ls := ls + [listener];
      }
    }

    method BuildClusters() returns (cs: seq<Cluster>)
      ensures cs == ClustersOf(clusters, endpoints)
    {
      cs := [];
      var keys := Sorted(clusters.Keys);
      ghost var all := ClustersOf(clusters, endpoints);
      for i := 0 to |keys|
        invariant cs == all[..i]
      {
        var c := clusters[keys[i]];
        var found := if c.edsServiceName in endpoints then endpoints[c.edsServiceName] else [];
        assert Cluster(c.name, found, c.tls) == all[i];
        cs := cs + [Cluster(c.name, found, c.tls)];
      }
    }

    method AttachRoutes(snapshot: ListenerSnapshot) returns (listener: Listener)
      ensures listener == ListenerIn(snapshot, routes)
    {
      var hosts := snapshot.inlineVirtualHosts;
      var names := snapshot.routeNames;
      for i := 0 to |names|
        invariant hosts == snapshot.inlineVirtualHosts + Attached(routes, names[..i])
      {
        assert names[..i + 1][..i] == names[..i];
        if names[i] in routes {
          hosts := hosts + routes[names[i]];
        }
      }
      assert names[..|names|] == names;
      listener := snapshot.listener.(virtualHosts := hosts);
    }
  }

  /** The watch channel. */
  class WatchCell {
    var value: RuntimeConfig
    var version: nat

    ghost function View(): Cell
      reads this
    {
      Cell(value, version)
    }

    constructor (initial: RuntimeConfig)
      ensures View() == Cell(initial, 0)
    {
      value, version := initial, 0;
    }

    method SendValue(cfg: RuntimeConfig)
      modifies this
      ensures View() == Send(old(View()), cfg)
    {
      value, version := cfg, version + 1;
    }
  }

  /** One turn of the receive loop. A decode error sends and publishes nothing. */
  method HandleResponse(state: AdsState, cell: WatchCell, log: seq<Request>, resp: Response)
    returns (log': seq<Request>, r: Result<(), XdsError>)
    modifies state, cell
    ensures r.Ok? <==> Decodable(resp)
    ensures r.Err? ==> log' == log && cell.View() == old(cell.View())
    ensures r.Ok? ==>
      Stream(state.View(), log', cell.View()) ==
        Deliver(Stream(old(state.View()), log, old(cell.View())), DigestOf(resp))
  {
    var updates := state.ApplyResponse(resp);
    if updates.Err? {
      return log, Err(updates.error);
    }
    ghost var s, u := state.View(), UpdateOf(resp);
    assert Stage(u) == resp.typeUrl && s == Apply(old(state.View()), u);
    assert s.subscriptions == old(state.subscriptions);
    log' := log + [Request(resp.typeUrl, state.CurrentSubscription(resp.typeUrl), resp.version, resp.nonce)];
    assert log' == log + [Ack(s, DigestOf(resp))];
    log' := SendSubscriptions(state, log', Subscriptions(updates.value), resp.typeUrl);
    assert state.View() == Step(old(state.View()), u);
    var cfg := state.BuildConfig(resp.version);
    var verdict := Validate(cfg);
    ConflictsExact(cfg);
    if verdict.Ok? && cfg != cell.value {
      cell.SendValue(cfg);
    }
    r := Ok(());
  }

  /** The loop over `updates.subscriptions()`. */
  method SendSubscriptions(state: AdsState, log: seq<Request>, wanted: seq<(TypeUrl, seq<string>)>, ghost t: TypeUrl)
    returns (log': seq<Request>)
    requires wanted == Wanted(state.View(), t)
    modifies state
    ensures state.View() == Resubscribe(old(state.View()), t)
    ensures log' == log + NewRequests(old(state.View()), t)
  {
    log' := log;
    ghost var s, names := state.View(), Needs(state.View(), t);
    for i := 0 to |wanted|
      invariant i == 0 ==> state.View() == s && log' == log
      invariant i == 1 ==> state.View() == Resubscribe(s, t) && log' == log + NewRequests(s, t)
    {
      assert SortedUnique(names) == names by { NeedsAreSorted(s, t); SortedCanonical(names); }
      var changed := state.SetSubscription(wanted[i].0, wanted[i].1);
      if changed {
        log' := log' + [Request(wanted[i].0, wanted[i].1, "", "")];
      }
    }
    if wanted == [] {
      assert log + [] == log;
    }
  }

  lemma {:induction false} NeedsAreSorted(s: AdsView, t: TypeUrl)
    ensures StrictlySorted(Needs(s, t))
  {
  }

  /** How many responses are received before one does not decode. */
  function Received(rs: seq<Response>): (n: nat)
    ensures n <= |rs| && AllDecodable(rs[..n])
    ensures n < |rs| ==> !Decodable(rs[n])
  {
    if rs == [] || !Decodable(rs[0]) then 0 else
      var n := Received(rs[1..]) + 1;
      assert forall i | 0 < i < n :: rs[..n][i] == rs[1..][..n - 1][i - 1];
      n
  }

  lemma {:induction false} ReceivedNext(rs: seq<Response>, i: nat)
    requires i < |rs|
    ensures Received(rs[i..]) == if Decodable(rs[i]) then 1 + Received(rs[i + 1..]) else 0
  {
    assert rs[i..][1..] == rs[i + 1..];
  }

  /** A turn of the loop, as the next step of a run. */
  method ReceiveOne(state: AdsState, cell: WatchCell, log: seq<Request>, rs: seq<Response>, i: nat, ghost start: Stream)
    returns (log': seq<Request>, r: Result<(), XdsError>)
    requires i < |rs| && Stream(state.View(), log, cell.View()) == ReceiveAll(start, rs[..i])
    modifies state, cell
    ensures r.Ok? <==> Decodable(rs[i])
    ensures r.Err? ==> log' == log && cell.View() == old(cell.View())
    ensures r.Ok? ==> Stream(state.View(), log', cell.View()) == ReceiveAll(start, rs[..i + 1])
  {
    assert rs[..i + 1][..i] == rs[..i];
    log', r := HandleResponse(state, cell, log, rs[i]);
  }

  method ReceiveLoop(state: AdsState, cell: WatchCell, log: seq<Request>, responses: seq<Response>)
    returns (log': seq<Request>, r: Result<(), XdsError>)
    modifies state, cell
    ensures var final := ReceiveAll(Stream(old(state.View()), log, old(cell.View())), responses[..Received(responses)]);
      log' == final.log && cell.View() == final.cell
    ensures r.Ok? <==> Received(responses) == |responses|
  {
    log' := log;
    ghost var start := Stream(state.View(), log, cell.View());
    assert responses[0..] == responses;
    for i := 0 to |responses|
      invariant Stream(state.View(), log', cell.View()) == ReceiveAll(start, responses[..i])
      invariant Received(responses) == i + Received(responses[i..])
    {
      ReceivedNext(responses, i);
      var outcome;
      log', outcome := ReceiveOne(state, cell, log', responses, i, start);
      if outcome.Err? {
        return log', Err(outcome.error);
      }
    }
    assert responses[..|responses|] == responses;
    r := Ok(());
  }

  /** `run_once` on one connection: a fresh state, the listener subscription, then the receive loop until an error. */
  method RunOnce(listenerNames: seq<string>, cell: WatchCell, responses: seq<Response>)
    returns (log: seq<Request>, r: Result<(), XdsError>)
    modifies cell
    ensures var final := ReceiveAll(Connect(listenerNames, old(cell.View())), responses[..Received(responses)]);
      log == final.log && cell.View() == final.cell
    ensures r.Ok? <==> Received(responses) == |responses|
  {
    var state := new AdsState();
    var names := SortedUnique(listenerNames);
    var _ := state.SetSubscription(ListenerType, names);
    assert SortedUnique(names) == names by { SortedCanonical(names); }
    log, r := ReceiveLoop(state, cell, [Request(ListenerType, names, "", "")], responses);
  }
}
