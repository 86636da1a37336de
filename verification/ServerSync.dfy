/** Convergence stated for a server's messages, its responses and the watch channel. */
module ServerSync {
  import opened Wrappers
  import opened Text
  import opened Config
  import opened Messages
  import opened Endpoints
  import opened Translation
  import opened Discovery
  import opened DiscoveryRuns
  import opened Convergence
  import opened Picker
  import opened Forwarding

  // ---------- servers ----------

  datatype Server = Server(
    listeners: map<string, XListener>, routes: map<string, RouteConfiguration>,
    clusters: map<string, XCluster>, assignments: map<string, LoadAssignment>)

  /** Messages sit under their own names; clusters and assignments are named; listeners decode. */
  ghost predicate WellNamed(server: Server) {
    && (forall k | k in server.listeners :: server.listeners[k].name == k && SnapshotOf(server.listeners[k]).Some?)
    && (forall k | k in server.routes :: server.routes[k].name == k)
    && (forall k | k in server.clusters :: server.clusters[k].name == k && k != "")
    && (forall k | k in server.assignments :: server.assignments[k].clusterName == k && k != "")
  }

  function ListenerTable(m: map<string, XListener>): map<string, ListenerSnapshot> {
    map k | k in m && SnapshotOf(m[k]).Some? :: SnapshotOf(m[k]).value
  }

  function RouteTable(m: map<string, RouteConfiguration>): map<string, seq<VirtualHost>> {
    map k | k in m :: ConvertVirtualHosts(m[k].virtualHosts)
  }

  function ClusterTable(m: map<string, XCluster>): map<string, ClusterSnapshot> {
    map k | k in m :: ClusterOf(m[k])
  }

  function EndpointTable(m: map<string, LoadAssignment>): map<string, seq<Endpoint>> {
    map k | k in m :: FromAssignment(m[k])
  }

  function TablesOf(server: Server): Tables {
    Tables(ListenerTable(server.listeners), RouteTable(server.routes),
           ClusterTable(server.clusters), EndpointTable(server.assignments))
  }

  lemma {:induction false} TablesAreGood(server: Server)
    requires WellNamed(server)
    ensures GoodTables(TablesOf(server))
  {
  }

  // ---------- answers: exactly the asked messages, in any order and with any repetition ----------

  ghost predicate HeldAs<T(!new)>(m: Option<T>, asked: map<string, T>, k: string) {
    k in asked && m == Some(asked[k])
  }

  ghost predicate OnlyAsked<T(!new)>(messages: seq<Option<T>>, asked: map<string, T>) {
    forall i | 0 <= i < |messages| :: exists k :: HeldAs(messages[i], asked, k)
  }

  ghost predicate AllAsked<T(!new)>(messages: seq<Option<T>>, asked: map<string, T>) {
    forall k | k in asked :: Some(asked[k]) in messages
  }

  ghost predicate Carries<T(!new)>(messages: seq<Option<T>>, asked: map<string, T>) {
    OnlyAsked(messages, asked) && AllAsked(messages, asked)
  }

  ghost predicate Answers(server: Server, t: TypeUrl, asked: seq<string>, resp: Response) {
    var rs := resp.resources;
    && resp.typeUrl == t
    && match t
       case ListenerType => Carries(seq(|rs|, i requires 0 <= i < |rs| => rs[i].asListener),
         Asked(server.listeners, asked))
       case RouteType => Carries(seq(|rs|, i requires 0 <= i < |rs| => rs[i].asRoute), Asked(server.routes, asked))
       case ClusterType => Carries(seq(|rs|, i requires 0 <= i < |rs| => rs[i].asCluster),
         Asked(server.clusters, asked))
       case EndpointType =>
         Carries(seq(|rs|, i requires 0 <= i < |rs| => rs[i].asAssignment), Asked(server.assignments, asked))
       case OtherType(_) => true
  }

  /** Outcomes that are exactly a table's entries overlay to that table. */
  lemma {:induction false} OverlayIsTable<T(!new)>(os: seq<Outcome<T>>, tab: map<string, T>)
    requires forall i | 0 <= i < |os| :: os[i].Named? && os[i].name in tab && os[i].value == tab[os[i].name]
    requires forall k | k in tab :: exists i | 0 <= i < |os| :: Names(os[i], k)
    ensures Decodes(os) && Overlay(os) == tab
  {
    forall k ensures (k in Overlay(os) <==> k in tab) && (k in tab ==> Overlay(os)[k] == tab[k]) {
      var i := OverlayLastWins(os, k);
    }
  }

  /** Each message's outcome is the table's entry for the name it is held under. */
  ghost predicate Accepts<M(!new), T(!new)>(
    messages: seq<Option<M>>, source: map<string, M>, os: seq<Outcome<T>>, tab: map<string, T>)
  {
    && |os| == |messages| && source.Keys == tab.Keys
    && forall i, k | 0 <= i < |os| && HeldAs(messages[i], source, k) :: os[i] == Named(k, tab[k])
  }

  lemma {:induction false} OutcomesAreEntries<M(!new), T(!new)>(
    messages: seq<Option<M>>, source: map<string, M>, os: seq<Outcome<T>>, tab: map<string, T>)
    requires OnlyAsked(messages, source) && Accepts(messages, source, os, tab)
    ensures forall i | 0 <= i < |os| :: os[i].Named? && os[i].name in tab && os[i].value == tab[os[i].name]
  {
    forall i | 0 <= i < |os| ensures os[i].Named? && os[i].name in tab && os[i].value == tab[os[i].name] {
      var k :| HeldAs(messages[i], source, k);
      assert os[i] == Named(k, tab[k]);
    }
  }

  lemma {:induction false} EntryHasOutcome<M(!new), T(!new)>(
    messages: seq<Option<M>>, source: map<string, M>, os: seq<Outcome<T>>, tab: map<string, T>, k: string)
    requires AllAsked(messages, source) && Accepts(messages, source, os, tab) && k in tab
    ensures exists i | 0 <= i < |os| :: Names(os[i], k)
  {
    assert Some(source[k]) in messages;
    var i :| 0 <= i < |messages| && messages[i] == Some(source[k]);
    assert HeldAs(messages[i], source, k) && Names(os[i], k);
  }

  /** Carrying exactly the asked messages means overlaying to the asked part of the table. */
  lemma {:induction false} AnswerOverlays<M(!new), T(!new)>(
    messages: seq<Option<M>>, source: map<string, M>, os: seq<Outcome<T>>, tab: map<string, T>)
    requires Carries(messages, source) && Accepts(messages, source, os, tab)
    ensures Decodes(os) && Overlay(os) == tab
  {
    OutcomesAreEntries(messages, source, os, tab);
    forall k | k in tab ensures exists i | 0 <= i < |os| :: Names(os[i], k) {
      EntryHasOutcome(messages, source, os, tab, k);
    }
    OverlayIsTable(os, tab);
  }

  lemma {:induction false} ListenerAccepted(server: Server, asked: seq<string>, r: Resource, k: string)
    requires WellNamed(server) && HeldAs(r.asListener, Asked(server.listeners, asked), k)
    ensures var tab := Asked(ListenerTable(server.listeners), asked); k in tab && AcceptListener(r) == Named(k, tab[k])
  {
  }

  lemma {:induction false} ListenersAccepted(server: Server, asked: seq<string>, rs: seq<Resource>)
    requires WellNamed(server)
    ensures Accepts(seq(|rs|, i requires 0 <= i < |rs| => rs[i].asListener), Asked(server.listeners, asked),
                    ListenerOutcomes(rs), Asked(ListenerTable(server.listeners), asked))
  {
    var messages := seq(|rs|, i requires 0 <= i < |rs| => rs[i].asListener);
    var source, os, tab := Asked(server.listeners, asked), ListenerOutcomes(rs),
      Asked(ListenerTable(server.listeners), asked);
    assert source.Keys == tab.Keys;
    forall i, k | 0 <= i < |os| && HeldAs(messages[i], source, k) ensures os[i] == Named(k, tab[k]) {
      ListenerAccepted(server, asked, rs[i], k);
    }
  }

  lemma {:induction false} ListenerAnswer(server: Server, asked: seq<string>, resp: Response)
    requires WellNamed(server) && Answers(server, ListenerType, asked, resp)
    ensures Decodable(resp) && UpdateOf(resp) == ListenerUpdate(Asked(TablesOf(server).listeners, asked))
  {
    var rs, tab := resp.resources, TablesOf(server).listeners;
    ListenersAccepted(server, asked, rs);
    AnswerOverlays(
      seq(|rs|, i requires 0 <= i < |rs| => rs[i].asListener), Asked(server.listeners, asked), ListenerOutcomes(rs),
      Asked(tab, asked));
  }

  lemma {:induction false} RouteAnswer(server: Server, asked: seq<string>, resp: Response)
    requires WellNamed(server) && Answers(server, RouteType, asked, resp)
    ensures Decodable(resp) && UpdateOf(resp) == RouteUpdate(Asked(TablesOf(server).routes, asked))
  {
    var rs, tab := resp.resources, TablesOf(server).routes;
    AnswerOverlays(
      seq(|rs|, i requires 0 <= i < |rs| => rs[i].asRoute), Asked(server.routes, asked), RouteOutcomes(rs),
      Asked(tab, asked));
  }

  lemma {:induction false} ClusterAnswer(server: Server, asked: seq<string>, resp: Response)
    requires WellNamed(server) && Answers(server, ClusterType, asked, resp)
    ensures Decodable(resp)
    ensures UpdateOf(resp) ==
      ClusterUpdate(Asked(TablesOf(server).clusters, asked), Overlay(InlineOutcomes(resp.resources)))
  {
    var rs, tab := resp.resources, TablesOf(server).clusters;
    AnswerOverlays(
      seq(|rs|, i requires 0 <= i < |rs| => rs[i].asCluster), Asked(server.clusters, asked), ClusterOutcomes(rs),
      Asked(tab, asked));
  }

  lemma {:induction false} EndpointAnswer(server: Server, asked: seq<string>, resp: Response)
    requires WellNamed(server) && Answers(server, EndpointType, asked, resp)
    ensures Decodable(resp) && UpdateOf(resp) == EndpointUpdate(Asked(TablesOf(server).endpoints, asked))
  {
    var rs, tab := resp.resources, TablesOf(server).endpoints;
    AnswerOverlays(
      seq(|rs|, i requires 0 <= i < |rs| => rs[i].asAssignment), Asked(server.assignments, asked),
      AssignmentOutcomes(rs), Asked(tab, asked));
  }

  /** Whatever the order and repetition, an answer acts as the table's answer. */
  lemma {:induction false} AnswerActs(
    server: Server, t: TypeUrl, asked: seq<string>, resp: Response)
    returns (inline: map<string, seq<Endpoint>>)
    requires WellNamed(server) && Answers(server, t, asked, resp) && !t.OtherType?
    ensures Decodable(resp) && UpdateOf(resp) == AnswerTo(TablesOf(server), t, asked, inline)
  {
    inline := map[];
    match t
    case ListenerType => ListenerAnswer(server, asked, resp);
    case RouteType => RouteAnswer(server, asked, resp);
    case ClusterType =>
      ClusterAnswer(server, asked, resp);
      inline := Overlay(InlineOutcomes(resp.resources));
    case EndpointType => EndpointAnswer(server, asked, resp);
  }

  // ---------- a round of answers ----------

  /** A stream together with the version of the last response it handled. */
  datatype Handled = Handled(stream: Stream, version: string)

  function Handle(h: Handled, t: TypeUrl, resp: Response): Handled {
    if Skips(h.stream.ads, t) then h else Handled(Deliver(h.stream, DigestOf(resp)), resp.version)
  }

  function Round(h: Handled, l: Response, r: Response, c: Response, e: Response): Handled {
    Handle(Handle(Handle(Handle(h, ListenerType, l), RouteType, r), ClusterType, c), EndpointType, e)
  }

  ghost predicate AnsweredAt(server: Server, h: Handled, t: TypeUrl, resp: Response) {
    !Skips(h.stream.ads, t) ==> Answers(server, t, Subscription(h.stream.ads, t), resp)
  }

  /** Each response answers the subscription current when it arrives; empty subscriptions need no answer. */
  ghost predicate AnsweredInTurn(server: Server, h: Handled, l: Response, r: Response, c: Response, e: Response) {
    var h1 := Handle(h, ListenerType, l);
    var h2 := Handle(h1, RouteType, r);
    var h3 := Handle(h2, ClusterType, c);
    && AnsweredAt(server, h, ListenerType, l) && AnsweredAt(server, h1, RouteType, r)
    && AnsweredAt(server, h2, ClusterType, c) && AnsweredAt(server, h3, EndpointType, e)
  }

  /** A valid current configuration is the one in the watch cell. */
  ghost predicate Shown(h: Handled) {
    Conflicts(ConfigOf(h.stream.ads, h.version)) == [] ==> h.stream.cell.value == ConfigOf(h.stream.ads, h.version)
  }

  lemma {:induction false} DeliveredIsShown(st: Stream, d: Digest)
    ensures Shown(Handled(Deliver(st, d), d.version))
  {
  }

  lemma {:induction false} HandleTurns(
    server: Server, h: Handled, t: TypeUrl, resp: Response)
    returns (inline: map<string, seq<Endpoint>>)
    requires WellNamed(server) && AnsweredAt(server, h, t, resp) && !t.OtherType?
    ensures Handle(h, t, resp).stream.ads == Turn(h.stream.ads, TablesOf(server), t, inline)
    ensures t == ListenerType || Shown(h) ==> Shown(Handle(h, t, resp))
  {
    inline := map[];
    if !Skips(h.stream.ads, t) {
      inline := AnswerActs(server, t, Subscription(h.stream.ads, t), resp);
      DeliveredIsShown(h.stream, DigestOf(resp));
    }
  }

  /** Only a cluster answer's inline endpoints matter, so one table serves the whole round. */
  lemma {:induction false} TurnIgnoresInline(
    s: AdsView, tab: Tables, t: TypeUrl, a: map<string, seq<Endpoint>>, b: map<string, seq<Endpoint>>)
    requires t != ClusterType
    ensures Turn(s, tab, t, a) == Turn(s, tab, t, b)
  {
  }

  lemma {:induction false} RoundSyncs(server: Server, h: Handled, l: Response, r: Response, c: Response, e: Response)
    returns (inline: map<string, seq<Endpoint>>)
    requires WellNamed(server) && AnsweredInTurn(server, h, l, r, c, e)
    ensures Round(h, l, r, c, e).stream.ads == Synced(h.stream.ads, TablesOf(server), inline)
    ensures Shown(Round(h, l, r, c, e))
  {
    var tab := TablesOf(server);
    var h1 := Handle(h, ListenerType, l);
    var h2 := Handle(h1, RouteType, r);
    var h3 := Handle(h2, ClusterType, c);
    var i1 := HandleTurns(server, h, ListenerType, l);
    var i2 := HandleTurns(server, h1, RouteType, r);
    inline := HandleTurns(server, h2, ClusterType, c);
    var i4 := HandleTurns(server, h3, EndpointType, e);
    TurnIgnoresInline(h.stream.ads, tab, ListenerType, i1, inline);
    TurnIgnoresInline(h1.stream.ads, tab, RouteType, i2, inline);
    TurnIgnoresInline(h3.stream.ads, tab, EndpointType, i4, inline);
  }

  /**
   From a fresh connection, one round of answers leaves the server's join as the configuration, and in the watch cell if
   valid; it is valid exactly if every cluster led to is reached by route discovery and the server has it.
   */
  lemma {:induction false} FreshConnectionConverges(
    listenerNames: seq<string>, cell: Cell, server: Server, l: Response, r: Response, c: Response, e: Response)
    requires WellNamed(server) && AnsweredInTurn(server, Handled(Connect(listenerNames, cell), ""), l, r, c, e)
    ensures var h, tab := Round(Handled(Connect(listenerNames, cell), ""), l, r, c, e), TablesOf(server);
      var asked := SortedUnique(listenerNames);
      var join := Join(tab, asked, h.version);
      && ConfigOf(h.stream.ads, h.version) == join
      && (WellFormed(join) ==> h.stream.cell.value == join)
      && (WellFormed(join) <==> Led(tab, asked) <= Reach(tab, asked) * tab.clusters.Keys)
  {
    var start, asked := Handled(Connect(listenerNames, cell), ""), SortedUnique(listenerNames);
    var inline := RoundSyncs(server, start, l, r, c, e);
    FreshRoundShows(start.stream.ads, Round(start, l, r, c, e), TablesOf(server), inline, asked);
    TablesAreGood(server);
    JoinValidates(TablesOf(server), asked, Round(start, l, r, c, e).version);
  }

  lemma {:induction false} FreshRoundShows(
    s: AdsView, h: Handled, tab: Tables, inline: map<string, seq<Endpoint>>, asked: seq<string>)
    requires IsFresh(s, asked) && h.stream.ads == Synced(s, tab, inline) && Shown(h)
    ensures var join := Join(tab, asked, h.version);
      ConfigOf(h.stream.ads, h.version) == join && (WellFormed(join) ==> h.stream.cell.value == join)
  {
    FreshStreamReachesJoin(s, asked, tab, inline, h.version);
    ConflictsExact(Join(tab, asked, h.version));
  }

  // ---------- after any history ----------

  /**
   What one round of answers leaves, after any history, for one request and counter value: the join's listeners, the
   join itself shown if valid, and the join's decisions and validity unless inline routes lead beyond route discovery.
   */
  ghost predicate ConvergedTo(h: Handled, tab: Tables, asked: seq<string>, input: MatchInput, c: u64) {
    var cfg, join := ConfigOf(h.stream.ads, h.version), Join(tab, asked, h.version);
    && cfg.listeners == join.listeners
    && (Led(tab, asked) <= Reach(tab, asked) ==>
          Decide(cfg, input, c) == Decide(join, input, c) && (WellFormed(cfg) <==> WellFormed(join)))
    && (WellFormed(join) ==> Led(tab, asked) <= Reach(tab, asked) && h.stream.cell.value == cfg)
  }

  lemma {:induction false} SameDecision(a: RuntimeConfig, b: RuntimeConfig, input: MatchInput, c: u64)
    requires a.listeners == b.listeners
    requires var route := RouteFor(a, HTTP_LISTENER_PORT, input);
      route.Some? ==> forall d | d in route.value.weightedClusters ::
        FindCluster(a.clusters, d.name) == FindCluster(b.clusters, d.name)
    ensures Decide(a, input, c) == Decide(b, input, c)
  {
    var route := RouteFor(a, HTTP_LISTENER_PORT, input);
    assert route == RouteFor(b, HTTP_LISTENER_PORT, input);
    if route.Some? {
      var ws := route.value.weightedClusters;
      var pick := PickCluster(ws, c).0;
      if pick.Some? { assert ws[pick.value] in ws; }
    }
  }

  /** Every destination a request can reach through the join's listeners is among the clusters led to. */
  lemma {:induction false} DestinationIsLed(
    tab: Tables, asked: seq<string>, version: string, input: MatchInput, d: WeightedCluster)
    requires var route := RouteFor(Join(tab, asked, version), HTTP_LISTENER_PORT, input);
      route.Some? && d in route.value.weightedClusters
    ensures d.name in Led(tab, asked)
  {
    var ls := Asked(tab.listeners, asked);
    var listeners := ListenersOf(ls, tab.routes);
    var _ := FoundListener(listeners, HTTP_LISTENER_PORT);
    var l := FindListener(listeners, HTTP_LISTENER_PORT).value;
    var i, j := FindInHostsIsFirst(l.virtualHosts, input);
    var h := l.virtualHosts[i];
    assert h in l.virtualHosts && h.routes[j] in h.routes;
    assert d.name in Destinations(l.virtualHosts);
    var k := ListenerOrigin(AdsView(map[], ls, tab.routes, map[], map[]), l);
  }

  lemma {:induction false} SyncedDecidesLikeJoin(
    s: AdsView, tab: Tables, inline: map<string, seq<Endpoint>>, version: string, input: MatchInput, c: u64)
    requires Closed(s) && InScope(s) && Keyed(s) && GoodTables(tab)
    requires var asked := Subscription(s, ListenerType); Led(tab, asked) <= Reach(tab, asked)
    ensures var cfg, join := ConfigOf(Synced(s, tab, inline), version),
      Join(tab, Subscription(s, ListenerType), version);
      cfg.listeners == join.listeners && Decide(cfg, input, c) == Decide(join, input, c)
  {
    var asked := Subscription(s, ListenerType);
    var cfg, join := ConfigOf(Synced(s, tab, inline), version), Join(tab, asked, version);
    SyncedLooksLikeJoin(s, tab, inline, version, "");
    var route := RouteFor(join, HTTP_LISTENER_PORT, input);
    assert RouteFor(cfg, HTTP_LISTENER_PORT, input) == route;
    if route.Some? {
      forall d | d in route.value.weightedClusters
        ensures FindCluster(cfg.clusters, d.name) == FindCluster(join.clusters, d.name)
      {
        DestinationIsLed(tab, asked, version, input, d);
        SyncedLooksLikeJoin(s, tab, inline, version, d.name);
      }
    }
    SameDecision(cfg, join, input, c);
  }

  /**
   Once no unasked listener has ever come, one round of answers after any history makes the proxy decide every request
   as the join would.
   */
  lemma {:induction false} AnyHistoryConverges(
    listenerNames: seq<string>, cell: Cell, history: seq<Response>, server: Server,
    l: Response, r: Response, c: Response, e: Response, input: MatchInput, counter: u64)
    requires WellNamed(server) && AllBringAsked(history, SortedUnique(listenerNames))
    requires AnsweredInTurn(server, Handled(ReceiveAll(Connect(listenerNames, cell), history), ""), l, r, c, e)
    ensures var st := ReceiveAll(Connect(listenerNames, cell), history);
      ConvergedTo(Round(Handled(st, ""), l, r, c, e), TablesOf(server), SortedUnique(listenerNames), input, counter)
  {
    var st := ReceiveAll(Connect(listenerNames, cell), history);
    var h := Round(Handled(st, ""), l, r, c, e);
    EveryRunKeepsInv(listenerNames, cell, history);
    InScopeIffOnlyAsked(listenerNames, cell, history);
    var inline := RoundSyncs(server, Handled(st, ""), l, r, c, e);
    TablesAreGood(server);
    RoundConverges(st.ads, h, TablesOf(server), inline, input, counter);
  }

  /**
   A round of answers gives the join's listeners if and only if no unasked listener has ever come. It gives the join
   itself if and only if, moreover, the client holds no cluster outside its subscription when the cluster answer is due,
   and that subscription names no cluster of the server's beyond the reached ones.
   */
  lemma {:induction false} ConvergesIffNothingStray(
    listenerNames: seq<string>, cell: Cell, history: seq<Response>, server: Server,
    l: Response, r: Response, c: Response, e: Response)
    requires WellNamed(server)
    requires AnsweredInTurn(server, Handled(ReceiveAll(Connect(listenerNames, cell), history), ""), l, r, c, e)
    ensures var h0, asked := Handled(ReceiveAll(Connect(listenerNames, cell), history), ""),
      SortedUnique(listenerNames);
      var h2, h := Handle(Handle(h0, ListenerType, l), RouteType, r), Round(h0, l, r, c, e);
      var cfg, join := ConfigOf(h.stream.ads, h.version), Join(TablesOf(server), asked, h.version);
      && (cfg.listeners == join.listeners <==> AllBringAsked(history, asked))
      && (cfg == join <==> AllBringAsked(history, asked) && NoStrayCluster(h2.stream.ads, TablesOf(server), asked))
  {
    var st := ReceiveAll(Connect(listenerNames, cell), history);
    var h := Round(Handled(st, ""), l, r, c, e);
    EveryRunKeepsInv(listenerNames, cell, history);
    InScopeIffOnlyAsked(listenerNames, cell, history);
    var inline := RoundSyncs(server, Handled(st, ""), l, r, c, e);
    FirstTwoTurns(server, Handled(st, ""), l, r, inline);
    TablesAreGood(server);
    ListenersMatchIffInScope(st.ads, TablesOf(server), inline, h.version);
    ConfigIsJoinIff(st.ads, TablesOf(server), inline, h.version);
  }

  lemma {:induction false} FirstTwoTurns(
    server: Server, h: Handled, l: Response, r: Response, inline: map<string, seq<Endpoint>>)
    requires WellNamed(server)
    requires AnsweredAt(server, h, ListenerType, l) && AnsweredAt(server, Handle(h, ListenerType, l), RouteType, r)
    ensures Handle(Handle(h, ListenerType, l), RouteType, r).stream.ads ==
      BeforeClusters(h.stream.ads, TablesOf(server), inline)
  {
    var tab, h1 := TablesOf(server), Handle(h, ListenerType, l);
    var i1 := HandleTurns(server, h, ListenerType, l);
    var i2 := HandleTurns(server, h1, RouteType, r);
    TurnIgnoresInline(h.stream.ads, tab, ListenerType, i1, inline);
    TurnIgnoresInline(h1.stream.ads, tab, RouteType, i2, inline);
  }

  /** A listener nobody asked for. */
  function Unasked(): Response {
    Response(ListenerType, "1", "", [Resource(Some(XListener("b", None, None, [])), None, None, None)])
  }

  /** Such a response is accepted, so a connection that asked for another listener leaves the condition. */
  lemma {:induction false} UnaskedListenerIsAccepted()
    ensures Decodable(Unasked()) && !AllBringAsked([Unasked()], SortedUnique(["a"]))
  {
    var os := ListenerOutcomes(Unasked().resources);
    assert Managers(XListener("b", None, None, [])).Some?;
    assert Names(os[0], "b");
    var _ := OverlayLastWins(os, "b");
    assert "b" in UpdateOf([Unasked()][0]).listeners;
    var asked := SortedUnique(["a"]);
    assert ["a"][0] in Elements(["a"]) && "b" !in Elements(asked);
    assert !BringsAsked(UpdateOf([Unasked()][0]), asked);
  }

  /** A cluster nobody asked for. */
  function UnaskedCluster(): Response {
    Response(ClusterType, "1", "", [Resource(None, None, Some(XCluster("x", None, None, None)), None)])
  }

  lemma {:induction false} UnaskedClusterIsAccepted()
    ensures Decodable(UnaskedCluster()) && "x" in UpdateOf(UnaskedCluster()).clusters
  {
    var os := ClusterOutcomes(UnaskedCluster().resources);
    assert Names(os[0], "x");
    var _ := OverlayLastWins(os, "x");
  }

  lemma {:induction false} StrayClusterStays(s: AdsView, inline: map<string, seq<Endpoint>>)
    requires "x" in s.clusters && Subscription(s, ListenerType) == [] && Subscription(s, ClusterType) == []
    requires Subscription(s, RouteType) == []
    ensures var tab := Tables(map[], map[], map[], map[]); !NoStrayCluster(BeforeClusters(s, tab, inline), tab, [])
  {
    var tab := Tables(map[], map[], map[], map[]);
    ListenerTurn(s, tab, inline);
    FirstSubscription(s, AnswerTo(tab, ListenerType, [], inline));
    NothingNeedsNothing();
    assert "x" in BeforeClusters(s, tab, inline).clusters;
  }

  lemma {:induction false} FirstClusterIsHeld(cell: Cell, u: Update)
    requires u.ClusterUpdate? && "x" in u.clusters
    ensures var s := Step(Connect([], cell).ads, u);
      && "x" in s.clusters && Subscription(s, ListenerType) == [] && Subscription(s, ClusterType) == []
      && Subscription(s, RouteType) == []
  {
    FirstSubscription(Connect([], cell).ads, u);
  }

  /** Such a cluster stays: it brings no unasked listener, and an empty server's answers do not remove it. */
  lemma {:induction false} UnaskedClusterStays(cell: Cell, inline: map<string, seq<Endpoint>>)
    ensures var s, tab := ReceiveAll(Connect([], cell), [UnaskedCluster()]).ads, Tables(map[], map[], map[], map[]);
      AllBringAsked([UnaskedCluster()], []) && !NoStrayCluster(BeforeClusters(s, tab, inline), tab, [])
  {
    UnaskedClusterIsAccepted();
    ReceiveNext(Connect([], cell), [], UnaskedCluster());
    assert [] + [UnaskedCluster()] == [UnaskedCluster()];
    FirstClusterIsHeld(cell, UpdateOf(UnaskedCluster()));
    StrayClusterStays(ReceiveAll(Connect([], cell), [UnaskedCluster()]).ads, inline);
  }

  lemma {:induction false} RoundConverges(
    s: AdsView, h: Handled, tab: Tables, inline: map<string, seq<Endpoint>>, input: MatchInput, c: u64)
    requires Closed(s) && InScope(s) && Keyed(s) && GoodTables(tab) && Shown(h)
    requires h.stream.ads == Synced(s, tab, inline)
    ensures ConvergedTo(h, tab, Subscription(s, ListenerType), input, c)
  {
    var asked := Subscription(s, ListenerType);
    SyncedLooksLikeJoin(s, tab, inline, h.version, "");
    JoinValidates(tab, asked, h.version);
    if Led(tab, asked) <= Reach(tab, asked) {
      SyncedDecidesLikeJoin(s, tab, inline, h.version, input, c);
      SyncedValidates(s, tab, inline, h.version);
    }
    ConflictsExact(ConfigOf(h.stream.ads, h.version));
  }
}
