/** From the server's tables to the proxy's decisions, through every part of the gateway. */
module EndToEnd {
  import opened Config
  import opened Messages
  import opened Discovery
  import DiscoveryRuns
  import opened Convergence
  import opened ServerSync
  import opened Picker
  import opened Forwarding
  import opened Gateway
  import GatewayRuns
  import ApplyOrder

  // ---------- events that leave the stream alone ----------

  /** Turns of the apply task, readers and requests. */
  predicate Quiet(ev: Event) {
    ev.TaskTurn? || ev.ReadTurn? || ev.RequestArrives? || ev.RequestTurn?
  }

  predicate AllQuiet(evs: seq<Event>) {
    forall i | 0 <= i < |evs| :: Quiet(evs[i])
  }

  function Then(listenerNames: seq<string>, g: Gateway, evs: seq<Event>): Gateway {
    if evs == [] then g else Next(listenerNames, Then(listenerNames, g, evs[..|evs| - 1]), evs[|evs| - 1])
  }

  ghost predicate SameStream(g: Gateway, g': Gateway) {
    g'.main == g.main && g'.link == g.link && g'.cell == g.cell && g'.published == g.published
  }

  lemma {:induction false} QuietStep(listenerNames: seq<string>, g: Gateway, ev: Event)
    requires Quiet(ev)
    ensures SameStream(g, Next(listenerNames, g, ev))
  {
  }

  lemma {:induction false} QuietKeeps(listenerNames: seq<string>, g: Gateway, evs: seq<Event>)
    requires Inv(g) && AllQuiet(evs)
    ensures Inv(Then(listenerNames, g, evs)) && SameStream(g, Then(listenerNames, g, evs))
  {
    if evs != [] {
      var n := |evs| - 1;
      assert forall i | 0 <= i < n :: evs[..n][i] == evs[i];
      QuietKeeps(listenerNames, g, evs[..n]);
      var mid := Then(listenerNames, g, evs[..n]);
      GatewayRuns.NextKeepsInv(listenerNames, mid, evs[n]);
      QuietStep(listenerNames, mid, evs[n]);
    }
  }

  // ---------- four answers, with quiet events before, between and after them ----------

  datatype Schedule = Schedule(
    before: seq<Event>,
    listeners: Response, afterListeners: seq<Event>,
    routes: Response, afterRoutes: seq<Event>,
    clusters: Response, afterClusters: seq<Event>,
    endpoints: Response, after: seq<Event>)

  ghost predicate QuietSchedule(sch: Schedule) {
    && AllQuiet(sch.before) && AllQuiet(sch.afterListeners) && AllQuiet(sch.afterRoutes)
    && AllQuiet(sch.afterClusters) && AllQuiet(sch.after)
  }

  /** One answer received by the gateway; types without a subscription get none. */
  function Answered(g: Gateway, t: TypeUrl, resp: Response): Gateway {
    if g.link.Down? || Skips(g.link.ads, t) then g else ReceiveStep(g, resp)
  }

  function AnsweredThen(
    listenerNames: seq<string>, g: Gateway, t: TypeUrl, resp: Response, quiet: seq<Event>): Gateway
  {
    Then(listenerNames, Answered(g, t, resp), quiet)
  }

  function Scheduled(listenerNames: seq<string>, g: Gateway, sch: Schedule): Gateway {
    var g0 := Then(listenerNames, g, sch.before);
    var g1 := AnsweredThen(listenerNames, g0, ListenerType, sch.listeners, sch.afterListeners);
    var g2 := AnsweredThen(listenerNames, g1, RouteType, sch.routes, sch.afterRoutes);
    var g3 := AnsweredThen(listenerNames, g2, ClusterType, sch.clusters, sch.afterClusters);
    AnsweredThen(listenerNames, g3, EndpointType, sch.endpoints, sch.after)
  }

  lemma {:induction false} RunThen(listenerNames: seq<string>, evs: seq<Event>, more: seq<Event>)
    ensures Then(listenerNames, Run(listenerNames, evs), more) == Run(listenerNames, evs + more)
  {
    if more == [] {
      assert evs + more == evs;
    } else {
      var n := |more| - 1;
      RunThen(listenerNames, evs, more[..n]);
      assert (evs + more)[..|evs| + n] == evs + more[..n];
    }
  }

  lemma {:induction false} RunAnswered(
    listenerNames: seq<string>, evs: seq<Event>, t: TypeUrl, resp: Response, quiet: seq<Event>)
    returns (all: seq<Event>)
    ensures AnsweredThen(listenerNames, Run(listenerNames, evs), t, resp, quiet) == Run(listenerNames, all)
  {
    var g := Run(listenerNames, evs);
    all := evs;
    if g.link.Up? && !Skips(g.link.ads, t) {
      RunThen(listenerNames, evs, [Received(resp)]);
      assert [Received(resp)][..0] == [];
      assert Then(listenerNames, g, []) == g;
      all := evs + [Received(resp)];
    }
    RunThen(listenerNames, all, quiet);
    all := all + quiet;
  }

  /** A schedule from a reachable state is a run. */
  lemma {:induction false} ScheduleIsRun(
    listenerNames: seq<string>, evs: seq<Event>, sch: Schedule)
    returns (all: seq<Event>)
    ensures Scheduled(listenerNames, Run(listenerNames, evs), sch) == Run(listenerNames, all)
  {
    RunThen(listenerNames, evs, sch.before);
    all := RunAnswered(listenerNames, evs + sch.before, ListenerType, sch.listeners, sch.afterListeners);
    all := RunAnswered(listenerNames, all, RouteType, sch.routes, sch.afterRoutes);
    all := RunAnswered(listenerNames, all, ClusterType, sch.clusters, sch.afterClusters);
    all := RunAnswered(listenerNames, all, EndpointType, sch.endpoints, sch.after);
  }

  // ---------- the gateway follows the stream ----------

  ghost predicate Mirrors(g: Gateway, h: Handled) {
    g.main == Started && g.link.Up? && g.link.ads == h.stream.ads && g.cell == h.stream.cell
  }

  lemma {:induction false} ReceiveMirrors(g: Gateway, h: Handled, resp: Response)
    requires Mirrors(g, h) && Decodable(resp)
    ensures Mirrors(ReceiveStep(g, resp), Handled(Deliver(h.stream, DigestOf(resp)), resp.version))
  {
    ReceiveStepDelivers(g, resp, h.stream.log);
  }

  lemma {:induction false} AnswerMirrors(server: Server, g: Gateway, h: Handled, t: TypeUrl, resp: Response)
    requires Inv(g) && Mirrors(g, h)
    requires WellNamed(server) && Answers(server, t, Subscription(h.stream.ads, t), resp) && !t.OtherType?
    ensures var g' := ReceiveStep(g, resp);
      Inv(g') && Mirrors(g', Handled(Deliver(h.stream, DigestOf(resp)), resp.version))
  {
    var inline := AnswerActs(server, t, Subscription(h.stream.ads, t), resp);
    ReceiveMirrors(g, h, resp);
    GatewayRuns.ReceiveKeepsInv(g, resp);
  }

  lemma {:induction false} AnsweredMirrors(server: Server, g: Gateway, h: Handled, t: TypeUrl, resp: Response)
    requires Inv(g) && Mirrors(g, h)
    requires WellNamed(server) && AnsweredAt(server, h, t, resp) && !t.OtherType?
    ensures var g' := Answered(g, t, resp); Inv(g') && Mirrors(g', Handle(h, t, resp))
  {
    if !Skips(h.stream.ads, t) {
      AnswerMirrors(server, g, h, t, resp);
    }
  }

  lemma {:induction false} QuietMirrors(listenerNames: seq<string>, g: Gateway, h: Handled, quiet: seq<Event>)
    requires Inv(g) && Mirrors(g, h) && AllQuiet(quiet)
    ensures var g' := Then(listenerNames, g, quiet); Inv(g') && Mirrors(g', h)
  {
    QuietKeeps(listenerNames, g, quiet);
  }

  lemma {:induction false} StageMirrors(
    listenerNames: seq<string>, server: Server, g: Gateway, h: Handled, t: TypeUrl, resp: Response, quiet: seq<Event>)
    requires Inv(g) && Mirrors(g, h) && AllQuiet(quiet)
    requires WellNamed(server) && AnsweredAt(server, h, t, resp) && !t.OtherType?
    ensures var g' := AnsweredThen(listenerNames, g, t, resp, quiet); Inv(g') && Mirrors(g', Handle(h, t, resp))
  {
    AnsweredMirrors(server, g, h, t, resp);
    QuietMirrors(listenerNames, Answered(g, t, resp), Handle(h, t, resp), quiet);
  }

  /** Whatever happens before, between and after the answers, the stream goes the way of the answers alone. */
  lemma {:induction false} ScheduleMirrors(
    listenerNames: seq<string>, server: Server, g: Gateway, h: Handled, sch: Schedule)
    requires Inv(g) && Mirrors(g, h) && QuietSchedule(sch)
    requires WellNamed(server) && AnsweredInTurn(server, h, sch.listeners, sch.routes, sch.clusters, sch.endpoints)
    ensures var g' := Scheduled(listenerNames, g, sch);
      Inv(g') && Mirrors(g', Round(h, sch.listeners, sch.routes, sch.clusters, sch.endpoints))
  {
    var g0 := Then(listenerNames, g, sch.before);
    QuietMirrors(listenerNames, g, h, sch.before);
    StageMirrors(listenerNames, server, g0, h, ListenerType, sch.listeners, sch.afterListeners);
    var g1 := AnsweredThen(listenerNames, g0, ListenerType, sch.listeners, sch.afterListeners);
    var h1 := Handle(h, ListenerType, sch.listeners);
    StageMirrors(listenerNames, server, g1, h1, RouteType, sch.routes, sch.afterRoutes);
    var g2 := AnsweredThen(listenerNames, g1, RouteType, sch.routes, sch.afterRoutes);
    var h2 := Handle(h1, RouteType, sch.routes);
    StageMirrors(listenerNames, server, g2, h2, ClusterType, sch.clusters, sch.afterClusters);
    var g3 := AnsweredThen(listenerNames, g2, ClusterType, sch.clusters, sch.afterClusters);
    var h3 := Handle(h2, ClusterType, sch.clusters);
    StageMirrors(listenerNames, server, g3, h3, EndpointType, sch.endpoints, sch.after);
  }

  // ---------- the apply task comes to rest ----------

  /** Turns left of the round under way. */
  function RoundLeft(task: TaskPc): nat {
    match task
    case Waiting => 0
    case Noticed => 4
    case Applying(Validating(_)) => 3
    case Applying(ClearingConflicts(_)) => 2
    case Applying(_) => 1
  }

  /** Turns left until the task waits with nothing new in the cell. */
  function TurnsLeft(g: Gateway): nat {
    RoundLeft(g.task) + if g.seen == g.cell.version then 0 else 5
  }

  function TaskTurns(evs: seq<Event>): nat {
    if evs == [] then 0 else TaskTurns(evs[..|evs| - 1]) + if evs[|evs| - 1].TaskTurn? then 1 else 0
  }

  lemma {:induction false} QuietStepTurns(listenerNames: seq<string>, g: Gateway, ev: Event)
    requires Quiet(ev)
    ensures var left, left' := TurnsLeft(g), TurnsLeft(Next(listenerNames, g, ev));
      if ev.TaskTurn? then left' < left || left' == left == 0 else left' == left
  {
  }

  lemma {:induction false} QuietTurns(listenerNames: seq<string>, g: Gateway, evs: seq<Event>)
    requires AllQuiet(evs)
    ensures var left := TurnsLeft(Then(listenerNames, g, evs)); left == 0 || left + TaskTurns(evs) <= TurnsLeft(g)
  {
    if evs != [] {
      var n := |evs| - 1;
      assert forall i | 0 <= i < n :: evs[..n][i] == evs[i];
      QuietTurns(listenerNames, g, evs[..n]);
      QuietStepTurns(listenerNames, Then(listenerNames, g, evs[..n]), evs[n]);
    }
  }

  ghost predicate AtRest(g: Gateway) {
    g.task.Waiting? && g.seen == g.cell.version && g.published != []
  }

  lemma {:induction false} RestingServesCell(g: Gateway)
    requires Inv(g) && AtRest(g)
    ensures g.proxy.config == g.cell.value && g.proxy.ready
  {
    GatewayRuns.RestingServesLatest(g);
  }

  lemma {:induction false} NineTurnsRest(listenerNames: seq<string>, g: Gateway, evs: seq<Event>)
    requires AllQuiet(evs) && TaskTurns(evs) >= 9
    ensures var g' := Then(listenerNames, g, evs); g'.task.Waiting? && g'.seen == g'.cell.version
  {
    QuietTurns(listenerNames, g, evs);
  }

  /**
   Nine turns of the apply task, however readers and requests interleave with them, bring it to rest on the last
   publication.
   */
  lemma {:induction false} NineTurnsServeLatest(listenerNames: seq<string>, g: Gateway, evs: seq<Event>)
    requires Inv(g) && g.published != [] && AllQuiet(evs) && TaskTurns(evs) >= 9
    ensures var g' := Then(listenerNames, g, evs);
      AtRest(g') && g'.proxy.ready && g'.proxy.config == g.published[|g.published| - 1].cfg
  {
    NineTurnsRest(listenerNames, g, evs);
    QuietKeeps(listenerNames, g, evs);
    RestingServesCell(Then(listenerNames, g, evs));
  }

  // ---------- the theorem ----------

  lemma {:induction false} StreamStateIsGood(listenerNames: seq<string>, history: seq<Response>)
    ensures var s := GatewayRuns.AdsAfter(listenerNames, history); DiscoveryRuns.Closed(s) && DiscoveryRuns.Keyed(s)
  {
    DiscoveryRuns.EveryRunKeepsInv(listenerNames, Cell(BOOTSTRAP, 0), history);
  }

  /** The stream after the four answers alone. */
  function RoundOf(g: Gateway, sch: Schedule): Handled
    requires g.link.Up?
  {
    Round(Handled(Stream(g.link.ads, [], g.cell), ""), sch.listeners, sch.routes, sch.clusters, sch.endpoints)
  }

  /** On an open stream that holds no unasked listener, the server answers the current subscriptions in turn. */
  ghost predicate AnswersOnSchedule(g: Gateway, server: Server, sch: Schedule) {
    && g.main == Started && g.link.Up? && InScope(g.link.ads) && WellNamed(server) && QuietSchedule(sch)
    && AnsweredInTurn(server, Handled(Stream(g.link.ads, [], g.cell), ""),
                      sch.listeners, sch.routes, sch.clusters, sch.endpoints)
  }

  /** Every cluster led to is reached by route discovery and the server has it: the join validates. */
  ghost predicate ClosedServer(tab: Tables, asked: seq<string>) {
    Led(tab, asked) <= Reach(tab, asked) * tab.clusters.Keys
  }

  /** The proxy is ready and decides the request as the join of the tables would. */
  ghost predicate DecidesAsJoin(
    g: Gateway, tab: Tables, asked: seq<string>, version: string, input: MatchInput, counter: u64)
  {
    g.proxy.ready && Decide(g.proxy.config, input, counter) == Decide(Join(tab, asked, version), input, counter)
  }

  lemma {:induction false} ConvergedCellDecides(
    g: Gateway, h: Handled, tab: Tables, asked: seq<string>, version: string, input: MatchInput, counter: u64)
    requires g.proxy.ready && g.proxy.config == h.stream.cell.value
    requires GoodTables(tab) && ClosedServer(tab, asked) && ConvergedTo(h, tab, asked, input, counter)
    ensures DecidesAsJoin(g, tab, asked, version, input, counter)
  {
    JoinValidates(tab, asked, h.version);
    SameDecision(Join(tab, asked, h.version), Join(tab, asked, version), input, counter);
  }

  lemma {:induction false} ScheduleConverges(
    listenerNames: seq<string>, g: Gateway, server: Server, sch: Schedule, input: MatchInput, counter: u64)
    returns (h: Handled)
    requires Inv(g) && AnswersOnSchedule(g, server, sch)
    requires DiscoveryRuns.Closed(g.link.ads) && DiscoveryRuns.Keyed(g.link.ads)
    ensures h == RoundOf(g, sch)
    ensures Inv(Scheduled(listenerNames, g, sch)) && Mirrors(Scheduled(listenerNames, g, sch), h)
    ensures ConvergedTo(h, TablesOf(server), Subscription(g.link.ads, ListenerType), input, counter)
  {
    var start := Handled(Stream(g.link.ads, [], g.cell), "");
    h := Round(start, sch.listeners, sch.routes, sch.clusters, sch.endpoints);
    ScheduleMirrors(listenerNames, server, g, start, sch);
    var inline := RoundSyncs(server, start, sch.listeners, sch.routes, sch.clusters, sch.endpoints);
    TablesAreGood(server);
    RoundConverges(g.link.ads, h, TablesOf(server), inline, input, counter);
  }

  lemma {:induction false} ReachableIsGood(listenerNames: seq<string>, evs: seq<Event>)
    ensures var g := Run(listenerNames, evs);
      Inv(g) && (g.link.Up? ==> DiscoveryRuns.Closed(g.link.ads) && DiscoveryRuns.Keyed(g.link.ads))
  {
    var g := Run(listenerNames, evs);
    GatewayRuns.EveryRunKeepsInv(listenerNames, evs);
    GatewayRuns.PublishedFromDecodedOnly(listenerNames, evs);
    if g.link.Up? { StreamStateIsGood(listenerNames, g.link.history); }
  }

  /**
   From any reachable state with an open stream that holds no unasked listener: the server answers the subscriptions in
   turn, with any turns of the apply task, readers and requests before, between and after the answers. Once the apply
   task rests, the proxy decides every request as the join of the server's tables would, provided that join validates.
   */
  lemma {:induction false} ServerTablesReachTheProxy(
    listenerNames: seq<string>, evs: seq<Event>, server: Server, sch: Schedule,
    input: MatchInput, counter: u64, version: string)
    requires AnswersOnSchedule(Run(listenerNames, evs), server, sch)
    requires AtRest(Scheduled(listenerNames, Run(listenerNames, evs), sch))
    requires ClosedServer(TablesOf(server), Subscription(Run(listenerNames, evs).link.ads, ListenerType))
    ensures DecidesAsJoin(Scheduled(listenerNames, Run(listenerNames, evs), sch), TablesOf(server),
                          Subscription(Run(listenerNames, evs).link.ads, ListenerType), version, input, counter)
  {
    var g := Run(listenerNames, evs);
    ReachableIsGood(listenerNames, evs);
    var h := ScheduleConverges(listenerNames, g, server, sch, input, counter);
    RestingServesCell(Scheduled(listenerNames, g, sch));
    TablesAreGood(server);
    ConvergedCellDecides(Scheduled(listenerNames, g, sch), h, TablesOf(server), Subscription(g.link.ads, ListenerType),
                         version, input, counter);
  }

  /** Answers under a version other than the bootstrap's have published something. */
  lemma {:induction false} AnswersPublish(
    g: Gateway, h: Handled, tab: Tables, asked: seq<string>, input: MatchInput, c: u64)
    requires Inv(g) && g.cell == h.stream.cell && GoodTables(tab)
    requires ClosedServer(tab, asked) && ConvergedTo(h, tab, asked, input, c) && h.version != "bootstrap"
    ensures g.published != []
  {
    JoinValidates(tab, asked, h.version);
    assert h.stream.cell.value.version == ConfigVersion(h.version);
  }

  lemma {:induction false} SchedulePublishes(
    listenerNames: seq<string>, evs: seq<Event>, server: Server, sch: Schedule, input: MatchInput, counter: u64)
    requires AnswersOnSchedule(Run(listenerNames, evs), server, sch)
    requires RoundOf(Run(listenerNames, evs), sch).version != "bootstrap"
    requires ClosedServer(TablesOf(server), Subscription(Run(listenerNames, evs).link.ads, ListenerType))
    ensures Scheduled(listenerNames, Run(listenerNames, evs), sch).published != []
  {
    var g := Run(listenerNames, evs);
    ReachableIsGood(listenerNames, evs);
    var h := ScheduleConverges(listenerNames, g, server, sch, input, counter);
    TablesAreGood(server);
    AnswersPublish(Scheduled(listenerNames, g, sch), h, TablesOf(server), Subscription(g.link.ads, ListenerType),
                   input, counter);
  }

  /**
   The same without waiting for rest: nine turns of the apply task after the last answer, once anything has been
   published, as it is if the last answer's version is not the bootstrap's.
   */
  lemma {:induction false} NineTurnsReachTheProxy(
    listenerNames: seq<string>, evs: seq<Event>, server: Server, sch: Schedule,
    input: MatchInput, counter: u64, version: string)
    requires AnswersOnSchedule(Run(listenerNames, evs), server, sch) && TaskTurns(sch.after) >= 9
    requires var g := Run(listenerNames, evs);
      Scheduled(listenerNames, g, sch).published != [] || RoundOf(g, sch).version != "bootstrap"
    requires ClosedServer(TablesOf(server), Subscription(Run(listenerNames, evs).link.ads, ListenerType))
    ensures DecidesAsJoin(Scheduled(listenerNames, Run(listenerNames, evs), sch), TablesOf(server),
                          Subscription(Run(listenerNames, evs).link.ads, ListenerType), version, input, counter)
  {
    if RoundOf(Run(listenerNames, evs), sch).version != "bootstrap" {
      SchedulePublishes(listenerNames, evs, server, sch, input, counter);
    }
    ScheduleRests(listenerNames, Run(listenerNames, evs), sch);
    ServerTablesReachTheProxy(listenerNames, evs, server, sch, input, counter, version);
  }

  lemma {:induction false} ScheduleRests(listenerNames: seq<string>, g: Gateway, sch: Schedule)
    requires QuietSchedule(sch) && TaskTurns(sch.after) >= 9 && Scheduled(listenerNames, g, sch).published != []
    ensures AtRest(Scheduled(listenerNames, g, sch))
  {
    var g0 := Then(listenerNames, g, sch.before);
    var g1 := AnsweredThen(listenerNames, g0, ListenerType, sch.listeners, sch.afterListeners);
    var g2 := AnsweredThen(listenerNames, g1, RouteType, sch.routes, sch.afterRoutes);
    var g3 := AnsweredThen(listenerNames, g2, ClusterType, sch.clusters, sch.afterClusters);
    NineTurnsRest(listenerNames, Answered(g3, EndpointType, sch.endpoints), sch.after);
  }

  // ---------- the hypotheses can be met ----------

  const EMPTY_SERVER := Server(map[], map[], map[], map[])

  function EmptyAnswer(t: TypeUrl): Response {
    Response(t, "1", "", [])
  }

  function NineTaskTurns(): seq<Event> {
    seq(9, _ => TaskTurn)
  }

  function EmptySchedule(): Schedule {
    Schedule([], EmptyAnswer(ListenerType), [], EmptyAnswer(RouteType), [], EmptyAnswer(ClusterType), [],
             EmptyAnswer(EndpointType), NineTaskTurns())
  }

  lemma {:induction false} CountTaskTurns(n: nat)
    ensures TaskTurns(seq(n, _ => TaskTurn)) == n
    decreases n
  {
    if n > 0 {
      CountTaskTurns(n - 1);
      assert seq(n, _ => TaskTurn)[..n - 1] == seq(n - 1, _ => TaskTurn);
    }
  }

  /** An empty answer to a fresh stream leaves nothing to ask for. */
  lemma {:induction false} EmptyListenersHandled(st: Stream, cell: Cell)
    requires st.ads == Connect([], cell).ads
    ensures var s := Handle(Handled(st, ""), ListenerType, EmptyAnswer(ListenerType)).stream.ads;
      Skips(s, RouteType) && Skips(s, ClusterType) && Skips(s, EndpointType)
  {
    NothingNeedsNothing();
    FirstSubscription(st.ads, UpdateOf(EmptyAnswer(ListenerType)));
  }

  lemma {:induction false} EmptyServerAnswers(g: Gateway)
    requires ApplyOrder.Opened(g)
    ensures AnswersOnSchedule(g, EMPTY_SERVER, EmptySchedule()) && RoundOf(g, EmptySchedule()).version == "1"
  {
    var st := Stream(g.link.ads, [], g.cell);
    EmptyListenersHandled(st, g.cell);
    EmptyListenersAnswered(st);
    EmptyRound(st);
    EmptyScheduleIsQuiet();
  }

  lemma {:induction false} EmptyScheduleIsQuiet()
    ensures QuietSchedule(EmptySchedule()) && WellNamed(EMPTY_SERVER)
  {
  }

  lemma {:induction false} EmptyListenersAnswered(st: Stream)
    requires Subscription(st.ads, ListenerType) == []
    ensures AnsweredAt(EMPTY_SERVER, Handled(st, ""), ListenerType, EmptyAnswer(ListenerType))
  {
  }

  /** With nothing left to ask for, the other answers do not matter. */
  lemma {:induction false} EmptyRound(st: Stream)
    requires AnsweredAt(EMPTY_SERVER, Handled(st, ""), ListenerType, EmptyAnswer(ListenerType))
    requires var s := Handle(Handled(st, ""), ListenerType, EmptyAnswer(ListenerType)).stream.ads;
      Skips(s, RouteType) && Skips(s, ClusterType) && Skips(s, EndpointType)
    ensures var (l, r, c, e) :=
        (EmptyAnswer(ListenerType), EmptyAnswer(RouteType), EmptyAnswer(ClusterType), EmptyAnswer(EndpointType));
      AnsweredInTurn(EMPTY_SERVER, Handled(st, ""), l, r, c, e) && Round(Handled(st, ""), l, r, c, e).version == "1"
  {
    var h1 := Handle(Handled(st, ""), ListenerType, EmptyAnswer(ListenerType));
    assert Handle(h1, RouteType, EmptyAnswer(RouteType)) == h1;
    assert Handle(h1, ClusterType, EmptyAnswer(ClusterType)) == h1;
    assert Handle(h1, EndpointType, EmptyAnswer(EndpointType)) == h1;
  }

  /** A run, a server and a schedule to which the theorem applies. */
  lemma {:induction false} TheoremApplies() returns (evs: seq<Event>)
    ensures var g := Run([], evs);
      && AnswersOnSchedule(g, EMPTY_SERVER, EmptySchedule()) && TaskTurns(EmptySchedule().after) >= 9
      && RoundOf(g, EmptySchedule()).version != "bootstrap"
      && ClosedServer(TablesOf(EMPTY_SERVER), Subscription(g.link.ads, ListenerType))
  {
    evs := ApplyOrder.Opening();
    EmptyServerAnswers(Run([], evs));
    CountTaskTurns(9);
    assert TablesOf(EMPTY_SERVER).listeners == map[];
  }
}
