/** What holds in every reachable state of the gateway, whatever the interleaving. */
module GatewayRuns {
  import opened Wrappers
  import opened Config
  import opened Messages
  import opened Discovery
  import opened Picker
  import opened Forwarding
  import opened Gateway

  // ---------- observers only gain ----------

  /** Readiness is kept and the accepted configurations only grow. */
  ghost predicate Progress(g: Gateway, g': Gateway) {
    (g.proxy.ready ==> g'.proxy.ready) && g.accepted <= g'.accepted
  }

  lemma {:induction false} ObserversKept(g: Gateway, g': Gateway)
    requires ReadersInv(g) && RequestsInv(g) && Progress(g, g')
    requires g'.readers == g.readers && g'.requests == g.requests
    ensures ReadersInv(g') && RequestsInv(g')
  {
    forall version | AcceptedVersion(g, version) ensures AcceptedVersion(g', version) {
      var i :| 0 <= i < |g.accepted| && g.accepted[i].version == version;
      assert g'.accepted[i] == g.accepted[i];
    }
    forall id | id in g.readers ensures ReaderInv(g', g.readers[id]) {
      assert ReaderInv(g, g.readers[id]);
    }
    forall id | id in g.requests ensures RequestInv(g', g.requests[id]) {
      assert RequestInv(g, g.requests[id]);
    }
  }

  // ---------- the writes of apply_config ----------

  /** One write by either task: the stored configuration stays well formed, readiness and acceptance stay in step. */
  lemma {:induction false} ApplyStepKeeps(g: Gateway, pc: ApplyPc, g': Gateway)
    requires ProxyInv(g) && PcInv(g, pc)
    requires pc.StoringNotReady? || (pc.Validating? && !WellFormed(pc.cfg)) ==> !g.proxy.ready
    requires g'.proxy == ApplyStep(g.proxy, pc).0 && g'.accepted == NowAccepted(g.accepted, pc)
    ensures ProxyInv(g') && Progress(g, g')
    ensures match ApplyStep(g.proxy, pc).1
      case None => g'.proxy.ready == pc.StoringReady? && g'.proxy.config == g.proxy.config
      case Some(pc') =>
        && PcInv(g', pc') && pc'.cfg == pc.cfg
        && (pc'.StoringNotReady? <==> pc.Validating? && !WellFormed(pc.cfg))
  {
    ConflictsExact(pc.cfg);
  }

  /** Up to `n` writes, with nothing in between. */
  function Writes(p: ProxyView, pc: ApplyPc, n: nat): (ProxyView, Option<ApplyPc>)
    decreases n
  {
    if n == 0 then (p, Some(pc)) else
      var (p', next) := ApplyStep(p, pc);
      match next case None => (p', None) case Some(pc') => Writes(p', pc', n - 1)
  }

  /**
   What `apply_config` leaves: a well-formed configuration without conflicts and ready, or of any other its conflicts.
   */
  function Applied(p: ProxyView, cfg: RuntimeConfig): ProxyView {
    if Conflicts(cfg) == [] then ProxyView(cfg, [], true, p.counter)
    else ProxyView(p.config, Conflicts(cfg), false, p.counter)
  }

  /** The separate writes together do that. */
  lemma {:induction false} WritesTogether(p: ProxyView, cfg: RuntimeConfig)
    ensures Writes(p, Validating(cfg), 3) == (Applied(p, cfg), None)
  {
    if Conflicts(cfg) == [] {
      var p1 := p.(config := cfg);
      var p2 := p1.(conflicts := []);
      assert Writes(p2, StoringReady(cfg), 1) == (p2.(ready := true), None);
      assert Writes(p1, ClearingConflicts(cfg), 2) == Writes(p2, StoringReady(cfg), 1);
    } else {
      var p1 := p.(conflicts := Conflicts(cfg));
      assert Writes(p1, StoringNotReady(cfg), 2) == (p1.(ready := false), None);
    }
  }

  lemma {:induction false} MainKeepsInv(g: Gateway)
    requires Inv(g)
    ensures Inv(MainStep(g)) && Progress(g, MainStep(g))
  {
    var g' := MainStep(g);
    match g.main
    case ApplyingStatic(pc) =>
      ConflictsExact(pc.cfg);
      ApplyStepKeeps(g, pc, g');
      ObserversKept(g, g');
    case SendingStatic(cfg) =>
      SendKeepsTask(g, g', Publication(cfg, Static));
      ObserversKept(g, g');
    case _ =>
  }

  /** A publication moves only the cell: the apply task's bookkeeping still fits. */
  lemma {:induction false} SendKeepsTask(g: Gateway, g': Gateway, p: Publication)
    requires CellInv(g) && TaskInv(g) && WellFormed(p.cfg)
    requires g'.published == g.published + [p] && g'.cell == Send(g.cell, p.cfg)
    requires g'.seen == g.seen && g'.task == g.task && g'.rounds == g.rounds && g'.proxy == g.proxy
      && g'.accepted == g.accepted
    ensures CellInv(g') && TaskInv(g')
  {
    assert forall i | 0 <= i < |g.published| :: g'.published[i] == g.published[i];
  }

  // ---------- the stream ----------

  lemma {:induction false} LinkKeepsInv(g: Gateway, link: Link)
    requires Inv(g) && (g.main == Started || link.Down?)
    ensures Inv(g.(link := link)) && Progress(g, g.(link := link))
  {
    ObserversKept(g, g.(link := link));
  }

  lemma {:induction false} OfferKeepsInv(g: Gateway, cfg: RuntimeConfig, history: seq<Response>)
    requires Inv(g) && g.main == Started
    ensures Inv(Offer(g, cfg, history)) && Progress(g, Offer(g, cfg, history))
  {
    var g' := Offer(g, cfg, history);
    ConflictsExact(cfg);
    if g'.cell != g.cell {
      SendKeepsTask(g, g', Publication(cfg, FromStream(history)));
    }
    ObserversKept(g, g');
  }

  lemma {:induction false} AbsorbKeepsInv(g: Gateway, u: Update, resp: Response)
    requires Inv(g) && g.main == Started && g.link.Up?
    ensures Inv(Absorb(g, u, resp)) && Progress(g, Absorb(g, u, resp))
  {
    var ads, history := Step(g.link.ads, u), g.link.history + [resp];
    LinkKeepsInv(g, Up(ads, history));
    OfferKeepsInv(g.(link := Up(ads, history)), ConfigOf(ads, resp.version), history);
  }

  lemma {:induction false} ReceiveKeepsInv(g: Gateway, resp: Response)
    requires Inv(g)
    ensures Inv(ReceiveStep(g, resp)) && Progress(g, ReceiveStep(g, resp))
  {
    if g.main == Started && g.link.Up? {
      if Decodable(resp) { AbsorbKeepsInv(g, UpdateOf(resp), resp); } else { LinkKeepsInv(g, Down); }
    }
  }

  // ---------- the apply task ----------

  lemma {:induction false} NoticeKeepsInv(g: Gateway)
    requires Inv(g) && g.task.Waiting?
    ensures Inv(TaskStep(g)) && Progress(g, TaskStep(g))
  {
    ObserversKept(g, TaskStep(g));
  }

  lemma {:induction false} RoundsExtend(rounds: seq<Taken>, version: nat, t: Taken)
    requires RoundsInv(rounds, version) && 1 <= t.seen <= t.taken <= version
    requires rounds != [] ==> Last(rounds).seen < t.seen && Last(rounds).taken <= t.seen
    ensures RoundsInv(rounds + [t], version)
  {
  }

  lemma {:induction false} BorrowKeepsInv(g: Gateway)
    requires Inv(g) && g.task.Noticed?
    ensures Inv(TaskStep(g)) && Progress(g, TaskStep(g))
  {
    RoundsExtend(g.rounds, g.cell.version, Taken(g.seen, g.cell.version));
    ObserversKept(g, TaskStep(g));
  }

  lemma {:induction false} WriteKeepsInv(g: Gateway)
    requires Inv(g) && g.task.Applying?
    ensures Inv(TaskStep(g)) && Progress(g, TaskStep(g))
  {
    var g' := TaskStep(g);
    ApplyStepKeeps(g, g.task.pc, g');
    WriteKeepsTask(g, g');
    ObserversKept(g, g');
  }

  lemma {:induction false} WriteKeepsTask(g: Gateway, g': Gateway)
    requires TaskInv(g) && g.task.Applying? && g' == TaskStep(g)
    requires match ApplyStep(g.proxy, g.task.pc).1
      case None => g'.proxy.ready == g.task.pc.StoringReady? && g'.proxy.config == g.proxy.config
      case Some(pc') => PcInv(g', pc') && pc'.cfg == g.task.pc.cfg && !pc'.StoringNotReady?
    ensures TaskInv(g')
  {
  }

  // ---------- readers and requests ----------

  lemma {:induction false} ReadKeepsInv(g: Gateway, id: nat)
    requires Inv(g)
    ensures Inv(ReadStep(g, id)) && Progress(g, ReadStep(g, id))
  {
    var g' := ReadStep(g, id);
    forall k | k in g'.readers ensures ReaderInv(g', g'.readers[k]) {
      if k in g.readers { assert ReaderInv(g, g.readers[k]); }
      if k == id && g.proxy.ready {
        var i :| 0 <= i < |g.accepted| && g.accepted[i] == g.proxy.config;
        assert AcceptedVersion(g', g.proxy.config.version);
      }
      if k != id {
        assert g'.readers[k] == g.readers[k];
        SameReader(g, g', g.readers[k]);
      } else if id in g.readers {
        SameReader(g, g', g.readers[id]);
      }
    }
    forall k | k in g'.requests ensures RequestInv(g', g'.requests[k]) {
      assert RequestInv(g, g.requests[k]);
    }
  }

  lemma {:induction false} SameReader(g: Gateway, g': Gateway, r: Reader)
    requires g'.proxy == g.proxy && g'.accepted == g.accepted && ReaderInv(g, r)
    ensures ReaderInv(g', r)
  {
  }

  /** A request keeps its own copy of the configuration, so its steps are safe whatever the counter has become. */
  lemma {:induction false} RequestAdvances(g: Gateway, r: InFlight, c: u64)
    requires ProxyInv(g) && RequestInv(g, r)
    ensures match r
      case Arrived(input) => RequestInv(g, Routing(g.proxy.config, input))
      case Routing(cfg, input) => RequestInv(g, Picking(cfg, input, ChooseCluster(cfg, input, c).0))
      case Picking(cfg, input, choice) => RequestInv(g, Decided(cfg, input, ChooseEndpoint(choice, c).0))
      case Decided(_, _, _) => true
  {
    match r
    case Routing(cfg, input) => ChoiceIsSafe(cfg, input, c);
    case Picking(cfg, input, choice) => DecisionIsSafe(cfg, input, choice, c);
    case _ =>
  }

  lemma {:induction false} RequestKeepsInv(g: Gateway, id: nat)
    requires Inv(g)
    ensures Inv(RequestStep(g, id)) && Progress(g, RequestStep(g, id))
  {
    var g' := RequestStep(g, id);
    if id in g.requests {
      assert RequestInv(g, g.requests[id]);
      RequestAdvances(g, g.requests[id], g.proxy.counter);
      RequestsFrame(g, g', id);
      OnlyCounterMoved(g, g');
    }
  }

  lemma {:induction false} RequestsFrame(g: Gateway, g': Gateway, id: nat)
    requires RequestsInv(g) && id in g.requests && id in g'.requests
    requires g'.accepted == g.accepted && g'.requests == g.requests[id := g'.requests[id]]
      && RequestInv(g, g'.requests[id])
    ensures RequestsInv(g')
  {
    forall k | k in g'.requests ensures RequestInv(g', g'.requests[k]) {
      if k != id { assert RequestInv(g, g.requests[k]); }
    }
  }

  lemma {:induction false} OnlyCounterMoved(g: Gateway, g': Gateway)
    requires Inv(g) && RequestsInv(g')
    requires g' == g.(requests := g'.requests, proxy := g.proxy.(counter := g'.proxy.counter))
    ensures Inv(g') && Progress(g, g')
  {
    forall id | id in g.readers ensures ReaderInv(g', g.readers[id]) {
      assert ReaderInv(g, g.readers[id]);
    }
  }

  lemma {:induction false} ArrivalKeepsInv(g: Gateway, id: nat, input: MatchInput)
    requires Inv(g) && id !in g.requests
    ensures var g' := g.(requests := g.requests[id := Arrived(input)]); Inv(g') && Progress(g, g')
  {
    var g' := g.(requests := g.requests[id := Arrived(input)]);
    forall k | k in g'.requests ensures RequestInv(g', g'.requests[k]) {
      if k != id { assert RequestInv(g, g.requests[k]); }
    }
    OnlyCounterMoved(g, g');
  }

  // ---------- every run ----------

  lemma {:induction false} TaskKeepsInv(g: Gateway)
    requires Inv(g)
    ensures Inv(TaskStep(g)) && Progress(g, TaskStep(g))
  {
    match g.task
    case Waiting => NoticeKeepsInv(g);
    case Noticed => BorrowKeepsInv(g);
    case Applying(_) => WriteKeepsInv(g);
  }

  lemma {:induction false} StaticKeepsInv(g: Gateway, main: MainPc)
    requires Inv(g) && g.main.LoadingStatic?
    requires main == Started || (main.ApplyingStatic? && main.pc.Validating?)
    ensures Inv(g.(main := main)) && Progress(g, g.(main := main))
  {
    ObserversKept(g, g.(main := main));
  }

  /** Readers and requests. */
  lemma {:induction false} ObserverKeepsInv(listenerNames: seq<string>, g: Gateway, ev: Event)
    requires Inv(g) && (ev.ReadTurn? || ev.RequestArrives? || ev.RequestTurn?)
    ensures Inv(Next(listenerNames, g, ev)) && Progress(g, Next(listenerNames, g, ev))
  {
    match ev
    case ReadTurn(id) => ReadKeepsInv(g, id);
    case RequestArrives(id, input) => if id !in g.requests { ArrivalKeepsInv(g, id, input); }
    case RequestTurn(id) => RequestKeepsInv(g, id);
  }

  /** Start-up and the stream. */
  lemma {:induction false} WriterKeepsInv(listenerNames: seq<string>, g: Gateway, ev: Event)
    requires Inv(g) && (ev.NoStatic? || ev.StaticLoaded? || ev.Connected? || ev.Disconnected?)
    ensures Inv(Next(listenerNames, g, ev)) && Progress(g, Next(listenerNames, g, ev))
  {
    match ev
    case NoStatic => if g.main.LoadingStatic? { StaticKeepsInv(g, Started); }
    case StaticLoaded(cfg) => if g.main.LoadingStatic? { StaticKeepsInv(g, ApplyingStatic(Validating(cfg))); }
    case Connected => if g.main.Started? { LinkKeepsInv(g, Up(Connect(listenerNames, g.cell).ads, [])); }
    case Disconnected => LinkKeepsInv(g, Down);
  }

  lemma {:induction false} NextKeepsInv(listenerNames: seq<string>, g: Gateway, ev: Event)
    requires Inv(g)
    ensures Inv(Next(listenerNames, g, ev)) && Progress(g, Next(listenerNames, g, ev))
  {
    match ev
    case MainTurn => MainKeepsInv(g);
    case Received(resp) => ReceiveKeepsInv(g, resp);
    case TaskTurn => TaskKeepsInv(g);
    case ReadTurn(_) => ObserverKeepsInv(listenerNames, g, ev);
    case RequestArrives(_, _) => ObserverKeepsInv(listenerNames, g, ev);
    case RequestTurn(_) => ObserverKeepsInv(listenerNames, g, ev);
    case _ => WriterKeepsInv(listenerNames, g, ev);
  }

  lemma {:induction false} InitInv()
    ensures Inv(Init())
  {
  }

  /** Every reachable state satisfies the invariant. */
  lemma {:induction false} EveryRunKeepsInv(listenerNames: seq<string>, evs: seq<Event>)
    ensures Inv(Run(listenerNames, evs))
  {
    if evs == [] {
      InitInv();
    } else {
      EveryRunKeepsInv(listenerNames, evs[..|evs| - 1]);
      NextKeepsInv(listenerNames, Run(listenerNames, evs[..|evs| - 1]), evs[|evs| - 1]);
    }
  }

  /** Over every run: a valid configuration is stored, readiness means it was accepted, and readiness is never lost. */
  lemma {:induction false} ReadinessIsMonotone(listenerNames: seq<string>, evs: seq<Event>, n: nat)
    requires n <= |evs|
    ensures var before, now := Run(listenerNames, evs[..n]), Run(listenerNames, evs);
      && WellFormed(now.proxy.config)
      && (now.proxy.ready ==> now.proxy.config in now.accepted && now.proxy.conflicts == [])
      && (before.proxy.ready ==> now.proxy.ready)
    decreases |evs|
  {
    EveryRunKeepsInv(listenerNames, evs);
    if n < |evs| {
      var m := |evs| - 1;
      assert evs[..m][..n] == evs[..n];
      ReadinessIsMonotone(listenerNames, evs[..m], n);
      EveryRunKeepsInv(listenerNames, evs[..m]);
      NextKeepsInv(listenerNames, Run(listenerNames, evs[..m]), evs[m]);
    } else {
      assert evs[..n] == evs;
    }
  }

  /** A reader that saw readiness reports the version of an accepted configuration and no conflicts. */
  lemma {:induction false} ReadersSeeAcceptedVersions(listenerNames: seq<string>, evs: seq<Event>, id: nat)
    requires var g := Run(listenerNames, evs); id in g.readers && g.readers[id].SawAll? && g.readers[id].ready
    ensures var g := Run(listenerNames, evs); AcceptedVersion(g, g.readers[id].version) && g.readers[id].conflicts == []
  {
    EveryRunKeepsInv(listenerNames, evs);
    var g := Run(listenerNames, evs);
    assert ReaderInv(g, g.readers[id]);
  }

  // ---------- readers ----------

  /** What one event does to reader `id`: nothing, or its next read of the stored readiness, version or conflicts. */
  ghost predicate ReaderMoves(g: Gateway, g': Gateway, ev: Event, id: nat)
    requires id in g'.readers
  {
    var r' := g'.readers[id];
    if id !in g.readers then ev == ReadTurn(id) && r' == SawReady(g.proxy.ready)
    else
      || r' == g.readers[id]
      || (ev == ReadTurn(id) &&
          match g.readers[id]
          case SawReady(ready) => r' == SawVersion(ready, g.proxy.config.version)
          case SawVersion(ready, version) => r' == SawAll(ready, version, g.proxy.conflicts)
          case SawAll(_, _, _) => false)
  }

  lemma {:induction false} NextReader(listenerNames: seq<string>, g: Gateway, ev: Event, id: nat)
    requires id in Next(listenerNames, g, ev).readers
    ensures ReaderMoves(g, Next(listenerNames, g, ev), ev, id)
  {
  }

  lemma {:induction false} ReadyWasRead(listenerNames: seq<string>, evs: seq<Event>, id: nat) returns (a: nat)
    requires id in Run(listenerNames, evs).readers
    ensures a < |evs| && Run(listenerNames, evs[..a]).proxy.ready == Run(listenerNames, evs).readers[id].ready
  {
    var n := |evs| - 1;
    NextReader(listenerNames, Run(listenerNames, evs[..n]), evs[n], id);
    if id in Run(listenerNames, evs[..n]).readers {
      a := ReadyWasRead(listenerNames, evs[..n], id);
      assert evs[..n][..a] == evs[..a];
    } else {
      a := n;
    }
  }

  lemma {:induction false} VersionWasRead(listenerNames: seq<string>, evs: seq<Event>, id: nat) returns (a: nat, b: nat)
    requires id in Run(listenerNames, evs).readers && !Run(listenerNames, evs).readers[id].SawReady?
    ensures var r := Run(listenerNames, evs).readers[id];
      && a < b < |evs| && Run(listenerNames, evs[..a]).proxy.ready == r.ready
      && Run(listenerNames, evs[..b]).proxy.config.version == r.version
  {
    var n := |evs| - 1;
    NextReader(listenerNames, Run(listenerNames, evs[..n]), evs[n], id);
    if Run(listenerNames, evs[..n]).readers[id].SawReady? {
      a := ReadyWasRead(listenerNames, evs[..n], id);
      b := n;
      assert evs[..n][..a] == evs[..a];
    } else {
      a, b := VersionWasRead(listenerNames, evs[..n], id);
      assert evs[..n][..a] == evs[..a] && evs[..n][..b] == evs[..b];
    }
  }

  /** A report is the readiness, then the version, then the conflicts stored at three successive moments. */
  lemma {:induction false} ReportWasRead(listenerNames: seq<string>, evs: seq<Event>, id: nat)
    returns (a: nat, b: nat, c: nat)
    requires id in Run(listenerNames, evs).readers && Run(listenerNames, evs).readers[id].SawAll?
    ensures var r := Run(listenerNames, evs).readers[id];
      && a < b < c < |evs| && Run(listenerNames, evs[..a]).proxy.ready == r.ready
      && Run(listenerNames, evs[..b]).proxy.config.version == r.version
      && Run(listenerNames, evs[..c]).proxy.conflicts == r.conflicts
  {
    var n := |evs| - 1;
    NextReader(listenerNames, Run(listenerNames, evs[..n]), evs[n], id);
    if Run(listenerNames, evs[..n]).readers[id].SawVersion? {
      a, b := VersionWasRead(listenerNames, evs[..n], id);
      c := n;
      assert evs[..n][..a] == evs[..a] && evs[..n][..b] == evs[..b];
    } else {
      a, b, c := ReportWasRead(listenerNames, evs[..n], id);
      assert evs[..n][..a] == evs[..a] && evs[..n][..b] == evs[..b] && evs[..n][..c] == evs[..c];
    }
  }

  // ---------- requests in flight ----------

  /**
   What one event does to request `id`: it arrives, it takes its copy of the stored configuration, or it keeps that
   copy.
   */
  ghost predicate RequestMoves(g: Gateway, g': Gateway, ev: Event, id: nat)
    requires id in g'.requests
  {
    var r' := g'.requests[id];
    if id !in g.requests then ev == RequestArrives(id, r'.input) && r'.Arrived?
    else
      var r := g.requests[id];
      && r'.input == r.input
      && if r.Arrived? then r' == r || (ev == RequestTurn(id) && r' == Routing(g.proxy.config, r.input))
         else !r'.Arrived? && r'.cfg == r.cfg
  }

  lemma {:induction false} NextRequest(listenerNames: seq<string>, g: Gateway, ev: Event, id: nat)
    requires id in Next(listenerNames, g, ev).requests
    ensures RequestMoves(g, Next(listenerNames, g, ev), ev, id)
  {
  }

  ghost predicate ArrivesAt(evs: seq<Event>, id: nat, input: MatchInput, a: nat) {
    a < |evs| && evs[a] == RequestArrives(id, input)
  }

  /** Event `m` is the request's own turn, and `cfg` is the configuration stored at that moment. */
  ghost predicate ReadsAt(listenerNames: seq<string>, evs: seq<Event>, id: nat, cfg: RuntimeConfig, m: nat) {
    m < |evs| && evs[m] == RequestTurn(id) && Run(listenerNames, evs[..m]).proxy.config == cfg
  }

  lemma {:induction false} Arrival(listenerNames: seq<string>, evs: seq<Event>, id: nat) returns (a: nat)
    requires id in Run(listenerNames, evs).requests
    ensures ArrivesAt(evs, id, Run(listenerNames, evs).requests[id].input, a)
  {
    var n := |evs| - 1;
    var g := Run(listenerNames, evs[..n]);
    NextRequest(listenerNames, g, evs[n], id);
    if id in g.requests {
      a := Arrival(listenerNames, evs[..n], id);
    } else {
      a := n;
    }
  }

  /** The configuration of a request was the stored one at a moment after its arrival. */
  lemma {:induction false} ConfigWasStored(
    listenerNames: seq<string>, evs: seq<Event>, id: nat)
    returns (a: nat, m: nat)
    requires var g := Run(listenerNames, evs); id in g.requests && !g.requests[id].Arrived?
    ensures var r := Run(listenerNames, evs).requests[id];
      a < m && ArrivesAt(evs, id, r.input, a) && ReadsAt(listenerNames, evs, id, r.cfg, m)
  {
    var n := |evs| - 1;
    var g := Run(listenerNames, evs[..n]);
    NextRequest(listenerNames, g, evs[n], id);
    if g.requests[id].Arrived? {
      a := Arrival(listenerNames, evs[..n], id);
      m := n;
    } else {
      a, m := ConfigWasStored(listenerNames, evs[..n], id);
      assert evs[..n][..m] == evs[..m];
    }
  }

  /** Whatever runs alongside, each request is decided safely under the one configuration stored when it read it. */
  lemma {:induction false} EveryRequestIsSafe(listenerNames: seq<string>, evs: seq<Event>, id: nat)
    returns (a: nat, m: nat)
    requires var g := Run(listenerNames, evs); id in g.requests && g.requests[id].Decided?
    ensures var r := Run(listenerNames, evs).requests[id];
      && a < m && ArrivesAt(evs, id, r.input, a) && ReadsAt(listenerNames, evs, id, r.cfg, m)
      && WellFormed(r.cfg) && SafeDecision(r.cfg, r.input, r.decision)
  {
    EveryRunKeepsInv(listenerNames, evs);
    var g := Run(listenerNames, evs);
    assert RequestInv(g, g.requests[id]);
    a, m := ConfigWasStored(listenerNames, evs, id);
  }

  /**
   The same for replies: 404 without a route, 503 without a healthy endpoint, 502 from outside, else a healthy
   destination.
   */
  lemma {:induction false} EveryReplyIsSafe(listenerNames: seq<string>, evs: seq<Event>, id: nat, o: Outside)
    returns (a: nat, m: nat)
    requires var g := Run(listenerNames, evs); id in g.requests && g.requests[id].Decided?
    ensures var r := Run(listenerNames, evs).requests[id];
      && a < m && ArrivesAt(evs, id, r.input, a) && ReadsAt(listenerNames, evs, id, r.cfg, m)
      && WellFormed(r.cfg) && SafeReply(r.cfg, r.input, r.decision, o)
  {
    a, m := EveryRequestIsSafe(listenerNames, evs, id);
    var r := Run(listenerNames, evs).requests[id];
    ReplyIsSafe(r.cfg, r.input, r.decision, o);
  }

  /** A request whose three steps run undisturbed is decided, and moves the counter, as the forwarding path does. */
  lemma {:induction false} UndisturbedRequest(g: Gateway, id: nat, input: MatchInput)
    requires id in g.requests && g.requests[id] == Arrived(input)
    ensures var g' := RequestStep(RequestStep(RequestStep(g, id), id), id);
      var (d, c) := Decide(g.proxy.config, input, g.proxy.counter);
      && id in g'.requests && g'.requests[id] == Decided(g.proxy.config, input, d)
      && g'.proxy == g.proxy.(counter := c)
  {
  }

  // ---------- start-up and the end of a stream ----------

  lemma {:induction false} StaticAccepted(g: Gateway, cfg: RuntimeConfig)
    requires g.main == ApplyingStatic(Validating(cfg)) && Conflicts(cfg) == []
    ensures var g' := MainStep(MainStep(MainStep(g)));
      g' == g.(main := SendingStatic(cfg), proxy := Applied(g.proxy, cfg), accepted := g.accepted + [cfg])
  {
    var g1 := MainStep(g);
    assert g1 == g.(main := ApplyingStatic(ClearingConflicts(cfg)), proxy := g.proxy.(config := cfg),
                    accepted := g.accepted + [cfg]);
    var g2 := MainStep(g1);
    assert g2 == g1.(main := ApplyingStatic(StoringReady(cfg)), proxy := g1.proxy.(conflicts := []));
  }

  lemma {:induction false} StaticRejected(g: Gateway, cfg: RuntimeConfig)
    requires g.main == ApplyingStatic(Validating(cfg)) && Conflicts(cfg) != []
    ensures MainStep(MainStep(g)) == g.(main := Started, proxy := Applied(g.proxy, cfg))
  {
    var stored := g.proxy.(conflicts := Conflicts(cfg));
    assert MainStep(g) == g.(main := ApplyingStatic(StoringNotReady(cfg)), proxy := stored);
  }

  /** An accepted static configuration is then published. */
  lemma {:induction false} StaticIsSent(g: Gateway, cfg: RuntimeConfig)
    requires g.main == SendingStatic(cfg)
    ensures MainStep(g) ==
      g.(main := Started, cell := Cell(cfg, g.cell.version + 1), published := g.published + [Publication(cfg, Static)])
  {
  }

  /** A response that does not decode ends the stream and leaves everything else. */
  lemma {:induction false} UndecodableEndsStream(g: Gateway, resp: Response)
    requires g.main == Started && g.link.Up? && !Decodable(resp)
    ensures ReceiveStep(g, resp) == g.(link := Down)
  {
  }

  /** At rest after a publication, the proxy serves the last one. */
  lemma {:induction false} QuiescentProxyServesLatest(listenerNames: seq<string>, evs: seq<Event>)
    requires var g := Run(listenerNames, evs); g.task.Waiting? && g.seen == g.cell.version && g.published != []
    ensures var g := Run(listenerNames, evs);
      g.proxy.config == g.published[|g.published| - 1].cfg && g.proxy.ready && g.proxy.conflicts == []
  {
    EveryRunKeepsInv(listenerNames, evs);
    RestingServesLatest(Run(listenerNames, evs));
  }

  lemma {:induction false} RestingServesLatest(g: Gateway)
    requires Inv(g) && g.task.Waiting? && g.seen == g.cell.version && g.published != []
    ensures g.proxy.config == g.published[|g.published| - 1].cfg && g.proxy.ready && g.proxy.conflicts == []
  {
  }

  // ---------- what gets published ----------

  /** The client's state after these responses on a fresh stream. */
  function AdsAfter(listenerNames: seq<string>, history: seq<Response>): AdsView {
    ReceiveAll(Connect(listenerNames, Cell(BOOTSTRAP, 0)), history).ads
  }

  ghost predicate FromDecoded(listenerNames: seq<string>, p: Publication) {
    match p.source
    case Static => true
    case FromStream(h) =>
      h != [] && AllDecodable(h) && p.cfg == ConfigOf(AdsAfter(listenerNames, h), h[|h| - 1].version)
  }

  ghost predicate LinkInv(listenerNames: seq<string>, link: Link) {
    link.Up? ==> AllDecodable(link.history) && link.ads == AdsAfter(listenerNames, link.history)
  }

  ghost predicate AllFromDecoded(listenerNames: seq<string>, published: seq<Publication>) {
    forall i | 0 <= i < |published| :: FromDecoded(listenerNames, published[i])
  }

  lemma {:induction false} AdsAfterOneMore(listenerNames: seq<string>, history: seq<Response>, resp: Response)
    ensures AdsAfter(listenerNames, history + [resp]) == Step(AdsAfter(listenerNames, history), UpdateOf(resp))
  {
    assert (history + [resp])[..|history|] == history;
  }

  lemma {:induction false} DecodableOneMore(history: seq<Response>, resp: Response)
    requires AllDecodable(history) && Decodable(resp)
    ensures AllDecodable(history + [resp])
  {
  }

  lemma {:induction false} MainSources(listenerNames: seq<string>, g: Gateway)
    requires AllFromDecoded(listenerNames, g.published)
    ensures AllFromDecoded(listenerNames, MainStep(g).published) && MainStep(g).link == g.link
  {
  }

  lemma {:induction false} ConnectSources(listenerNames: seq<string>, cell: Cell)
    ensures LinkInv(listenerNames, Up(Connect(listenerNames, cell).ads, []))
  {
  }

  lemma {:induction false} OthersKeepSources(listenerNames: seq<string>, g: Gateway, ev: Event)
    requires !ev.MainTurn? && !ev.Connected? && !ev.Received?
    ensures var g' := Next(listenerNames, g, ev); g'.published == g.published && (g'.link == g.link || g'.link == Down)
  {
  }

  lemma {:induction false} SourcesStep(listenerNames: seq<string>, g: Gateway, ev: Event)
    requires LinkInv(listenerNames, g.link) && AllFromDecoded(listenerNames, g.published)
    ensures var g' := Next(listenerNames, g, ev);
      LinkInv(listenerNames, g'.link) && AllFromDecoded(listenerNames, g'.published)
  {
    match ev
    case MainTurn => MainSources(listenerNames, g);
    case Connected => ConnectSources(listenerNames, g.cell);
    case Received(resp) => ReceiveSources(listenerNames, g, resp);
    case _ => OthersKeepSources(listenerNames, g, ev);
  }

  lemma {:induction false} OfferSources(
    listenerNames: seq<string>, g: Gateway, cfg: RuntimeConfig, history: seq<Response>)
    requires AllFromDecoded(listenerNames, g.published)
    requires FromDecoded(listenerNames, Publication(cfg, FromStream(history)))
    ensures AllFromDecoded(listenerNames, Offer(g, cfg, history).published)
  {
    var p := Publication(cfg, FromStream(history));
    forall i | 0 <= i < |g.published| + 1 ensures FromDecoded(listenerNames, (g.published + [p])[i]) {
      if i < |g.published| {
        assert FromDecoded(listenerNames, g.published[i]) && (g.published + [p])[i] == g.published[i];
      }
    }
  }

  lemma {:induction false} OneMoreIsDecoded(
    listenerNames: seq<string>, ads: AdsView, history: seq<Response>, resp: Response)
    requires AllDecodable(history) && ads == AdsAfter(listenerNames, history) && Decodable(resp)
    ensures var ads', h := Step(ads, UpdateOf(resp)), history + [resp];
      && LinkInv(listenerNames, Up(ads', h))
      && FromDecoded(listenerNames, Publication(ConfigOf(ads', resp.version), FromStream(h)))
  {
    AdsAfterOneMore(listenerNames, history, resp);
    DecodableOneMore(history, resp);
  }

  lemma {:induction false} AbsorbSources(listenerNames: seq<string>, g: Gateway, u: Update, resp: Response)
    requires g.link.Up? && AllFromDecoded(listenerNames, g.published)
    requires var ads, h := Step(g.link.ads, u), g.link.history + [resp];
      LinkInv(listenerNames, Up(ads, h))
        && FromDecoded(listenerNames, Publication(ConfigOf(ads, resp.version), FromStream(h)))
    ensures LinkInv(listenerNames, Absorb(g, u, resp).link)
      && AllFromDecoded(listenerNames, Absorb(g, u, resp).published)
  {
    var ads, h := Step(g.link.ads, u), g.link.history + [resp];
    OfferSources(listenerNames, g.(link := Up(ads, h)), ConfigOf(ads, resp.version), h);
  }

  lemma {:induction false} DecodedSources(listenerNames: seq<string>, g: Gateway, resp: Response)
    requires g.link.Up? && LinkInv(listenerNames, g.link) && AllFromDecoded(listenerNames, g.published)
      && Decodable(resp)
    ensures var g' := Absorb(g, UpdateOf(resp), resp);
      LinkInv(listenerNames, g'.link) && AllFromDecoded(listenerNames, g'.published)
  {
    OneMoreIsDecoded(listenerNames, g.link.ads, g.link.history, resp);
    AbsorbSources(listenerNames, g, UpdateOf(resp), resp);
  }

  lemma {:induction false} ReceiveSources(listenerNames: seq<string>, g: Gateway, resp: Response)
    requires LinkInv(listenerNames, g.link) && AllFromDecoded(listenerNames, g.published)
    ensures var g' := ReceiveStep(g, resp);
      LinkInv(listenerNames, g'.link) && AllFromDecoded(listenerNames, g'.published)
  {
    if g.main == Started && g.link.Up? && Decodable(resp) {
      DecodedSources(listenerNames, g, resp);
      assert ReceiveStep(g, resp) == Absorb(g, UpdateOf(resp), resp);
    }
  }

  /** Everything ever published from the stream is the configuration of fully decoded responses of one connection. */
  lemma {:induction false} PublishedFromDecodedOnly(listenerNames: seq<string>, evs: seq<Event>)
    ensures var g := Run(listenerNames, evs);
      LinkInv(listenerNames, g.link) && AllFromDecoded(listenerNames, g.published)
  {
    if evs != [] {
      PublishedFromDecodedOnly(listenerNames, evs[..|evs| - 1]);
      SourcesStep(listenerNames, Run(listenerNames, evs[..|evs| - 1]), evs[|evs| - 1]);
    }
  }
}
