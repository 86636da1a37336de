/**
 The whole gateway as interleaved steps: the start-up task with its static configuration, the discovery stream,
 the watch cell, the apply task's separate writes, readiness readers and requests in flight.
 A run is any sequence of events; an event that is not enabled changes nothing.
 */
module Gateway {
  import opened Wrappers
  import opened Config
  import opened Messages
  import opened Discovery
  import opened Picker
  import opened Forwarding

  // ---------- state ----------

  datatype ProxyView = ProxyView(config: RuntimeConfig, conflicts: seq<Conflict>, ready: bool, counter: u64)

  /** Where an `apply_config` stands between its separate writes. */
  datatype ApplyPc =
    | Validating(cfg: RuntimeConfig)
    | ClearingConflicts(cfg: RuntimeConfig)
    | StoringReady(cfg: RuntimeConfig)
    | StoringNotReady(cfg: RuntimeConfig)

  datatype MainPc = LoadingStatic | ApplyingStatic(pc: ApplyPc) | SendingStatic(cfg: RuntimeConfig) | Started

  datatype TaskPc = Waiting | Noticed | Applying(pc: ApplyPc)

  /** The discovery stream, with the responses received since it was opened. */
  datatype Link = Down | Up(ads: AdsView, history: seq<Response>)

  datatype Source = Static | FromStream(history: seq<Response>)

  datatype Publication = Publication(cfg: RuntimeConfig, source: Source)

  /** One round of the apply task: the cell version it was woken by, and the one it then borrowed. */
  datatype Taken = Taken(seen: nat, taken: nat)

  datatype Reader =
    | SawReady(ready: bool)
    | SawVersion(ready: bool, version: string)
    | SawAll(ready: bool, version: string, conflicts: seq<Conflict>)

  datatype InFlight =
    | Arrived(input: MatchInput)
    | Routing(cfg: RuntimeConfig, input: MatchInput)
    | Picking(cfg: RuntimeConfig, input: MatchInput, choice: Choice)
    | Decided(cfg: RuntimeConfig, input: MatchInput, decision: Decision)

  datatype Gateway = Gateway(
    main: MainPc, link: Link, cell: Cell, seen: nat, task: TaskPc, proxy: ProxyView,
    readers: map<nat, Reader>, requests: map<nat, InFlight>,
    published: seq<Publication>, rounds: seq<Taken>, accepted: seq<RuntimeConfig>)

  const BOOTSTRAP := EmptyConfig("bootstrap")

  function Init(): Gateway {
    Gateway(LoadingStatic, Down, Cell(BOOTSTRAP, 0), 0, Waiting, ProxyView(BOOTSTRAP, [], false, 0),
            map[], map[], [], [], [])
  }

  // ---------- steps ----------

  datatype Event =
    | NoStatic | StaticLoaded(cfg: RuntimeConfig) | MainTurn
    | Connected | Received(resp: Response) | Disconnected
    | TaskTurn
    | ReadTurn(reader: nat)
    | RequestArrives(request: nat, input: MatchInput) | RequestTurn(request: nat)

  /** One write of `apply_config`; `None` once it has returned. */
  function ApplyStep(p: ProxyView, pc: ApplyPc): (ProxyView, Option<ApplyPc>) {
    match pc
    case Validating(cfg) =>
      if Conflicts(cfg) == [] then (p.(config := cfg), Some(ClearingConflicts(cfg)))
      else (p.(conflicts := Conflicts(cfg)), Some(StoringNotReady(cfg)))
    case ClearingConflicts(cfg) => (p.(conflicts := []), Some(StoringReady(cfg)))
    case StoringReady(_) => (p.(ready := true), None)
    case StoringNotReady(_) => (p.(ready := false), None)
  }

  function NowAccepted(accepted: seq<RuntimeConfig>, pc: ApplyPc): seq<RuntimeConfig> {
    if pc.Validating? && Conflicts(pc.cfg) == [] then accepted + [pc.cfg] else accepted
  }

  function MainStep(g: Gateway): Gateway {
    match g.main
    case ApplyingStatic(pc) =>
      var (p, next) := ApplyStep(g.proxy, pc);
      g.(proxy := p, accepted := NowAccepted(g.accepted, pc),
         main := match next
                 case Some(pc') => ApplyingStatic(pc')
                 case None => if pc.StoringReady? then SendingStatic(pc.cfg) else Started)
    case SendingStatic(cfg) =>
      g.(cell := Send(g.cell, cfg), published := g.published + [Publication(cfg, Static)], main := Started)
    case _ => g
  }

  /** A configuration offered to the cell, and recorded if it was sent. */
  function Offer(g: Gateway, cfg: RuntimeConfig, history: seq<Response>): Gateway {
    var cell := Publish(g.cell, cfg);
    g.(cell := cell,
       published := if cell.version == g.cell.version then g.published
                    else g.published + [Publication(cfg, FromStream(history))])
  }

  /** A response is handled whole or, if it does not decode, ends the stream and publishes nothing. */
  function ReceiveStep(g: Gateway, resp: Response): Gateway {
    if g.main != Started || g.link.Down? then g
    else if !Decodable(resp) then g.(link := Down)
    else Absorb(g, UpdateOf(resp), resp)
  }

  function Absorb(g: Gateway, u: Update, resp: Response): Gateway
    requires g.link.Up?
  {
    var ads, history := Step(g.link.ads, u), g.link.history + [resp];
    Offer(g.(link := Up(ads, history)), ConfigOf(ads, resp.version), history)
  }

  /** This is the receive loop's turn. */
  lemma {:induction false} ReceiveStepDelivers(g: Gateway, resp: Response, log: seq<Request>)
    requires g.main == Started && g.link.Up? && Decodable(resp)
    ensures var g', st := ReceiveStep(g, resp), Deliver(Stream(g.link.ads, log, g.cell), DigestOf(resp));
      g'.link.Up? && g'.link.ads == st.ads && g'.cell == st.cell
  {
  }

  /** `changed()`, then `borrow()`, then the writes of `apply_config`, one at a time. */
  function TaskStep(g: Gateway): Gateway {
    match g.task
    case Waiting => if g.seen == g.cell.version then g else g.(seen := g.cell.version, task := Noticed)
    case Noticed =>
      g.(task := Applying(Validating(g.cell.value)), rounds := g.rounds + [Taken(g.seen, g.cell.version)])
    case Applying(pc) =>
      var (p, next) := ApplyStep(g.proxy, pc);
      g.(proxy := p, accepted := NowAccepted(g.accepted, pc),
         task := match next case Some(pc') => Applying(pc') case None => Waiting)
  }

  /** `readiness()`: three separate reads. */
  function ReadStep(g: Gateway, id: nat): Gateway {
    var r := if id !in g.readers then SawReady(g.proxy.ready) else
      match g.readers[id]
      case SawReady(ready) => SawVersion(ready, g.proxy.config.version)
      case SawVersion(ready, version) => SawAll(ready, version, g.proxy.conflicts)
      case SawAll(ready, version, conflicts) => SawAll(ready, version, conflicts);
    g.(readers := g.readers[id := r])
  }

  /** A request clones the configuration, picks a cluster, picks an endpoint; others may run in between. */
  function RequestStep(g: Gateway, id: nat): Gateway {
    if id !in g.requests then g else
      match g.requests[id]
      case Arrived(input) => g.(requests := g.requests[id := Routing(g.proxy.config, input)])
      case Routing(cfg, input) =>
        var (choice, c) := ChooseCluster(cfg, input, g.proxy.counter);
        g.(requests := g.requests[id := Picking(cfg, input, choice)], proxy := g.proxy.(counter := c))
      case Picking(cfg, input, choice) =>
        var (d, c) := ChooseEndpoint(choice, g.proxy.counter);
        g.(requests := g.requests[id := Decided(cfg, input, d)], proxy := g.proxy.(counter := c))
      case Decided(_, _, _) => g
  }

  function Next(listenerNames: seq<string>, g: Gateway, ev: Event): Gateway {
    match ev
    case NoStatic => if g.main == LoadingStatic then g.(main := Started) else g
    case StaticLoaded(cfg) => if g.main == LoadingStatic then g.(main := ApplyingStatic(Validating(cfg))) else g
    case MainTurn => MainStep(g)
    case Connected =>
      if g.main == Started && g.link.Down? then g.(link := Up(Connect(listenerNames, g.cell).ads, [])) else g
    case Received(resp) => ReceiveStep(g, resp)
    case Disconnected => g.(link := Down)
    case TaskTurn => TaskStep(g)
    case ReadTurn(id) => ReadStep(g, id)
    case RequestArrives(id, input) => if id in g.requests then g else g.(requests := g.requests[id := Arrived(input)])
    case RequestTurn(id) => RequestStep(g, id)
  }

  function Run(listenerNames: seq<string>, evs: seq<Event>): Gateway {
    if evs == [] then Init() else Next(listenerNames, Run(listenerNames, evs[..|evs| - 1]), evs[|evs| - 1])
  }

  // ---------- invariants ----------

  function LatestOf(published: seq<Publication>): RuntimeConfig {
    if published == [] then BOOTSTRAP else published[|published| - 1].cfg
  }

  /** The cell counts and holds the publications, all of them well formed. */
  ghost predicate CellInv(g: Gateway) {
    && g.cell.version == |g.published| && g.cell.value == LatestOf(g.published)
    && forall i | 0 <= i < |g.published| :: WellFormed(g.published[i].cfg)
  }

  /** Before start-up is over nothing else writes; a static configuration is sent only once accepted. */
  ghost predicate MainInv(g: Gateway) {
    && (g.main != Started ==> g.link.Down? && g.published == [] && g.task == Waiting && g.seen == 0 && g.rounds == [])
    && (g.main.LoadingStatic? ==> !g.proxy.ready)
    && (g.main.ApplyingStatic? ==> !g.proxy.ready && PcInv(g, g.main.pc))
    && (g.main.SendingStatic? ==> WellFormed(g.main.cfg))
  }

  /** Past validation, the configuration under way is the stored one. */
  ghost predicate PcInv(g: Gateway, pc: ApplyPc) {
    && (pc.ClearingConflicts? || pc.StoringReady? ==>
          g.proxy.config == pc.cfg && pc.cfg in g.accepted && WellFormed(pc.cfg))
    && (pc.StoringReady? ==> g.proxy.conflicts == [])
  }

  /** The borrowed versions never go back, and stay between the versions that woke the task. */
  ghost predicate RoundsInv(rounds: seq<Taken>, version: nat) {
    && (forall k | 0 <= k < |rounds| :: 1 <= rounds[k].seen <= rounds[k].taken <= version)
    && (forall k | 0 < k < |rounds| :: rounds[k - 1].seen < rounds[k].seen && rounds[k - 1].taken <= rounds[k].seen)
  }

  ghost predicate TaskInv(g: Gateway) {
    && RoundsInv(g.rounds, g.cell.version) && g.seen <= g.cell.version
    && (g.task.Noticed? ==> 1 <= g.seen)
    && (g.task.Noticed? && g.rounds != [] ==> Last(g.rounds).seen < g.seen && Last(g.rounds).taken <= g.seen)
    && (!g.task.Noticed? ==> if g.rounds == [] then g.seen == 0 else g.seen == Last(g.rounds).seen)
    && (g.task.Applying? ==>
          && g.rounds != [] && Last(g.rounds).taken <= |g.published|
          && g.task.pc.cfg == g.published[Last(g.rounds).taken - 1].cfg && WellFormed(g.task.pc.cfg)
          && !g.task.pc.StoringNotReady? && PcInv(g, g.task.pc))
    && (g.task.Waiting? && g.rounds != [] ==>
          && Last(g.rounds).taken <= |g.published| && g.proxy.ready
          && g.proxy.config == g.published[Last(g.rounds).taken - 1].cfg)
  }

  function Last(rounds: seq<Taken>): Taken
    requires rounds != []
  {
    rounds[|rounds| - 1]
  }

  ghost predicate ProxyInv(g: Gateway) {
    && WellFormed(g.proxy.config)
    && (forall i | 0 <= i < |g.accepted| :: WellFormed(g.accepted[i]))
    && (g.proxy.config == BOOTSTRAP || g.proxy.config in g.accepted)
    && (g.proxy.ready ==> g.proxy.config in g.accepted && g.proxy.conflicts == [])
  }

  ghost predicate AcceptedVersion(g: Gateway, version: string) {
    exists i | 0 <= i < |g.accepted| :: g.accepted[i].version == version
  }

  ghost predicate ReaderInv(g: Gateway, r: Reader) {
    match r
    case SawReady(ready) => ready ==> g.proxy.ready
    case SawVersion(ready, version) => ready ==> g.proxy.ready && AcceptedVersion(g, version)
    case SawAll(ready, version, conflicts) => ready ==> AcceptedVersion(g, version) && conflicts == []
  }

  ghost predicate RequestInv(g: Gateway, r: InFlight) {
    match r
    case Arrived(_) => true
    case Routing(cfg, _) => Held(g, cfg)
    case Picking(cfg, input, choice) => Held(g, cfg) && SafeChoice(cfg, input, choice)
    case Decided(cfg, input, d) => Held(g, cfg) && SafeDecision(cfg, input, d)
  }

  /** `cfg` is well formed, and is the bootstrap or was accepted. */
  ghost predicate Held(g: Gateway, cfg: RuntimeConfig) {
    WellFormed(cfg) && (cfg == BOOTSTRAP || cfg in g.accepted)
  }

  ghost predicate ReadersInv(g: Gateway) {
    forall id | id in g.readers :: ReaderInv(g, g.readers[id])
  }

  ghost predicate RequestsInv(g: Gateway) {
    forall id | id in g.requests :: RequestInv(g, g.requests[id])
  }

  ghost predicate Inv(g: Gateway) {
    CellInv(g) && MainInv(g) && TaskInv(g) && ProxyInv(g) && ReadersInv(g) && RequestsInv(g)
  }
}
