/** The proxy's shared state as it runs, and the forwarding path over it. */
module Proxy {
  import opened Wrappers
  import opened Config
  import opened Tickets
  import opened Picker
  import opened Forwarding

  /** The wrapping `sum()` of the weights. */
  method TotalWeight(ws: seq<WeightedCluster>) returns (total: u32)
    ensures total == WrappedSum(ws)
  {
    total := 0;
    for i := 0 to |ws|
      invariant total == WrappedSum(ws[..i])
    {
      assert ws[..i + 1][..i] == ws[..i];
      total := (total + ws[i].weight) % U32;
    }
    assert ws[..|ws|] == ws;
  }

  /** The `find` whose closure advances a wrapping cursor. */
  method FindByCursor(ws: seq<WeightedCluster>, next: nat) returns (pick: Option<nat>)
    ensures pick == FindFrom(ws, next, 0)
  {
    var cursor: u32 := 0;
    for i := 0 to |ws|
      invariant cursor == Running(ws, i)
      invariant FindFrom(ws, next, 0) == FindFrom(ws, next, i)
    {
      RunningNext(ws, i);
      cursor := (cursor + ws[i].weight) % U32;
      if next < cursor {
        return Some(i);
      }
    }
    pick := None;
  }

  class ProxyState {
    var config: RuntimeConfig
    var conflicts: seq<Conflict>
    var ready: bool
    var pickerCounter: u64

    constructor (initial: RuntimeConfig)
      ensures config == initial && conflicts == [] && !ready && pickerCounter == 0
    {
      config, conflicts, ready, pickerCounter := initial, [], false, 0;
    }

    /** A well-formed configuration replaces the current one; any other leaves it serving and clears readiness. */
    method ApplyConfig(cfg: RuntimeConfig) returns (r: Result<(), seq<Conflict>>)
      modifies this
      ensures pickerCounter == old(pickerCounter)
      ensures WellFormed(cfg) ==> r.Ok? && config == cfg && conflicts == [] && ready
      ensures !WellFormed(cfg) ==>
        r == Err(Conflicts(cfg)) && config == old(config) && conflicts == Conflicts(cfg) && !ready
    {
      r := Validate(cfg);
      match r
      case Ok(_) =>
        config := cfg;
        conflicts := [];
        ready := true;
      case Err(found) =>
        conflicts := found;
        ready := false;
    }

    /** `pick_cluster`, with its wrapping sum and the cursor that the search advances. */
    method ChooseWeighted(ws: seq<WeightedCluster>) returns (pick: Option<nat>)
      modifies this`pickerCounter
      ensures (pick, pickerCounter) == PickCluster(ws, old(pickerCounter))
      ensures ws != [] ==> pick.Some?
    {
      if ws != [] { PickIsTotal(ws, pickerCounter); }
      var total := TotalWeight(ws);
      if total == 0 {
        return if ws == [] then None else Some(0);
      }
      var next := (pickerCounter % U32) % total;
      RemIsMod(pickerCounter % U32, total);
      pickerCounter := if pickerCounter + 1 == U64 then 0 else pickerCounter + 1;
      pick := FindByCursor(ws, next);
    }

    /** `pick_endpoint`: a position among the healthy endpoints, or none. */
    method ChooseHealthy(es: seq<Endpoint>) returns (slot: Option<nat>)
      modifies this`pickerCounter
      ensures (slot, pickerCounter) == PickEndpoint(es, old(pickerCounter))
    {
      var healthy := Healthy(es);
      if healthy == [] {
        return None;
      }
      RemIsMod(pickerCounter, |healthy|);
      slot := Some(pickerCounter % |healthy|);
      pickerCounter := if pickerCounter + 1 == U64 then 0 else pickerCounter + 1;
    }
  }

  /** `forward` up to the upstream call. */
  method Forward(state: ProxyState, req: HttpRequest) returns (d: Decision)
    modifies state`pickerCounter
    ensures (d, state.pickerCounter) == Decide(state.config, InputOf(req), old(state.pickerCounter))
    ensures WellFormed(state.config) ==> SafeDecision(state.config, InputOf(req), d)
  {
    var cfg := state.config;
    var input := InputOf(req);
    if WellFormed(cfg) {
      ChoiceIsSafe(cfg, input, state.pickerCounter);
      var (choice, counter) := ChooseCluster(cfg, input, state.pickerCounter);
      DecisionIsSafe(cfg, input, choice, counter);
    }
    var route := RouteFor(cfg, HTTP_LISTENER_PORT, input);
    if route.None? {
      return RouteNotFound;
    }
    var ws := route.value.weightedClusters;
    var pick := state.ChooseWeighted(ws);
    if pick.None? {
      return RouteHasNoClusters;
    }
    var cluster := FindCluster(cfg.clusters, ws[pick.value].name);
    if cluster.None? {
      return ClusterNotFound(ws[pick.value].name);
    }
    var slot := state.ChooseHealthy(cluster.value.endpoints);
    if slot.None? {
      return NoHealthyEndpoints(cluster.value);
    }
    d := Dispatch(pick.value, cluster.value, slot.value, Healthy(cluster.value.endpoints)[slot.value]);
  }
}
