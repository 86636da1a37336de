/**
 The order in which configurations are applied: never backwards, and strictly forwards
 except for one race between the stream and the apply task.
 */
module ApplyOrder {
  import opened Config
  import opened Messages
  import opened Text
  import opened Discovery
  import opened Gateway
  import opened GatewayRuns

  // ---------- the order of applied configurations ----------

  /** The versions borrowed by successive rounds never go back, and each is a publication. */
  lemma {:induction false} AppliedFollowPublished(listenerNames: seq<string>, evs: seq<Event>, j: nat, k: nat)
    requires j <= k < |Run(listenerNames, evs).rounds|
    ensures var g := Run(listenerNames, evs); 1 <= g.rounds[j].taken <= g.rounds[k].taken <= |g.published|
    decreases k - j
  {
    EveryRunKeepsInv(listenerNames, evs);
    if j < k {
      AppliedFollowPublished(listenerNames, evs, j, k - 1);
    }
  }

  /** What a round applies is the publication it borrowed, from the borrow to the last write. */
  lemma {:induction false} RoundAppliesItsPublication(listenerNames: seq<string>, evs: seq<Event>)
    requires Run(listenerNames, evs).task.Applying?
    ensures var g := Run(listenerNames, evs);
      g.rounds != [] && 1 <= Last(g.rounds).taken <= |g.published| &&
      g.task.pc.cfg == g.published[Last(g.rounds).taken - 1].cfg && !g.task.pc.StoringNotReady?
  {
    EveryRunKeepsInv(listenerNames, evs);
  }

  // ---------- events of a run ----------

  /** The state before event `i`; after the last event, the final state. */
  function At(listenerNames: seq<string>, evs: seq<Event>, i: nat): Gateway
    requires i <= |evs|
  {
    Run(listenerNames, evs[..i])
  }

  lemma {:induction false} AtNext(listenerNames: seq<string>, evs: seq<Event>, i: nat)
    requires i < |evs|
    ensures At(listenerNames, evs, i + 1) == Next(listenerNames, At(listenerNames, evs, i), evs[i])
  {
    assert evs[..i + 1][..i] == evs[..i];
  }

  /** Event `i` puts a new configuration into the watch cell. */
  ghost predicate SendsAt(listenerNames: seq<string>, evs: seq<Event>, i: nat) {
    i < |evs| && At(listenerNames, evs, i + 1).cell.version != At(listenerNames, evs, i).cell.version
  }

  /**
   Event `i` does so while the apply task has been woken and has not yet borrowed; nothing is sent from then to `n`.
   */
  ghost predicate RacedUntil(listenerNames: seq<string>, evs: seq<Event>, i: nat, n: nat) {
    && i < n <= |evs| && SendsAt(listenerNames, evs, i) && At(listenerNames, evs, i).task.Noticed?
    && forall k | i < k < n :: !SendsAt(listenerNames, evs, k)
  }

  /** Event `j` borrows for a later round than the one that was woken before the racing send `i`. */
  ghost predicate Race(listenerNames: seq<string>, evs: seq<Event>, i: nat, j: nat) {
    && j < |evs| && RacedUntil(listenerNames, evs, i, j)
    && evs[j].TaskTurn? && At(listenerNames, evs, j).task.Noticed?
    && |At(listenerNames, evs, i).rounds| < |At(listenerNames, evs, j).rounds|
  }

  /** The versions applied by successive rounds strictly increase: a subsequence of the published ones. */
  ghost predicate Increasing(rounds: seq<Taken>) {
    forall k | 0 < k < |rounds| :: rounds[k - 1].taken < rounds[k].taken
  }

  // ---------- one event, as far as the order is concerned ----------

  ghost predicate TaskShape(g: Gateway, g': Gateway) {
    && g'.cell == g.cell
    && match g.task
       case Waiting => g'.rounds == g.rounds &&
         if g.seen == g.cell.version then g' == g else g'.task.Noticed? && g'.seen == g.cell.version
       case Noticed => g'.rounds == g.rounds + [Taken(g.seen, g.cell.version)] && g'.seen == g.seen && g'.task.Applying?
       case Applying(_) => g'.rounds == g.rounds && g'.seen == g.seen && !g'.task.Noticed?
  }

  /** What an event does to the cell's version, the task and its rounds. */
  ghost predicate Moves(g: Gateway, g': Gateway, ev: Event) {
    && g.cell.version <= g'.cell.version
    && if ev.TaskTurn? then TaskShape(g, g') else g'.task == g.task && g'.seen == g.seen && g'.rounds == g.rounds
  }

  lemma {:induction false} NextMoves(listenerNames: seq<string>, g: Gateway, ev: Event)
    ensures Moves(g, Next(listenerNames, g, ev), ev)
  {
  }

  lemma {:induction false} EventMoves(listenerNames: seq<string>, evs: seq<Event>, i: nat)
    requires i < |evs|
    ensures Moves(At(listenerNames, evs, i), At(listenerNames, evs, i + 1), evs[i])
  {
    AtNext(listenerNames, evs, i);
    NextMoves(listenerNames, At(listenerNames, evs, i), evs[i]);
  }

  /** What the invariant says of them. */
  ghost predicate Ordered(g: Gateway) {
    && g.seen <= g.cell.version && RoundsInv(g.rounds, g.cell.version)
    && (g.task.Noticed? && g.rounds != [] ==> Last(g.rounds).seen < g.seen && Last(g.rounds).taken <= g.seen)
  }

  lemma {:induction false} EveryRunIsOrdered(listenerNames: seq<string>, evs: seq<Event>, i: nat)
    requires i <= |evs|
    ensures Ordered(At(listenerNames, evs, i))
  {
    EveryRunKeepsInv(listenerNames, evs[..i]);
  }

  // ---------- a race repeats a version ----------

  /** After a racing send: its round applies it, the next round applies it again, and then the task is up to date. */
  ghost predicate AfterRacing(g: Gateway, rounds: nat) {
    && rounds <= |g.rounds|
    && (|g.rounds| == rounds ==> g.task.Noticed? && g.seen < g.cell.version)
    && (|g.rounds| == rounds + 1 ==> Last(g.rounds).taken == g.cell.version)
    && (|g.rounds| >= rounds + 2 ==> !g.task.Noticed? && g.seen == g.cell.version)
  }

  lemma {:induction false} RacingStep(g: Gateway, g': Gateway, ev: Event, rounds: nat)
    requires AfterRacing(g, rounds) && Ordered(g) && Moves(g, g', ev) && g'.cell.version == g.cell.version
    ensures AfterRacing(g', rounds)
  {
  }

  lemma {:induction false} RacingStart(g: Gateway, g': Gateway, ev: Event)
    requires g.task.Noticed? && Ordered(g) && Moves(g, g', ev) && g'.cell.version != g.cell.version
    ensures AfterRacing(g', |g.rounds|)
  {
  }

  lemma {:induction false} RaceLeads(listenerNames: seq<string>, evs: seq<Event>, i: nat, n: nat)
    requires RacedUntil(listenerNames, evs, i, n)
    ensures AfterRacing(At(listenerNames, evs, n), |At(listenerNames, evs, i).rounds|)
    decreases n
  {
    var g, g' := At(listenerNames, evs, n - 1), At(listenerNames, evs, n);
    EveryRunIsOrdered(listenerNames, evs, n - 1);
    EventMoves(listenerNames, evs, n - 1);
    if i == n - 1 {
      RacingStart(g, g', evs[i]);
    } else {
      RaceLeads(listenerNames, evs, i, n - 1);
      assert !SendsAt(listenerNames, evs, n - 1);
      RacingStep(g, g', evs[n - 1], |At(listenerNames, evs, i).rounds|);
    }
  }

  lemma {:induction false} RoundsGrow(listenerNames: seq<string>, evs: seq<Event>, i: nat, n: nat)
    requires i <= n <= |evs|
    ensures At(listenerNames, evs, i).rounds <= At(listenerNames, evs, n).rounds
    decreases n
  {
    if i < n {
      RoundsGrow(listenerNames, evs, i, n - 1);
      EventMoves(listenerNames, evs, n - 1);
    }
  }

  lemma {:induction false} RacingBorrow(g: Gateway, g': Gateway, ev: Event, rounds: nat, end: seq<Taken>)
    requires AfterRacing(g, rounds) && rounds < |g.rounds| && Moves(g, g', ev) && ev.TaskTurn? && g.task.Noticed?
    requires g'.rounds <= end
    ensures !Increasing(end)
  {
    var k := |g.rounds|;
    assert end[k - 1] == g'.rounds[k - 1] && end[k] == g'.rounds[k];
  }

  lemma {:induction false} RaceRepeats(listenerNames: seq<string>, evs: seq<Event>, i: nat, j: nat)
    requires Race(listenerNames, evs, i, j)
    ensures !Increasing(At(listenerNames, evs, |evs|).rounds)
  {
    RaceLeads(listenerNames, evs, i, j);
    EventMoves(listenerNames, evs, j);
    RoundsGrow(listenerNames, evs, j + 1, |evs|);
    RacingBorrow(At(listenerNames, evs, j), At(listenerNames, evs, j + 1), evs[j],
                 |At(listenerNames, evs, i).rounds|, At(listenerNames, evs, |evs|).rounds);
  }

  // ---------- a repeated version comes from a race ----------

  lemma {:induction false} StillRaced(listenerNames: seq<string>, evs: seq<Event>, i: nat, n: nat)
    requires RacedUntil(listenerNames, evs, i, n) && n < |evs| && !SendsAt(listenerNames, evs, n)
    ensures RacedUntil(listenerNames, evs, i, n + 1)
  {
  }

  /** A woken task that is behind the cell was overtaken by the last send. */
  lemma {:induction false} OvertakenBy(listenerNames: seq<string>, evs: seq<Event>, n: nat) returns (i: nat)
    requires n <= |evs|
    requires var g := At(listenerNames, evs, n); g.task.Noticed? && g.seen < g.cell.version
    ensures RacedUntil(listenerNames, evs, i, n)
    ensures |At(listenerNames, evs, i).rounds| == |At(listenerNames, evs, n).rounds|
    decreases n
  {
    assert n > 0;
    EventMoves(listenerNames, evs, n - 1);
    if SendsAt(listenerNames, evs, n - 1) {
      i := n - 1;
    } else {
      i := OvertakenBy(listenerNames, evs, n - 1);
      StillRaced(listenerNames, evs, i, n - 1);
    }
  }

  /** A last round that borrowed more than woke it, and is still the latest, was overtaken by the last send. */
  lemma {:induction false} BorrowedAhead(listenerNames: seq<string>, evs: seq<Event>, n: nat) returns (i: nat)
    requires n <= |evs|
    requires var g := At(listenerNames, evs, n);
      g.rounds != [] && Last(g.rounds).seen < Last(g.rounds).taken == g.cell.version
    ensures RacedUntil(listenerNames, evs, i, n)
    ensures |At(listenerNames, evs, i).rounds| < |At(listenerNames, evs, n).rounds|
    decreases n
  {
    assert n > 0;
    var g := At(listenerNames, evs, n - 1);
    EveryRunIsOrdered(listenerNames, evs, n - 1);
    EventMoves(listenerNames, evs, n - 1);
    if evs[n - 1].TaskTurn? && g.task.Noticed? {
      i := OvertakenBy(listenerNames, evs, n - 1);
    } else {
      i := BorrowedAhead(listenerNames, evs, n - 1);
    }
    StillRaced(listenerNames, evs, i, n - 1);
  }

  lemma {:induction false} FirstRepeat(g: Gateway, g': Gateway, ev: Event)
    requires Ordered(g) && Moves(g, g', ev) && Increasing(g.rounds) && !Increasing(g'.rounds)
    ensures ev.TaskTurn? && g.task.Noticed?
    ensures g.rounds != [] && Last(g.rounds).seen < Last(g.rounds).taken == g.cell.version
  {
  }

  lemma {:induction false} FirstRepeatRaces(listenerNames: seq<string>, evs: seq<Event>, j: nat) returns (i: nat)
    requires j < |evs| && Increasing(At(listenerNames, evs, j).rounds)
    requires !Increasing(At(listenerNames, evs, j + 1).rounds)
    ensures Race(listenerNames, evs, i, j)
  {
    EveryRunIsOrdered(listenerNames, evs, j);
    EventMoves(listenerNames, evs, j);
    FirstRepeat(At(listenerNames, evs, j), At(listenerNames, evs, j + 1), evs[j]);
    i := BorrowedAhead(listenerNames, evs, j);
  }

  lemma {:induction false} StartsWithoutRounds(listenerNames: seq<string>, evs: seq<Event>)
    ensures At(listenerNames, evs, 0).rounds == []
  {
  }

  lemma {:induction false} RepeatHasRace(listenerNames: seq<string>, evs: seq<Event>, n: nat) returns (i: nat, j: nat)
    requires n <= |evs| && !Increasing(At(listenerNames, evs, n).rounds)
    ensures Race(listenerNames, evs, i, j)
    decreases n
  {
    StartsWithoutRounds(listenerNames, evs);
    if Increasing(At(listenerNames, evs, n - 1).rounds) {
      j := n - 1;
      i := FirstRepeatRaces(listenerNames, evs, j);
    } else {
      i, j := RepeatHasRace(listenerNames, evs, n - 1);
    }
  }

  /**
   The versions applied strictly increase if and only if no configuration is sent while the apply task stands between
   wake-up and borrow and is then still the latest at the borrow of a later round.
   */
  lemma {:induction false} IncreasingIffNoRace(listenerNames: seq<string>, evs: seq<Event>)
    ensures Increasing(Run(listenerNames, evs).rounds) <==> forall i: nat, j: nat :: !Race(listenerNames, evs, i, j)
  {
    assert evs[..|evs|] == evs;
    if !Increasing(Run(listenerNames, evs).rounds) {
      var i, j := RepeatHasRace(listenerNames, evs, |evs|);
    }
    forall i: nat, j: nat | Race(listenerNames, evs, i, j) ensures !Increasing(At(listenerNames, evs, |evs|).rounds) {
      RaceRepeats(listenerNames, evs, i, j);
    }
  }

  // ---------- a run with the race ----------

  /** A response of a type the client does not know: it only sets the configuration's version. */
  function Ping(version: string): Response {
    Response(OtherType(""), version, "", [])
  }

  lemma {:induction false} PingPublishes(g: Gateway, version: string)
    requires g.main == Started && g.link.Up? && version != "" && g.cell.value.version != version
    requires g.link.ads == Connect([], g.cell).ads
    ensures var g' := ReceiveStep(g, Ping(version));
      && g' == g.(link := g'.link, cell := Cell(EmptyConfig(version), g.cell.version + 1), published := g'.published)
      && g'.link.Up? && g'.link.ads == g.link.ads
  {
    var ads := g.link.ads;
    assert Apply(ads, NoUpdate("")) == ads && Resubscribe(ads, OtherType("")) == ads;
    assert Sorted({}) == [];
    assert ListenersOf(map[], map[]) == [] && ClustersOf(map[], map[]) == [];
    assert ConfigOf(ads, version) == EmptyConfig(version);
    EmptyConfigIsWellFormed(version);
    ConflictsExact(EmptyConfig(version));
  }

  lemma {:induction false} OneMore(listenerNames: seq<string>, evs: seq<Event>, ev: Event)
    ensures Run(listenerNames, evs + [ev]) == Next(listenerNames, Run(listenerNames, evs), ev)
  {
    assert (evs + [ev])[..|evs|] == evs;
  }

  lemma {:induction false} OneTaskTurn(listenerNames: seq<string>, evs: seq<Event>)
    ensures Run(listenerNames, evs + [TaskTurn]) == TaskStep(Run(listenerNames, evs))
  {
    OneMore(listenerNames, evs, TaskTurn);
  }

  /** The apply task borrowing and writing one valid configuration: four turns back to waiting. */
  lemma {:induction false} FourTurns(g: Gateway)
    requires g.task.Noticed? && WellFormed(g.cell.value)
    ensures var g' := TaskStep(TaskStep(TaskStep(TaskStep(g))));
      && g'.task.Waiting? && g'.rounds == g.rounds + [Taken(g.seen, g.cell.version)]
      && g'.seen == g.seen && g'.cell == g.cell
  {
    ConflictsExact(g.cell.value);
  }

  lemma {:induction false} OneRound(listenerNames: seq<string>, evs: seq<Event>) returns (more: seq<Event>)
    requires var g := Run(listenerNames, evs); g.task.Noticed? && WellFormed(g.cell.value)
    ensures var g, g' := Run(listenerNames, evs), Run(listenerNames, more);
      && g'.task.Waiting? && g'.rounds == g.rounds + [Taken(g.seen, g.cell.version)]
      && g'.seen == g.seen && g'.cell == g.cell
  {
    FourTurns(Run(listenerNames, evs));
    more := evs + [TaskTurn];
    OneTaskTurn(listenerNames, evs);
    OneTaskTurn(listenerNames, more);
    OneTaskTurn(listenerNames, more + [TaskTurn]);
    OneTaskTurn(listenerNames, more + [TaskTurn] + [TaskTurn]);
    more := more + [TaskTurn] + [TaskTurn] + [TaskTurn];
  }

  /** A fresh stream, with the apply task waiting and nothing published. */
  ghost predicate Opened(g: Gateway) {
    g.main == Started && g.link == Up(Connect([], g.cell).ads, []) && g.cell == Cell(BOOTSTRAP, 0)
    && g.task == Waiting && g.seen == 0 && g.rounds == []
  }

  lemma {:induction false} Opening() returns (evs: seq<Event>)
    ensures Opened(Run([], evs))
  {
    evs := [NoStatic];
    OneMore([], [], NoStatic);
    assert [] + [NoStatic] == evs;
    OneMore([], evs, Connected);
    evs := evs + [Connected];
  }

  /** A publication, a wake-up, and a second publication before the borrow. */
  lemma {:induction false} RaceStart() returns (evs: seq<Event>)
    ensures var g := Run([], evs);
      g.task == Noticed && g.seen == 1 && g.rounds == [] && g.cell == Cell(EmptyConfig("b"), 2)
  {
    evs := Opening();
    PingPublishes(Run([], evs), "a");
    OneMore([], evs, Received(Ping("a")));
    evs := evs + [Received(Ping("a"))];
    OneTaskTurn([], evs);
    evs := evs + [TaskTurn];
    PingPublishes(Run([], evs), "b");
    OneMore([], evs, Received(Ping("b")));
    evs := evs + [Received(Ping("b"))];
  }

  /** Two versions published, the second between wake-up and borrow: the second is applied twice. */
  lemma {:induction false} SameConfigCanBeAppliedTwice() returns (evs: seq<Event>)
    ensures Run([], evs).rounds == [Taken(1, 2), Taken(2, 2)]
  {
    var start := RaceStart();
    EmptyConfigIsWellFormed("b");
    evs := OneRound([], start);
    OneTaskTurn([], evs);
    OneTaskTurn([], evs + [TaskTurn]);
    evs := evs + [TaskTurn] + [TaskTurn];
  }
}
