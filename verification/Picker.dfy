/** The two pickers that share one wrapping counter, and the shares they give. */
module Picker {
  import opened Wrappers
  import opened Config
  import opened Messages
  import opened Endpoints
  import opened Tickets

  const U32: nat := 0x1_0000_0000
  const U64: nat := 0x1_0000_0000_0000_0000

  type u64 = x: int | 0 <= x < 0x1_0000_0000_0000_0000

  /** `fetch_add(1)` on the 64-bit counter, which wraps. */
  function Advance(c: u64): u64 {
    if c + 1 == U64 then 0 else c + 1
  }

  /** Weight sums as a release build computes them: 32-bit, wrapping. */
  function WrappedSum(ws: seq<WeightedCluster>): u32 {
    if ws == [] then 0 else (WrappedSum(ws[..|ws| - 1]) + ws[|ws| - 1].weight) % U32
  }

  function Sum(ws: seq<WeightedCluster>): nat {
    if ws == [] then 0 else Sum(ws[..|ws| - 1]) + ws[|ws| - 1].weight
  }

  /** The cursor after the first `j` clusters. */
  function Running(ws: seq<WeightedCluster>, j: nat): u32
    requires j <= |ws|
  {
    WrappedSum(ws[..j])
  }

  lemma {:induction false} RunningNext(ws: seq<WeightedCluster>, j: nat)
    requires j < |ws|
    ensures Running(ws, j + 1) == (Running(ws, j) + ws[j].weight) % U32
  {
    assert ws[..j + 1][..j] == ws[..j];
  }

  /** The first index from `i` on whose running sum exceeds `next`. */
  function FindFrom(ws: seq<WeightedCluster>, next: nat, i: nat): (r: Option<nat>)
    requires i <= |ws|
    ensures r.Some? ==> i <= r.value < |ws|
    decreases |ws| - i
  {
    if i == |ws| then None
    else if next < Running(ws, i + 1) then Some(i)
    else FindFrom(ws, next, i + 1)
  }

  /** `pick_cluster`: the index chosen and the counter afterwards. `Rem` is `%` (`RemIsMod`). */
  function PickCluster(ws: seq<WeightedCluster>, c: u64): (r: (Option<nat>, u64))
    ensures r.0.Some? ==> r.0.value < |ws|
  {
    var total := WrappedSum(ws);
    if total == 0 then (if ws == [] then None else Some(0), c)
    else (FindFrom(ws, Rem(c % U32, total), 0), Advance(c))
  }

  ghost predicate NoneExceeds(ws: seq<WeightedCluster>, next: nat, i: nat, k: nat)
    requires k <= |ws|
  {
    forall j: nat | i < j <= k :: Running(ws, j) <= next
  }

  lemma {:induction false} FindFromIsFirst(ws: seq<WeightedCluster>, next: nat, i: nat)
    requires i <= |ws|
    ensures match FindFrom(ws, next, i)
      case None => NoneExceeds(ws, next, i, |ws|)
      case Some(k) => i <= k < |ws| && next < Running(ws, k + 1) && NoneExceeds(ws, next, i, k)
    decreases |ws| - i
  {
    if i < |ws| && !(next < Running(ws, i + 1)) { FindFromIsFirst(ws, next, i + 1); }
  }

  lemma {:induction false} PickStartsBelow(ws: seq<WeightedCluster>, next: nat, k: nat)
    requires FindFrom(ws, next, 0) == Some(k)
    ensures k < |ws| && Running(ws, k) <= next < Running(ws, k + 1) && NoneExceeds(ws, next, 0, k)
  {
    FindFromIsFirst(ws, next, 0);
    assert Running(ws, 0) == 0;
    assert k > 0 ==> Running(ws, k) <= next;
  }

  lemma {:induction false} FindIsTotal(ws: seq<WeightedCluster>, next: nat)
    requires next < WrappedSum(ws)
    ensures var pick := FindFrom(ws, next, 0); pick.Some? && pick.value < |ws| && ws[pick.value].weight > 0
  {
    FindFromIsFirst(ws, next, 0);
    assert ws[..|ws|] == ws && Running(ws, |ws|) == WrappedSum(ws);
    if FindFrom(ws, next, 0).Some? {
      var k := FindFrom(ws, next, 0).value;
      PickStartsBelow(ws, next, k);
      RunningNext(ws, k);
    }
  }

  lemma {:induction false} WrappedIsSum(ws: seq<WeightedCluster>)
    ensures WrappedSum(ws) == Sum(ws) % U32
  {
    if ws != [] {
      WrappedIsSum(ws[..|ws| - 1]);
      AddToRemainder(Sum(ws[..|ws| - 1]), ws[|ws| - 1].weight);
    }
  }

  lemma {:induction false} AddToRemainder(x: nat, y: nat)
    ensures (x % U32 + y) % U32 == (x + y) % U32
  {
  }

  /**
   On an empty list nothing is picked. Otherwise an element is: the first one, without a ticket, if the wrapped total is
   zero; else the first whose running sum, wrapped, exceeds the ticket modulo the wrapped total, and it has a weight.
   */
  lemma {:induction false} PickIsTotal(ws: seq<WeightedCluster>, c: u64)
    ensures var total, (pick, c') := Sum(ws) % U32, PickCluster(ws, c);
      && (ws == [] ==> pick == None && c' == c)
      && (ws != [] && total == 0 ==> pick == Some(0) && c' == c)
      && (total != 0 ==>
            && pick.Some? && ws[pick.value].weight > 0 && c' == Advance(c)
            && (c % U32) % total < Sum(ws[..pick.value + 1]) % U32
            && forall j: nat | j <= pick.value :: Sum(ws[..j]) % U32 <= (c % U32) % total)
  {
    var total := WrappedSum(ws);
    WrappedIsSum(ws);
    if total != 0 {
      var next := Rem(c % U32, total);
      RemIsMod(c % U32, total);
      FindIsTotal(ws, next);
      var k := FindFrom(ws, next, 0).value;
      PickStartsBelow(ws, next, k);
      WrappedIsSum(ws[..k + 1]);
      forall j: nat | j <= k ensures Sum(ws[..j]) % U32 <= next {
        WrappedIsSum(ws[..j]);
        assert j > 0 ==> Running(ws, j) <= next;
      }
    }
  }

  // ---------- without overflow, a pick is an interval of residues ----------

  lemma {:induction false} SumMonotone(ws: seq<WeightedCluster>, i: nat, j: nat)
    requires i <= j <= |ws|
    ensures Sum(ws[..i]) <= Sum(ws[..j])
    decreases j - i
  {
    if i < j {
      assert ws[..j][..j - 1] == ws[..j - 1];
      SumMonotone(ws, i, j - 1);
    }
  }

  lemma {:induction false} NoWrap(ws: seq<WeightedCluster>)
    requires Sum(ws) < U32
    ensures WrappedSum(ws) == Sum(ws)
  {
    if ws != [] { NoWrap(ws[..|ws| - 1]); }
  }

  lemma {:induction false} PrefixNoWrap(ws: seq<WeightedCluster>, i: nat)
    requires Sum(ws) < U32 && i <= |ws|
    ensures Running(ws, i) == Sum(ws[..i]) <= Sum(ws)
  {
    SumMonotone(ws, i, |ws|);
    assert ws[..|ws|] == ws;
    NoWrap(ws[..i]);
  }

  /** The residues that choose cluster `i`. */
  function Low(ws: seq<WeightedCluster>, i: nat): nat
    requires i < |ws|
  {
    Sum(ws[..i])
  }

  function High(ws: seq<WeightedCluster>, i: nat): nat
    requires i < |ws|
  {
    Low(ws, i) + ws[i].weight
  }

  lemma {:induction false} IntervalBounds(ws: seq<WeightedCluster>, i: nat)
    requires i < |ws|
    ensures Low(ws, i) <= High(ws, i) <= Sum(ws) && Sum(ws[..i + 1]) == High(ws, i)
  {
    assert ws[..i + 1][..i] == ws[..i] && ws[..|ws|] == ws;
    SumMonotone(ws, i + 1, |ws|);
  }

  lemma {:induction false} PickIsInterval(ws: seq<WeightedCluster>, next: nat, i: nat)
    requires Sum(ws) < U32 && i < |ws|
    ensures FindFrom(ws, next, 0) == Some(i) <==> Low(ws, i) <= next < High(ws, i)
  {
    IntervalBounds(ws, i);
    PrefixNoWrap(ws, i);
    PrefixNoWrap(ws, i + 1);
    FindFromIsFirst(ws, next, 0);
    match FindFrom(ws, next, 0)
    case None =>
      assert Running(ws, i + 1) <= next;
    case Some(k) =>
      PickStartsBelow(ws, next, k);
      PrefixNoWrap(ws, k);
      PrefixNoWrap(ws, k + 1);
      if k < i {
        SumMonotone(ws, k + 1, i);
      } else if i < k {
        assert Running(ws, i + 1) <= next;
      }
  }

  // ---------- consecutive calls of pick_cluster alone ----------

  function Picks(ws: seq<WeightedCluster>, c: u64, n: nat): seq<Option<nat>>
    decreases n
  {
    if n == 0 then [] else
      var (pick, c') := PickCluster(ws, c);
      [pick] + Picks(ws, c', n - 1)
  }

  function Count(picks: seq<Option<nat>>, i: nat): nat {
    if picks == [] then 0 else (if picks[0] == Some(i) then 1 else 0) + Count(picks[1..], i)
  }

  /** The next `n` tickets do not cross a multiple of 2^32. */
  predicate Uncrossed(c: u64, n: nat) {
    c % U32 + n <= U32
  }

  lemma {:induction false} AdvanceUncrossed(c: u64, n: nat)
    requires Uncrossed(c, n) && 0 < n && c % U32 + 1 < U32
    ensures Advance(c) == c + 1 && Advance(c) % U32 == c % U32 + 1
  {
  }

  lemma {:induction false} OnePick(ws: seq<WeightedCluster>, c: u64, n: nat, i: nat)
    requires 0 < Sum(ws) < U32 && i < |ws| && n > 0
    ensures Count(Picks(ws, c, n), i) ==
      (if Hit(c % U32, Sum(ws), Low(ws, i), High(ws, i)) then 1 else 0) + Count(Picks(ws, Advance(c), n - 1), i)
  {
    NoWrap(ws);
    PickIsInterval(ws, Rem(c % U32, Sum(ws)), i);
    assert Picks(ws, c, n)[1..] == Picks(ws, Advance(c), n - 1);
  }

  lemma {:induction false} PicksAreHits(ws: seq<WeightedCluster>, c: u64, n: nat, i: nat)
    requires 0 < Sum(ws) < U32 && i < |ws| && Uncrossed(c, n)
    ensures Count(Picks(ws, c, n), i) == Hits(c % U32, 1, n, Sum(ws), Low(ws, i), High(ws, i))
    decreases n
  {
    if n > 0 {
      OnePick(ws, c, n, i);
      if n > 1 {
        AdvanceUncrossed(c, n);
        PicksAreHits(ws, Advance(c), n - 1, i);
      }
    }
  }

  /** Exact weighted round robin: a full turn of calls chooses each cluster exactly its weight's number of times. */
  lemma {:induction false} ExactRoundRobin(ws: seq<WeightedCluster>, c: u64, i: nat)
    requires 0 < Sum(ws) < U32 && i < |ws| && Uncrossed(c, Sum(ws))
    ensures Count(Picks(ws, c, Sum(ws)), i) == ws[i].weight
  {
    PicksAreHits(ws, c, Sum(ws), i);
    IntervalBounds(ws, i);
    FullPeriod(c % U32, Sum(ws), Low(ws, i), High(ws, i));
  }

  /** Any number of calls stays between the floor and the ceiling of its share. */
  lemma {:induction false} FairShare(ws: seq<WeightedCluster>, c: u64, n: nat, i: nat, q: nat)
    requires 0 < Sum(ws) < U32 && i < |ws| && Uncrossed(c, n)
    requires q * Sum(ws) <= n < q * Sum(ws) + Sum(ws)
    ensures q * ws[i].weight <= Count(Picks(ws, c, n), i) <= (if n == q * Sum(ws) then q else q + 1) * ws[i].weight
  {
    PicksAreHits(ws, c, n, i);
    IntervalBounds(ws, i);
    PartialPeriods(c % U32, n, q, Sum(ws), Low(ws, i), High(ws, i));
  }

  /** Crossing a multiple of 2^32 breaks exactness: weights 2 and 1 then give 3 and 0. */
  lemma {:induction false} CrossingBreaksExactness()
    ensures var ws := [WeightedCluster("a", 2), WeightedCluster("b", 1)];
      Sum(ws) == 3 && !Uncrossed(U32 - 1, 3) && Count(Picks(ws, U32 - 1, 3), 0) == 3
  {
    var a, b := WeightedCluster("a", 2), WeightedCluster("b", 1);
    var ws := [a, b];
    assert ws[..1] == [a] && ws[..2] == ws && [a][..0] == [];
    assert Sum([a]) == 2 && Sum(ws) == 3;
    NoWrap(ws);
    PickIsInterval(ws, 0, 0);
    PickIsInterval(ws, 1, 0);
    assert Low(ws, 0) == 0 && High(ws, 0) == 2;
    assert U32 - 1 == 3 * 0x5555_5555;
    RemIsMod(U32 - 1, 3);
    assert PickCluster(ws, U32 - 1) == (Some(0), U32);
    assert PickCluster(ws, U32) == (Some(0), U32 + 1);
    assert PickCluster(ws, U32 + 1) == (Some(0), U32 + 2);
    assert Picks(ws, U32 + 1, 1) == [Some(0)];
    assert Picks(ws, U32, 2) == [Some(0), Some(0)];
    assert Picks(ws, U32 - 1, 3) == [Some(0), Some(0), Some(0)];
    var one: seq<Option<nat>> := [Some(0)];
    assert Count(one, 0) == 1 && (one + one)[1..] == one && (one + one + one)[1..] == one + one;
  }

  // ---------- exactness from every counter value ----------

  lemma {:induction false} AdvanceAcross(c: u64, r: nat)
    requires c % U32 == r
    ensures Advance(c) % U32 == if r + 1 < U32 then r + 1 else 0
  {
  }

  /** Calls that cross a multiple of 2^32: the tickets from `s` up to it, then those from zero. */
  lemma {:induction false} PicksAcross(ws: seq<WeightedCluster>, c: u64, s: nat, n: nat, i: nat)
    requires 0 < Sum(ws) < U32 && i < |ws| && c % U32 == s && U32 - s <= n <= U32
    ensures Count(Picks(ws, c, n), i) == RestartHits(s, U32, n, Sum(ws), Low(ws, i), High(ws, i))
    decreases U32 - s
  {
    OnePick(ws, c, n, i);
    AdvanceAcross(c, s);
    RestartStep(s, U32, n, Sum(ws), Low(ws, i), High(ws, i));
    if s + 1 == U32 {
      PicksAreHits(ws, Advance(c), n - 1, i);
    } else {
      PicksAcross(ws, Advance(c), s + 1, n - 1, i);
    }
  }

  /** At most one cluster has a positive weight. */
  ghost predicate LoneWeight(ws: seq<WeightedCluster>) {
    exists p: nat | p < |ws| :: OnlyWeight(ws, p)
  }

  ghost predicate OnlyWeight(ws: seq<WeightedCluster>, p: nat) {
    forall i | 0 <= i < |ws| && i != p :: ws[i].weight == 0
  }

  /** From every counter value, a full turn of calls gives each cluster exactly its weight. */
  ghost predicate AlwaysExact(ws: seq<WeightedCluster>) {
    forall c: u64, i: nat | i < |ws| :: Count(Picks(ws, c, Sum(ws)), i) == ws[i].weight
  }

  lemma {:induction false} ZeroPrefix(ws: seq<WeightedCluster>, j: nat)
    requires j <= |ws| && forall i | 0 <= i < j :: ws[i].weight == 0
    ensures Sum(ws[..j]) == 0
    decreases j
  {
    if j > 0 {
      ZeroPrefix(ws, j - 1);
      assert ws[..j][..j - 1] == ws[..j - 1];
    }
  }

  lemma {:induction false} ZeroIfSumZero(ws: seq<WeightedCluster>, j: nat, i: nat)
    requires i < j <= |ws| && Sum(ws[..j]) == 0
    ensures ws[i].weight == 0
    decreases j
  {
    assert ws[..j][..j - 1] == ws[..j - 1];
    if i < j - 1 { ZeroIfSumZero(ws, j - 1, i); }
  }

  /** The last cluster of positive weight: its residues reach up to the total. */
  lemma {:induction false} LastPositive(ws: seq<WeightedCluster>, n: nat) returns (p: nat)
    requires n <= |ws| && Sum(ws[..n]) > 0 && forall i | n <= i < |ws| :: ws[i].weight == 0
    ensures p < |ws| && ws[p].weight > 0 && High(ws, p) == Sum(ws[..n])
    ensures forall i | p < i < |ws| :: ws[i].weight == 0
    decreases n
  {
    assert n > 0;
    assert ws[..n][..n - 1] == ws[..n - 1];
    if ws[n - 1].weight > 0 {
      p := n - 1;
    } else {
      p := LastPositive(ws, n - 1);
    }
  }

  lemma {:induction false} ExactWhenDividing(ws: seq<WeightedCluster>, c: u64, i: nat)
    requires 0 < Sum(ws) < U32 && U32 % Sum(ws) == 0 && i < |ws|
    ensures Count(Picks(ws, c, Sum(ws)), i) == ws[i].weight
  {
    var k := U32 - c % U32;
    IntervalBounds(ws, i);
    if k < Sum(ws) {
      PicksAcross(ws, c, U32 - k, Sum(ws), i);
      RestartAtMultiple(U32, k, Sum(ws), Low(ws, i), High(ws, i));
    } else {
      ExactRoundRobin(ws, c, i);
    }
  }

  lemma {:induction false} LoneBounds(ws: seq<WeightedCluster>, p: nat)
    requires p < |ws| && OnlyWeight(ws, p)
    ensures Low(ws, p) == 0 && High(ws, p) == Sum(ws)
  {
    ZeroPrefix(ws, p);
    if ws[p].weight > 0 {
      IntervalBounds(ws, p);
      assert ws[..|ws|] == ws;
      TailIsZero(ws, p + 1);
    } else {
      ZeroPrefix(ws, |ws|);
      assert ws[..|ws|] == ws;
    }
  }

  lemma {:induction false} TailIsZero(ws: seq<WeightedCluster>, j: nat)
    requires j <= |ws| && forall i | j <= i < |ws| :: ws[i].weight == 0
    ensures Sum(ws) == Sum(ws[..j])
    decreases |ws| - j
  {
    if j < |ws| {
      TailIsZero(ws, j + 1);
      assert ws[..j + 1][..j] == ws[..j];
    } else {
      assert ws[..j] == ws;
    }
  }

  lemma {:induction false} LonePicks(ws: seq<WeightedCluster>, c: u64, n: nat, i: nat, p: nat)
    requires 0 < Sum(ws) < U32 && i < |ws| && p < |ws| && OnlyWeight(ws, p)
    ensures Count(Picks(ws, c, n), i) == if i == p then n else 0
    decreases n
  {
    if n > 0 {
      LoneBounds(ws, p);
      OnePick(ws, c, n, i);
      LonePicks(ws, Advance(c), n - 1, i, p);
    }
  }

  lemma {:induction false} ExactWhenLone(ws: seq<WeightedCluster>, c: u64, i: nat, p: nat)
    requires 0 < Sum(ws) < U32 && i < |ws| && p < |ws| && OnlyWeight(ws, p)
    ensures Count(Picks(ws, c, Sum(ws)), i) == ws[i].weight
  {
    LoneBounds(ws, p);
    LonePicks(ws, c, Sum(ws), i, p);
  }

  /**
   Unless one cluster has all the weight, the last one with any has the residues from some positive one up to the
   total.
   */
  lemma {:induction false} TopCluster(ws: seq<WeightedCluster>) returns (p: nat)
    requires Sum(ws) > 0 && !LoneWeight(ws)
    ensures p < |ws| && ws[p].weight > 0 && 0 < Low(ws, p) && High(ws, p) == Sum(ws)
  {
    assert ws[..|ws|] == ws;
    p := LastPositive(ws, |ws|);
    if Low(ws, p) == 0 {
      forall i | 0 <= i < |ws| && i != p ensures ws[i].weight == 0 {
        if i < p { ZeroIfSumZero(ws, p, i); }
      }
      assert OnlyWeight(ws, p);
    }
  }

  /**
   With two positive weights, the calls that end their top residues at 2^32 are exact only if the total divides it.
   */
  lemma {:induction false} DividesWhenExact(ws: seq<WeightedCluster>)
    requires 0 < Sum(ws) < U32 && AlwaysExact(ws) && !LoneWeight(ws)
    ensures U32 % Sum(ws) == 0
  {
    var p := TopCluster(ws);
    var m := Sum(ws);
    var w, lo := ws[p].weight, Low(ws, p);
    assert Count(Picks(ws, U32 - w, m), p) == w;
    PicksAcross(ws, U32 - w, U32 - w, m, p);
    Ramp(0, m, lo, m);
    SplitHits(0, 1, m - w, w, m, lo, m);
    Ramp(m - w, m, lo, m);
    TopFilled(U32, w, m);
  }

  /**
   Round robin is exact from every counter value if and only if the total divides 2^32 or one cluster has all the
   weight.
   */
  lemma {:induction false} AlwaysExactIff(ws: seq<WeightedCluster>)
    requires 0 < Sum(ws) < U32
    ensures AlwaysExact(ws) <==> U32 % Sum(ws) == 0 || LoneWeight(ws)
  {
    if U32 % Sum(ws) == 0 {
      forall c: u64, i: nat | i < |ws| ensures Count(Picks(ws, c, Sum(ws)), i) == ws[i].weight {
        ExactWhenDividing(ws, c, i);
      }
    } else if LoneWeight(ws) {
      var p: nat :| p < |ws| && OnlyWeight(ws, p);
      forall c: u64, i: nat | i < |ws| ensures Count(Picks(ws, c, Sum(ws)), i) == ws[i].weight {
        ExactWhenLone(ws, c, i, p);
      }
    } else if AlwaysExact(ws) {
      DividesWhenExact(ws);
    }
  }

  // ---------- endpoints ----------

  function Healthy(es: seq<Endpoint>): (hs: seq<Endpoint>)
    ensures forall h | h in hs :: h in es && h.healthy
    ensures forall e | e in es && e.healthy :: e in hs
  {
    if es == [] then [] else
      var front, last := es[..|es| - 1], es[|es| - 1];
      assert es == front + [last];
      Healthy(front) + if last.healthy then [last] else []
  }

  /** A position among `n`, and the counter afterwards. */
  function PickSlot(n: nat, c: u64): (r: (Option<nat>, u64))
    ensures r.0.Some? ==> r.0.value < n
  {
    if n == 0 then (None, c) else (Some(Rem(c, n)), Advance(c))
  }

  /** `pick_endpoint`: the position among the healthy endpoints, and the counter afterwards. */
  function PickEndpoint(es: seq<Endpoint>, c: u64): (Option<nat>, u64) {
    PickSlot(|Healthy(es)|, c)
  }

  function SlotPicks(n: nat, c: u64, k: nat): seq<Option<nat>>
    decreases k
  {
    if k == 0 then [] else
      var (pick, c') := PickSlot(n, c);
      [pick] + SlotPicks(n, c', k - 1)
  }

  /** Consecutive calls of `pick_endpoint` on one endpoint list. */
  function EndpointPicks(es: seq<Endpoint>, c: u64, k: nat): seq<Option<nat>> {
    SlotPicks(|Healthy(es)|, c, k)
  }

  lemma {:induction false} SlotPicksAreHits(n: nat, c: u64, k: nat, j: nat)
    requires j < n && c + k <= U64
    ensures Count(SlotPicks(n, c, k), j) == Hits(c, 1, k, n, j, j + 1)
    decreases k
  {
    if k > 0 {
      var (pick, c') := PickSlot(n, c);
      assert SlotPicks(n, c, k)[1..] == SlotPicks(n, c', k - 1);
      if k > 1 { SlotPicksAreHits(n, c', k - 1, j); }
    }
  }

  /** As many calls as there are healthy endpoints visit each of them exactly once. */
  lemma {:induction false} EndpointsVisitedOnce(es: seq<Endpoint>, c: u64, j: nat)
    requires j < CountHealthy(es) && c + CountHealthy(es) <= U64
    ensures Count(EndpointPicks(es, c, CountHealthy(es)), j) == 1
  {
    HealthyLength(es);
    SlotPicksAreHits(|Healthy(es)|, c, |Healthy(es)|, j);
    FullPeriod(c, |Healthy(es)|, j, j + 1);
  }

  /** How many of them are healthy. */
  function CountHealthy(es: seq<Endpoint>): nat {
    if es == [] then 0 else CountHealthy(es[..|es| - 1]) + if es[|es| - 1].healthy then 1 else 0
  }

  /** Position `pos` holds a healthy endpoint with exactly `slot` healthy ones before it. */
  ghost predicate NthHealthy(es: seq<Endpoint>, slot: nat, pos: nat) {
    pos < |es| && es[pos].healthy && CountHealthy(es[..pos]) == slot
  }

  lemma {:induction false} HealthyLength(es: seq<Endpoint>)
    ensures |Healthy(es)| == CountHealthy(es)
  {
    if es != [] { HealthyLength(es[..|es| - 1]); }
  }

  /** The healthy endpoint in slot `slot` is the one with exactly that many healthy ones before it. */
  lemma {:induction false} HealthyAt(es: seq<Endpoint>, slot: nat) returns (pos: nat)
    requires slot < |Healthy(es)|
    ensures NthHealthy(es, slot, pos) && Healthy(es)[slot] == es[pos]
  {
    var n := |es| - 1;
    HealthyLength(es[..n]);
    if slot < |Healthy(es[..n])| {
      pos := HealthyAt(es[..n], slot);
      assert es[..n][..pos] == es[..pos];
    } else {
      pos := n;
    }
  }

  lemma {:induction false} CountHealthyGrows(es: seq<Endpoint>, i: nat, j: nat)
    requires i < j <= |es| && es[i].healthy
    ensures CountHealthy(es[..i]) < CountHealthy(es[..j])
    decreases j
  {
    assert es[..j][..j - 1] == es[..j - 1];
    if i < j - 1 { CountHealthyGrows(es, i, j - 1); }
  }

  lemma {:induction false} NthHealthyUnique(es: seq<Endpoint>, slot: nat, i: nat, j: nat)
    requires NthHealthy(es, slot, i) && NthHealthy(es, slot, j)
    ensures i == j
  {
    if i < j { CountHealthyGrows(es, i, j); }
    if j < i { CountHealthyGrows(es, j, i); }
  }

  // ---------- from an assignment to the picks ----------

  /** Something usable stands at `p` and is not UNHEALTHY, DRAINING or TIMEOUT. */
  ghost predicate Pickable(a: LoadAssignment, p: Place) {
    && Usable(a, p)
    && var status := a.localities[p.locality].lbEndpoints[p.position].healthStatus;
       status != 2 && status != 3 && status != 4
  }

  ghost predicate KeepsPickable(a: LoadAssignment, from: seq<Place>, to: seq<Place>) {
    forall p: Place :: multiset(to)[p] == if Pickable(a, p) then multiset(from)[p] else 0
  }

  lemma {:induction false} PickableNext(a: LoadAssignment, from: seq<Place>, to: seq<Place>, p: Place)
    requires KeepsPickable(a, from, to)
    ensures KeepsPickable(a, from + [p], if Pickable(a, p) then to + [p] else to)
  {
  }

  lemma {:induction false} HealthyPlaces(
    a: LoadAssignment, es: seq<Endpoint>, from: seq<Place>)
    returns (to: seq<Place>)
    requires AllStandAt(a, from, es)
    ensures AllStandAt(a, to, Healthy(es)) && KeepsPickable(a, from, to)
  {
    to := [];
    if es != [] {
      var n := |es| - 1;
      StandFront(a, from, es);
      to := HealthyPlaces(a, es[..n], from[..n]);
      StandsUsable(a, from[n], es[n]);
      PickableNext(a, from[..n], to, from[n]);
      if es[n].healthy {
        StandNext(a, to, Healthy(es[..n]), from[n], es[n]);
        to := to + [from[n]];
      }
    }
  }

  lemma {:induction false} StandsUsable(a: LoadAssignment, p: Place, e: Endpoint)
    requires StandsAt(a, p, e)
    ensures Usable(a, p) && (e.healthy <==> Pickable(a, p))
  {
    assert HasSocket(a.localities[p.locality].lbEndpoints[p.position], e.address, e.port);
  }

  /**
   The endpoints picked for an assignment are what stands at its pickable places, each place once; and as many calls as
   there are such places pick each once.
   */
  lemma {:induction false} FlattenThenPick(a: LoadAssignment, c: u64) returns (places: seq<Place>)
    requires c + CountHealthy(FromAssignment(a)) <= U64
    ensures var es := FromAssignment(a);
      && |places| == CountHealthy(es) && AllStandAt(a, places, Healthy(es))
      && (forall p: Place :: multiset(places)[p] == if Pickable(a, p) then 1 else 0)
      && forall j: nat | j < |places| :: Count(EndpointPicks(es, c, |places|), j) == 1
  {
    var es := FromAssignment(a);
    var from := AssignmentMeaning(a);
    places := HealthyPlaces(a, es, from);
    HealthyLength(es);
    forall j: nat | j < |places| ensures Count(EndpointPicks(es, c, |places|), j) == 1 {
      EndpointsVisitedOnce(es, c, j);
    }
  }
}
