/** Flattening a load assignment into the endpoint list of a cluster, in (address, port) order. */
module Endpoints {
  import opened Wrappers
  import opened Text
  import opened Config
  import opened Messages

  // ---------- convertible endpoints ----------

  function SocketOf(address: Option<Address>): Option<(string, u16)> {
    match address
    case Some(SocketAddress(a, Some(port))) => if port < 0x1_0000 then Some((a, port)) else None
    case _ => None
  }

  /** UNHEALTHY, DRAINING and TIMEOUT are out; unknown numbers count as UNKNOWN and stay in. */
  predicate IsHealthy(status: int) {
    status != 2 && status != 3 && status != 4
  }

  function Convert(lb: LbEndpoint): Option<Endpoint> {
    match lb.host
    case Some(EndpointHost(address)) =>
      (match SocketOf(address)
       case Some(s) => Some(Endpoint(s.0, s.1, IsHealthy(lb.healthStatus), None))
       case None => None)
    case _ => None
  }

  function ConvertAll(lbs: seq<LbEndpoint>): seq<Endpoint> {
    if lbs == [] then [] else
      ConvertAll(lbs[..|lbs| - 1]) +
      match Convert(lbs[|lbs| - 1]) case Some(e) => [e] case None => []
  }

  function Flatten(localities: seq<Locality>): seq<Endpoint> {
    if localities == [] then [] else
      Flatten(localities[..|localities| - 1]) + ConvertAll(localities[|localities| - 1].lbEndpoints)
  }

  // ---------- the order and the stable sort ----------

  predicate KeyLess(a: Endpoint, b: Endpoint) {
    Less(a.address, b.address) || (a.address == b.address && a.port < b.port)
  }

  predicate SameKey(a: Endpoint, b: Endpoint) {
    a.address == b.address && a.port == b.port
  }

  lemma {:induction false} KeyOrder(a: Endpoint, b: Endpoint, c: Endpoint)
    ensures KeyLess(a, b) || SameKey(a, b) || KeyLess(b, a)
    ensures !(KeyLess(a, b) && KeyLess(b, a))
    ensures KeyLess(a, b) && KeyLess(b, c) ==> KeyLess(a, c)
  {
    LessTotal(a.address, b.address);
    LessAsymmetric(a.address, b.address);
    if Less(a.address, b.address) && Less(b.address, c.address) {
      LessTransitive(a.address, b.address, c.address);
    }
  }

  ghost predicate KeySorted(s: seq<Endpoint>) {
    forall i, j | 0 <= i < j < |s| :: !KeyLess(s[j], s[i])
  }

  /** The members of `s` with the key of `k`, in order. */
  ghost function ByKey(s: seq<Endpoint>, k: Endpoint): seq<Endpoint> {
    if s == [] then [] else
      ByKey(s[..|s| - 1], k) + if SameKey(s[|s| - 1], k) then [s[|s| - 1]] else []
  }

  function InsertByKey(e: Endpoint, s: seq<Endpoint>): seq<Endpoint> {
    if s != [] && KeyLess(e, s[|s| - 1]) then InsertByKey(e, s[..|s| - 1]) + [s[|s| - 1]] else s + [e]
  }

  function StableSort(s: seq<Endpoint>): seq<Endpoint> {
    if s == [] then [] else InsertByKey(s[|s| - 1], StableSort(s[..|s| - 1]))
  }

  lemma {:induction false} InsertPermutes(e: Endpoint, s: seq<Endpoint>)
    ensures multiset(InsertByKey(e, s)) == multiset(s) + multiset{e}
  {
    if s != [] && KeyLess(e, s[|s| - 1]) {
      InsertPermutes(e, s[..|s| - 1]);
      assert s == s[..|s| - 1] + [s[|s| - 1]];
    }
  }

  lemma {:induction false} InsertKeepsSorted(e: Endpoint, s: seq<Endpoint>)
    requires KeySorted(s)
    ensures KeySorted(InsertByKey(e, s))
  {
    if s == [] {
    } else {
      var last := s[|s| - 1];
      if KeyLess(e, last) {
        var init := s[..|s| - 1];
        InsertKeepsSorted(e, init);
        var r := InsertByKey(e, init);
        forall i | 0 <= i < |r| ensures !KeyLess(last, r[i]) {
          InsertPermutes(e, init);
          assert r[i] in multiset(r);
          if r[i] == e { KeyOrder(e, last, e); } else { assert r[i] in init; }
        }
      } else {
        forall i | 0 <= i < |s| ensures !KeyLess(e, s[i]) {
          if KeyLess(e, s[i]) {
            KeyOrder(last, e, s[i]);
            KeyOrder(e, s[i], last);
            KeyOrder(s[i], last, e);
          }
        }
      }
    }
  }

  lemma {:induction false} InsertStable(e: Endpoint, s: seq<Endpoint>, k: Endpoint)
    ensures ByKey(InsertByKey(e, s), k) == ByKey(s, k) + if SameKey(e, k) then [e] else []
  {
    if s != [] && KeyLess(e, s[|s| - 1]) {
      var init, last := s[..|s| - 1], s[|s| - 1];
      InsertStable(e, init, k);
      var r := InsertByKey(e, init);
      assert (r + [last])[..|r|] == r;
      KeyOrder(e, last, e);
      LessAsymmetric(e.address, e.address);
    } else {
      assert (s + [e])[..|s|] == s;
    }
  }

  /** The sort is sorted, keeps the order of equal keys, and loses or adds nothing. */
  lemma {:induction false} StableSortCorrect(s: seq<Endpoint>)
    ensures KeySorted(StableSort(s))
    ensures forall k :: ByKey(StableSort(s), k) == ByKey(s, k)
    ensures multiset(StableSort(s)) == multiset(s)
  {
    if s != [] {
      var init, last := s[..|s| - 1], s[|s| - 1];
      StableSortCorrect(init);
      InsertKeepsSorted(last, StableSort(init));
      InsertPermutes(last, StableSort(init));
      assert s == init + [last];
      forall k ensures ByKey(StableSort(s), k) == ByKey(s, k) {
        InsertStable(last, StableSort(init), k);
      }
    }
  }

  lemma {:induction false} ByKeyMembers(s: seq<Endpoint>, k: Endpoint)
    ensures ByKey(s, k) == [] <==> forall i | 0 <= i < |s| :: !SameKey(s[i], k)
  {
    if s != [] { ByKeyMembers(s[..|s| - 1], k); }
  }

  lemma {:induction false} GreatestKey(s: seq<Endpoint>, k: Endpoint)
    requires s != [] && KeySorted(s) && KeyLess(s[|s| - 1], k)
    ensures ByKey(s, k) == []
  {
    ByKeyMembers(s, k);
    forall i | 0 <= i < |s| ensures !SameKey(s[i], k) {
      KeyOrder(s[|s| - 1], k, s[i]);
      KeyOrder(k, k, k);
    }
  }

  lemma {:induction false} LastOfItsKey(s: seq<Endpoint>)
    requires s != []
    ensures var p := s[|s| - 1]; ByKey(s, p) != [] && ByKey(s, p)[|ByKey(s, p)| - 1] == p
  {
  }

  lemma {:induction false} TailsAgree(a: seq<Endpoint>, b: seq<Endpoint>, k: Endpoint)
    requires a != [] && b != [] && a[|a| - 1] == b[|b| - 1] && ByKey(a, k) == ByKey(b, k)
    ensures ByKey(a[..|a| - 1], k) == ByKey(b[..|b| - 1], k)
  {
    var p := a[|a| - 1];
    SameTail(ByKey(a[..|a| - 1], k), ByKey(b[..|b| - 1], k), if SameKey(p, k) then [p] else []);
  }

  /** For every key, the same elements in the same order. */
  ghost predicate SameByKey(a: seq<Endpoint>, b: seq<Endpoint>) {
    forall k :: ByKey(a, k) == ByKey(b, k)
  }

  lemma {:induction false} FrontsAgree(a: seq<Endpoint>, b: seq<Endpoint>)
    requires a != [] && b != [] && a[|a| - 1] == b[|b| - 1] && SameByKey(a, b)
    ensures SameByKey(a[..|a| - 1], b[..|b| - 1])
  {
    var a0, b0 := a[..|a| - 1], b[..|b| - 1];
    forall k ensures ByKey(a0, k) == ByKey(b0, k) { TailsAgree(a, b, k); }
  }

  lemma {:induction false} EmptyByKey(b: seq<Endpoint>)
    requires SameByKey([], b)
    ensures b == []
  {
    if b != [] {
      ByKeyMembers([], b[0]);
      ByKeyMembers(b, b[0]);
    }
  }

  lemma {:induction false} SameKeySame(s: seq<Endpoint>, k: Endpoint, k': Endpoint)
    requires SameKey(k, k')
    ensures ByKey(s, k) == ByKey(s, k')
  {
    if s != [] { SameKeySame(s[..|s| - 1], k, k'); }
  }

  lemma {:induction false} SameLast(a: seq<Endpoint>, b: seq<Endpoint>)
    requires a != [] && b != [] && KeySorted(a) && KeySorted(b)
    requires SameByKey(a, b)
    ensures a[|a| - 1] == b[|b| - 1]
  {
    SameGreatest(a, b);
    LastOfItsKey(a);
    LastOfItsKey(b);
    SameKeySame(b, a[|a| - 1], b[|b| - 1]);
  }

  /** Being sorted and stable determines the result, so the sort is the stable sort. */
  lemma {:induction false} StableSortUnique(a: seq<Endpoint>, b: seq<Endpoint>)
    requires KeySorted(a) && KeySorted(b)
    requires SameByKey(a, b)
    ensures a == b
    decreases |a|
  {
    if a == [] {
      EmptyByKey(b);
    } else if b == [] {
      EmptyByKey(a);
    } else {
      SameLast(a, b);
      FrontsAgree(a, b);
      StableSortUnique(a[..|a| - 1], b[..|b| - 1]);
      assert a == a[..|a| - 1] + [a[|a| - 1]] && b == b[..|b| - 1] + [b[|b| - 1]];
    }
  }

  lemma {:induction false} SameGreatest(a: seq<Endpoint>, b: seq<Endpoint>)
    requires a != [] && b != [] && KeySorted(a) && KeySorted(b)
    requires SameByKey(a, b)
    ensures SameKey(a[|a| - 1], b[|b| - 1])
  {
    var p, q := a[|a| - 1], b[|b| - 1];
    KeyOrder(p, q, p);
    ByKeyMembers(a, p);
    ByKeyMembers(b, q);
    if KeyLess(p, q) { GreatestKey(a, q); }
    if KeyLess(q, p) { GreatestKey(b, p); }
  }

  lemma {:induction false} SameTail(x: seq<Endpoint>, y: seq<Endpoint>, t: seq<Endpoint>)
    requires x + t == y + t
    ensures x == y
  {
    assert |x| == |y|;
    assert forall i | 0 <= i < |x| :: x[i] == (x + t)[i] && y[i] == (y + t)[i];
  }

  // ---------- endpoints_from_assignment ----------

  function FromAssignment(a: LoadAssignment): seq<Endpoint> {
    StableSort(Flatten(a.localities))
  }

  /** The loops push in order; the library's stable sort is its unique specification, `StableSort`. */
  method EndpointsFromAssignment(a: LoadAssignment) returns (endpoints: seq<Endpoint>)
    ensures endpoints == FromAssignment(a)
    ensures exists from :: AllStandAt(a, from, endpoints) && EachUsableOnce(a, from) && Ordered(endpoints, from)
  {
    endpoints := [];
    for i := 0 to |a.localities|
      invariant endpoints == Flatten(a.localities[..i])
    {
      var lbs := a.localities[i].lbEndpoints;
      ghost var before := endpoints;
      for j := 0 to |lbs|
        invariant endpoints == before + ConvertAll(lbs[..j])
      {
        assert lbs[..j + 1][..j] == lbs[..j];
        var e := Convert(lbs[j]);
        if e.Some? {
          endpoints := endpoints + [e.value];
        }
      }
      assert lbs[..|lbs|] == lbs;
      assert a.localities[..i + 1][..i] == a.localities[..i];
    }
    assert a.localities[..|a.localities|] == a.localities;
    endpoints := StableSort(endpoints);
    ghost var from := AssignmentMeaning(a);
  }

  // ---------- the result over the assignment's own positions ----------

  /** An endpoint's place in an assignment: a locality and a position in it. */
  datatype Place = Place(locality: nat, position: nat)

  ghost predicate InAssignment(a: LoadAssignment, p: Place) {
    p.locality < |a.localities| && p.position < |a.localities[p.locality].lbEndpoints|
  }

  ghost predicate Before(p: Place, q: Place) {
    p.locality < q.locality || (p.locality == q.locality && p.position < q.position)
  }

  ghost predicate Increasing(ps: seq<Place>) {
    forall j, k | 0 <= j < k < |ps| :: Before(ps[j], ps[k])
  }

  /** The endpoint has a socket address whose port fits 16 bits. */
  ghost predicate HasSocket(lb: LbEndpoint, address: string, port: nat) {
    port < 65536 && lb.host == Some(EndpointHost(Some(SocketAddress(address, Some(port)))))
  }

  /** `e` is what stands at `p`: its own address and port, no node name, unhealthy if UNHEALTHY, DRAINING or TIMEOUT. */
  ghost predicate StandsAt(a: LoadAssignment, p: Place, e: Endpoint) {
    && InAssignment(a, p)
    && var lb := a.localities[p.locality].lbEndpoints[p.position];
       && HasSocket(lb, e.address, e.port) && e.nodeName == None
       && (!e.healthy <==> lb.healthStatus == 2 || lb.healthStatus == 3 || lb.healthStatus == 4)
  }

  /** Something usable stands at `p`. */
  ghost predicate Usable(a: LoadAssignment, p: Place) {
    && InAssignment(a, p)
    && exists address, port :: HasSocket(a.localities[p.locality].lbEndpoints[p.position], address, port)
  }

  /** Endpoint by endpoint, `es` is what stands at `from`. */
  ghost predicate AllStandAt(a: LoadAssignment, from: seq<Place>, es: seq<Endpoint>) {
    |from| == |es| && forall k | 0 <= k < |es| :: StandsAt(a, from[k], es[k])
  }

  lemma {:induction false} ConvertKeeps(a: LoadAssignment, p: Place)
    requires InAssignment(a, p)
    ensures match Convert(a.localities[p.locality].lbEndpoints[p.position])
      case None => !Usable(a, p)
      case Some(e) => Usable(a, p) && StandsAt(a, p, e)
  {
    var lb := a.localities[p.locality].lbEndpoints[p.position];
    match Convert(lb)
    case None =>
    case Some(e) => assert HasSocket(lb, e.address, e.port);
  }

  /** `from` lists the usable places before `end`, in order. */
  ghost predicate UsableUpTo(a: LoadAssignment, from: seq<Place>, end: Place) {
    && Increasing(from)
    && (forall k | 0 <= k < |from| :: Usable(a, from[k]) && Before(from[k], end))
    && forall p | Usable(a, p) && Before(p, end) :: p in from
  }

  lemma {:induction false} StandFront(a: LoadAssignment, from: seq<Place>, es: seq<Endpoint>)
    requires es != [] && AllStandAt(a, from, es)
    ensures var n := |es| - 1;
      AllStandAt(a, from[..n], es[..n]) && StandsAt(a, from[n], es[n]) && from == from[..n] + [from[n]]
  {
  }

  lemma {:induction false} StandNext(a: LoadAssignment, from: seq<Place>, es: seq<Endpoint>, p: Place, e: Endpoint)
    requires AllStandAt(a, from, es) && StandsAt(a, p, e)
    ensures AllStandAt(a, from + [p], es + [e])
  {
  }

  lemma {:induction false} NoMorePlace(a: LoadAssignment, from: seq<Place>, end: Place)
    requires UsableUpTo(a, from, end) && !Usable(a, end)
    ensures UsableUpTo(a, from, Place(end.locality, end.position + 1))
  {
    forall p | Usable(a, p) && Before(p, Place(end.locality, end.position + 1)) ensures p in from {
      assert Before(p, end);
    }
  }

  lemma {:induction false} OneMorePlace(a: LoadAssignment, from: seq<Place>, end: Place)
    requires UsableUpTo(a, from, end) && Usable(a, end)
    ensures UsableUpTo(a, from + [end], Place(end.locality, end.position + 1))
  {
    forall p | Usable(a, p) && Before(p, Place(end.locality, end.position + 1)) ensures p in from + [end] {
      if p != end { assert Before(p, end) && p in from; }
    }
  }

  lemma {:induction false} NextPlace(a: LoadAssignment, from: seq<Place>, es: seq<Endpoint>, end: Place)
    returns (more: seq<Place>)
    requires AllStandAt(a, from, es) && UsableUpTo(a, from, end) && InAssignment(a, end)
    ensures UsableUpTo(a, more, Place(end.locality, end.position + 1))
    ensures var lb := a.localities[end.locality].lbEndpoints[end.position];
      AllStandAt(a, more, es + match Convert(lb) case None => [] case Some(e) => [e])
  {
    ConvertKeeps(a, end);
    match Convert(a.localities[end.locality].lbEndpoints[end.position])
    case None =>
      NoMorePlace(a, from, end);
      more := from;
      assert es + [] == es;
    case Some(e) =>
      OneMorePlace(a, from, end);
      StandNext(a, from, es, end, e);
      more := from + [end];
  }

  lemma {:induction false} LocalityPlaces(a: LoadAssignment, i: nat, n: nat, from: seq<Place>, es: seq<Endpoint>)
    returns (more: seq<Place>)
    requires i < |a.localities| && n <= |a.localities[i].lbEndpoints|
    requires AllStandAt(a, from, es) && UsableUpTo(a, from, Place(i, 0))
    ensures UsableUpTo(a, more, Place(i, n)) && AllStandAt(a, more, es + ConvertAll(a.localities[i].lbEndpoints[..n]))
    decreases n
  {
    var lbs := a.localities[i].lbEndpoints;
    if n == 0 {
      assert es + ConvertAll(lbs[..0]) == es;
      more := from;
    } else {
      var mid := LocalityPlaces(a, i, n - 1, from, es);
      var so := es + ConvertAll(lbs[..n - 1]);
      assert lbs[..n][..n - 1] == lbs[..n - 1];
      more := NextPlace(a, mid, so, Place(i, n - 1));
      assert es + ConvertAll(lbs[..n]) == so + match Convert(lbs[n - 1]) case None => [] case Some(e) => [e];
    }
  }

  lemma {:induction false} NewLocality(a: LoadAssignment, from: seq<Place>, i: nat)
    requires i < |a.localities| && UsableUpTo(a, from, Place(i, |a.localities[i].lbEndpoints|))
    ensures UsableUpTo(a, from, Place(i + 1, 0))
  {
    forall p | Usable(a, p) && Before(p, Place(i + 1, 0)) ensures p in from {
      assert Before(p, Place(i, |a.localities[i].lbEndpoints|));
    }
  }

  lemma {:induction false} FlattenPlaces(a: LoadAssignment, m: nat) returns (from: seq<Place>)
    requires m <= |a.localities|
    ensures UsableUpTo(a, from, Place(m, 0)) && AllStandAt(a, from, Flatten(a.localities[..m]))
  {
    from := [];
    if m > 0 {
      from := FlattenPlaces(a, m - 1);
      var lbs := a.localities[m - 1].lbEndpoints;
      assert a.localities[..m][..m - 1] == a.localities[..m - 1] && lbs[..|lbs|] == lbs;
      from := LocalityPlaces(a, m - 1, |lbs|, from, Flatten(a.localities[..m - 1]));
      NewLocality(a, from, m - 1);
    }
  }

  /** By address and port, and where these are equal by place. */
  ghost predicate NotAfter(e: Endpoint, p: Place, f: Endpoint, q: Place) {
    KeyLess(e, f) || (SameKey(e, f) && Before(p, q))
  }

  ghost predicate Ordered(es: seq<Endpoint>, from: seq<Place>) {
    && |from| == |es|
    && forall j, k | 0 <= j < k < |es| :: NotAfter(es[j], from[j], es[k], from[k])
  }

  lemma {:induction false} StandsAlone(a: LoadAssignment, p: Place, e: Endpoint, f: Endpoint)
    requires StandsAt(a, p, e) && StandsAt(a, p, f)
    ensures e == f
  {
  }

  lemma {:induction false} OrderedSnoc(es: seq<Endpoint>, from: seq<Place>, f: Endpoint, q: Place)
    requires Ordered(es, from) && forall k | 0 <= k < |es| :: NotAfter(es[k], from[k], f, q)
    ensures Ordered(es + [f], from + [q])
  {
  }

  lemma {:induction false} OrderedFront(es: seq<Endpoint>, from: seq<Place>)
    requires es != [] && Ordered(es, from)
    ensures var n := |es| - 1;
      Ordered(es[..n], from[..n]) && forall k | 0 <= k < n :: NotAfter(es[k], from[k], es[n], from[n])
  {
  }

  lemma {:induction false} AppendPlace(e: Endpoint, p: Place, es: seq<Endpoint>, from: seq<Place>)
    requires Ordered(es, from) && (forall k | 0 <= k < |from| :: Before(from[k], p))
    requires es == [] || !KeyLess(e, es[|es| - 1])
    ensures Ordered(es + [e], from + [p])
  {
    forall k | 0 <= k < |es| ensures NotAfter(es[k], from[k], e, p) {
      KeyOrder(es[|es| - 1], e, e);
      KeyOrder(es[k], es[|es| - 1], e);
      if k < |es| - 1 { assert NotAfter(es[k], from[k], es[|es| - 1], from[|es| - 1]); }
    }
    OrderedSnoc(es, from, e, p);
  }

  /** Everything in `r`, which stands at `to`, is `e` or comes from `es`, and so is not after the last of them. */
  lemma {:induction false} InsertedNotAfter(
    a: LoadAssignment, e: Endpoint, p: Place, es: seq<Endpoint>, from: seq<Place>, f: Endpoint, q: Place,
    r: seq<Endpoint>, to: seq<Place>, j: nat)
    requires AllStandAt(a, from, es) && StandsAt(a, p, e) && AllStandAt(a, to, r) && j < |r|
    requires KeyLess(e, f) && forall k | 0 <= k < |es| :: NotAfter(es[k], from[k], f, q)
    requires multiset(to) == multiset(from) + multiset{p}
    ensures NotAfter(r[j], to[j], f, q)
  {
    assert to[j] in multiset(to);
    if to[j] == p {
      StandsAlone(a, p, e, r[j]);
    } else {
      assert to[j] in from;
      var x :| 0 <= x < |from| && from[x] == to[j];
      StandsAlone(a, from[x], es[x], r[j]);
    }
  }

  /** Standing at the places, in order. */
  ghost predicate StandInOrder(a: LoadAssignment, es: seq<Endpoint>, from: seq<Place>) {
    AllStandAt(a, from, es) && Ordered(es, from)
  }

  lemma {:induction false} InsertBeforeLast(
    a: LoadAssignment, e: Endpoint, p: Place, es: seq<Endpoint>, from: seq<Place>, r: seq<Endpoint>, front: seq<Place>)
    requires es != [] && KeyLess(e, es[|es| - 1]) && StandInOrder(a, es, from) && StandsAt(a, p, e)
    requires StandInOrder(a, r, front) && multiset(front) == multiset(from[..|es| - 1]) + multiset{p}
    ensures var n := |es| - 1;
      StandInOrder(a, r + [es[n]], front + [from[n]]) && multiset(front + [from[n]]) == multiset(from) + multiset{p}
  {
    var n := |es| - 1;
    StandFront(a, from, es);
    OrderedFront(es, from);
    StandNext(a, front, r, from[n], es[n]);
    forall j | 0 <= j < |r| ensures NotAfter(r[j], front[j], es[n], from[n]) {
      InsertedNotAfter(a, e, p, es[..n], from[..n], es[n], from[n], r, front, j);
    }
    OrderedSnoc(r, front, es[n], from[n]);
  }

  lemma {:induction false} InsertLast(a: LoadAssignment, e: Endpoint, p: Place, es: seq<Endpoint>, from: seq<Place>)
    requires StandInOrder(a, es, from) && StandsAt(a, p, e) && (forall k | 0 <= k < |from| :: Before(from[k], p))
    requires es == [] || !KeyLess(e, es[|es| - 1])
    ensures StandInOrder(a, es + [e], from + [p])
  {
    StandNext(a, from, es, p, e);
    AppendPlace(e, p, es, from);
  }

  lemma {:induction false} FrontInOrder(a: LoadAssignment, es: seq<Endpoint>, from: seq<Place>)
    requires es != [] && StandInOrder(a, es, from)
    ensures StandInOrder(a, es[..|es| - 1], from[..|es| - 1])
  {
    StandFront(a, from, es);
    OrderedFront(es, from);
  }

  lemma {:induction false} InsertPlace(a: LoadAssignment, e: Endpoint, p: Place, es: seq<Endpoint>, from: seq<Place>)
    returns (to: seq<Place>)
    requires StandInOrder(a, es, from) && StandsAt(a, p, e) && forall k | 0 <= k < |from| :: Before(from[k], p)
    ensures StandInOrder(a, InsertByKey(e, es), to) && multiset(to) == multiset(from) + multiset{p}
    decreases |es|
  {
    if es != [] && KeyLess(e, es[|es| - 1]) {
      var n := |es| - 1;
      FrontInOrder(a, es, from);
      var front := InsertPlace(a, e, p, es[..n], from[..n]);
      to := front + [from[n]];
      InsertBeforeLast(a, e, p, es, from, InsertByKey(e, es[..n]), front);
    } else {
      to := from + [p];
      InsertLast(a, e, p, es, from);
    }
  }

  lemma {:induction false} AllBefore(ps: seq<Place>, qs: seq<Place>, p: Place)
    requires multiset(ps) == multiset(qs) && forall k | 0 <= k < |qs| :: Before(qs[k], p)
    ensures forall k | 0 <= k < |ps| :: Before(ps[k], p)
  {
    forall k | 0 <= k < |ps| ensures Before(ps[k], p) {
      assert ps[k] in multiset(ps);
      assert ps[k] in qs;
    }
  }

  lemma {:induction false} SortPlaces(a: LoadAssignment, es: seq<Endpoint>, from: seq<Place>) returns (to: seq<Place>)
    requires AllStandAt(a, from, es) && Increasing(from)
    ensures StandInOrder(a, StableSort(es), to) && multiset(to) == multiset(from)
  {
    to := [];
    if es != [] {
      var n := |es| - 1;
      var front := SortPlaces(a, es[..n], from[..n]);
      AllBefore(front, from[..n], from[n]);
      to := InsertPlace(a, es[n], from[n], StableSort(es[..n]), front);
      assert from == from[..n] + [from[n]];
    }
  }

  /** Each usable place exactly once, and nothing else. */
  ghost predicate EachUsableOnce(a: LoadAssignment, from: seq<Place>) {
    forall p: Place :: multiset(from)[p] == if Usable(a, p) then 1 else 0
  }

  lemma {:induction false} IncreasingOnce(ps: seq<Place>, p: Place)
    requires Increasing(ps)
    ensures multiset(ps)[p] == if p in ps then 1 else 0
  {
    if ps != [] {
      var n := |ps| - 1;
      IncreasingOnce(ps[..n], p);
      assert ps == ps[..n] + [ps[n]];
      forall k | 0 <= k < n ensures ps[k] != ps[n] { assert Before(ps[k], ps[n]); }
    }
  }

  /**
   The endpoints of an assignment are what stands at its usable places, each place once, ordered by address and port and
   where these are equal by place.
   */
  lemma {:induction false} AssignmentMeaning(a: LoadAssignment) returns (from: seq<Place>)
    ensures AllStandAt(a, from, FromAssignment(a)) && EachUsableOnce(a, from) && Ordered(FromAssignment(a), from)
  {
    var flat := Flatten(a.localities);
    assert a.localities[..|a.localities|] == a.localities;
    var places := FlattenPlaces(a, |a.localities|);
    from := SortPlaces(a, flat, places);
    forall p: Place ensures multiset(from)[p] == if Usable(a, p) then 1 else 0 {
      IncreasingOnce(places, p);
      if Usable(a, p) { assert Before(p, Place(|a.localities|, 0)); }
      if p in places { var k :| 0 <= k < |places| && places[k] == p; }
    }
  }
}
