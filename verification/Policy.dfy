/** Which endpoints a Service's policy lets a front use, and where a new flow then goes. */
module Policy {
  import opened Types
  import opened FrontPlan
  import opened FrontSafety
  import opened FrontResults
  import opened Steering
  import opened LittleEndian
  import ByteOrder
  import FlowHash

  datatype EndpointPolicy = Uniform | PreferLocal | OnlyLocal

  /** An address: four octets or sixteen. */
  type Ip = seq<byte>

  datatype Endpoint = Endpoint(podIp: Ip, nodeIp: Ip, nodeAddrs: set<Ip>, ready: bool, serving: bool, terminating: bool)

  predicate Local(e: Endpoint, node: Ip) {
    node in e.nodeAddrs
  }

  predicate Ready(e: Endpoint) {
    e.ready && !e.terminating
  }

  predicate Draining(e: Endpoint) {
    e.serving && e.terminating
  }

  /** What an endpoint must be to be picked out of the candidates. */
  datatype Filter = IsReady | LocalReady | LocalDraining

  predicate Passes(fl: Filter, e: Endpoint, node: Ip) {
    match fl
    case IsReady => Ready(e)
    case LocalReady => Local(e, node) && Ready(e)
    case LocalDraining => Local(e, node) && Draining(e)
  }

  function Select(fl: Filter, es: seq<Endpoint>, node: Ip): (r: seq<Endpoint>)
    ensures forall e :: e in r <==> e in es && Passes(fl, e, node)
  {
    if es == [] then []
    else
      var rest, e := Select(fl, es[..|es| - 1], node), es[|es| - 1];
      assert es == es[..|es| - 1] + [e];
      if Passes(fl, e, node) then rest + [e] else rest
  }

  /** Some candidate passes. */
  ghost predicate Any(fl: Filter, es: seq<Endpoint>, node: Ip) {
    exists e :: e in es && Passes(fl, e, node)
  }

  function LocalUsable(es: seq<Endpoint>, node: Ip): seq<Endpoint> {
    var ready := Select(LocalReady, es, node);
    if ready != [] then ready else Select(LocalDraining, es, node)
  }

  function Chosen(policy: EndpointPolicy, es: seq<Endpoint>, node: Ip): seq<Endpoint> {
    if policy.OnlyLocal? && LocalUsable(es, node) != [] then LocalUsable(es, node) else Select(IsReady, es, node)
  }

  // ---- slot order -----------------------------------------------------------------------------------

  /** The sort key is `(!local, pod_ip)` when local pods are preferred, else `pod_ip` alone. */
  predicate Before(a: Endpoint, b: Endpoint, policy: EndpointPolicy, node: Ip) {
    if policy.PreferLocal? && Local(a, node) != Local(b, node) then Local(a, node)
    else ByteOrder.Less(a.podIp, b.podIp)
  }

  function Insert(e: Endpoint, es: seq<Endpoint>, policy: EndpointPolicy, node: Ip): seq<Endpoint> {
    if es == [] then [e]
    else if Before(e, es[0], policy, node) then [e] + es
    else [es[0]] + Insert(e, es[1..], policy, node)
  }

  function Sort(es: seq<Endpoint>, policy: EndpointPolicy, node: Ip): seq<Endpoint> {
    if es == [] then [] else Insert(es[|es| - 1], Sort(es[..|es| - 1], policy, node), policy, node)
  }

  function Eligible(policy: EndpointPolicy, es: seq<Endpoint>, node: Ip): seq<Endpoint> {
    Sort(Chosen(policy, es, node), policy, node)
  }

  lemma {:induction false} InsertIs(e: Endpoint, es: seq<Endpoint>, policy: EndpointPolicy, node: Ip)
    ensures multiset(Insert(e, es, policy, node)) == multiset(es) + multiset{e}
  {
    if es != [] && !Before(e, es[0], policy, node) {
      InsertIs(e, es[1..], policy, node);
      assert es == [es[0]] + es[1..];
    }
  }

  lemma {:induction false} SortIs(es: seq<Endpoint>, policy: EndpointPolicy, node: Ip)
    ensures multiset(Sort(es, policy, node)) == multiset(es)
  {
    if es != [] {
      SortIs(es[..|es| - 1], policy, node);
      InsertIs(es[|es| - 1], Sort(es[..|es| - 1], policy, node), policy, node);
      assert es == es[..|es| - 1] + [es[|es| - 1]];
    }
  }

  lemma SortHas(es: seq<Endpoint>, policy: EndpointPolicy, node: Ip, e: Endpoint)
    ensures e in Sort(es, policy, node) <==> e in es
    ensures |Sort(es, policy, node)| == |es|
  {
    SortIs(es, policy, node);
    assert e in Sort(es, policy, node) <==> e in multiset(Sort(es, policy, node));
    assert e in es <==> e in multiset(es);
    assert |multiset(Sort(es, policy, node))| == |multiset(es)|;
  }

  lemma BeforeWeak(a: Endpoint, b: Endpoint, c: Endpoint, policy: EndpointPolicy, node: Ip)
    requires Before(a, c, policy, node)
    ensures Before(a, b, policy, node) || Before(b, c, policy, node)
  {
    ByteOrder.LessTotal(a.podIp, b.podIp);
    if ByteOrder.Less(b.podIp, a.podIp) && ByteOrder.Less(a.podIp, c.podIp) {
      ByteOrder.LessTransitive(b.podIp, a.podIp, c.podIp);
    }
  }

  lemma BeforeAsymmetric(a: Endpoint, b: Endpoint, policy: EndpointPolicy, node: Ip)
    requires Before(a, b, policy, node)
    ensures !Before(b, a, policy, node)
  {
    ByteOrder.LessIrreflexive(a.podIp);
    if ByteOrder.Less(a.podIp, b.podIp) && ByteOrder.Less(b.podIp, a.podIp) {
      ByteOrder.LessTransitive(a.podIp, b.podIp, a.podIp);
    }
  }

  ghost predicate Ordered(es: seq<Endpoint>, policy: EndpointPolicy, node: Ip) {
    forall i, j :: 0 <= i < j < |es| ==> !Before(es[j], es[i], policy, node)
  }

  lemma {:induction false} InsertOrdered(e: Endpoint, es: seq<Endpoint>, policy: EndpointPolicy, node: Ip)
    requires Ordered(es, policy, node)
    ensures Ordered(Insert(e, es, policy, node), policy, node)
  {
    if es != [] {
      var r := Insert(e, es, policy, node);
      if Before(e, es[0], policy, node) {
        forall j | 0 <= j < |es| ensures !Before(es[j], e, policy, node) {
          if Before(es[j], e, policy, node) {
            BeforeWeak(es[j], es[0], e, policy, node);
            BeforeAsymmetric(e, es[0], policy, node);
          }
        }
      } else {
        InsertOrdered(e, es[1..], policy, node);
        var tail := Insert(e, es[1..], policy, node);
        InsertIs(e, es[1..], policy, node);
        forall j | 0 <= j < |tail| ensures !Before(tail[j], es[0], policy, node) {
          assert tail[j] in multiset(tail);
          assert tail[j] == e || tail[j] in es[1..];
        }
      }
    }
  }

  lemma {:induction false} SortOrdered(es: seq<Endpoint>, policy: EndpointPolicy, node: Ip)
    ensures Ordered(Sort(es, policy, node), policy, node)
  {
    if es != [] {
      SortOrdered(es[..|es| - 1], policy, node);
      InsertOrdered(es[|es| - 1], Sort(es[..|es| - 1], policy, node), policy, node);
    }
  }

  // ---- the front --------------------------------------------------------------------------------------

  /** Four octets are embedded behind the `::ffff` prefix; sixteen are kept. */
  function Widen(ip: Ip): Ip {
    if |ip| == 4 then seq(10, _ => 0) + [0xff, 0xff] + ip else ip
  }

  /** A tunnel remote of four octets is kept in the host's byte order, the least significant octet first. */
  function TunnelRemote(ip: Ip): Ip {
    Widen(if |ip| == 4 then [ip[3], ip[2], ip[1], ip[0]] else ip)
  }

  function WirePort(p: u16): u16 {
    p % 0x100 * 0x100 + p / 0x100
  }

  function ToRow(e: Endpoint, port: u16, node: Ip): FrontEndpoint {
    FrontEndpoint(LbFrontBackend(TunnelRemote(e.nodeIp), Widen(e.podIp)), WirePort(port), if Local(e, node) then 1 else 0)
  }

  function ToRows(es: seq<Endpoint>, port: u16, node: Ip): (r: seq<FrontEndpoint>)
    ensures |r| == |es| && forall i :: 0 <= i < |es| ==> r[i] == ToRow(es[i], port, node)
  {
    seq(|es|, i requires 0 <= i < |es| => ToRow(es[i], port, node))
  }

  /** `reconcile_service`'s front for one port; `es` are the endpoints of that port and family. */
  function FrontFor(policy: EndpointPolicy, es: seq<Endpoint>, port: u16, node: Ip, affinity: bool): DesiredFront {
    DesiredFront(if affinity then 1 else 0, !policy.Uniform?, ToRows(Eligible(policy, es, node), port, node))
  }

  /** A new flow, looked up in maps that hold what is wanted of the front. */
  function NewFlow(m: Maps, f: LbFrontKey, hash: u32): IngressSteer
    requires f in m.meta
  {
    Steer(m.meta[f], None, None, hash, f, m.eps)
  }

  /** The flow reaches candidate `e`. */
  predicate Reaches(s: IngressSteer, e: Endpoint, port: u16, node: Ip) {
    SendsTo(s, ToRow(e, port, node))
  }

  /** `b` is the address `ip` among sixteen octets: its own, or the last four behind `::ffff`. */
  predicate Carries(b: seq<byte>, ip: Ip) {
    && |b| == 16
    && (|ip| == 16 ==> b == ip)
    && (|ip| == 4 ==> (forall i :: 0 <= i < 10 ==> b[i] == 0) && b[10] == 0xff && b[11] == 0xff && b[12..] == ip)
  }

  function Reversed4(ip: Ip): Ip
    requires |ip| == 4
  {
    [ip[3], ip[2], ip[1], ip[0]]
  }

  /**
   * A flow that reaches a candidate is sent to its pod's octets, to its port in network order, and through a
   * tunnel to its node: the node's sixteen octets, or its four in the host's order.
   */
  lemma ReachedMeans(s: IngressSteer, e: Endpoint, port: u16, node: Ip)
    requires |e.podIp| in {4, 16} && |e.nodeIp| in {4, 16}
    ensures Reaches(s, e, port, node) <==>
              && s.Forward? && Carries(s.backend.podIp, e.podIp)
              && Carries(s.backend.backendNodeIp, if |e.nodeIp| == 4 then Reversed4(e.nodeIp) else e.nodeIp)
              && Bytes16(s.targetPort) == [port / 0x100, port % 0x100]
  {
    CarriesOne(TunnelRemote(e.nodeIp), if |e.nodeIp| == 4 then Reversed4(e.nodeIp) else e.nodeIp);
    CarriesOne(Widen(e.podIp), e.podIp);
    if s.Forward? {
      SwapsBytes(s.targetPort, port);
      if Carries(s.backend.podIp, e.podIp) {
        OneCarrier(s.backend.podIp, Widen(e.podIp), e.podIp);
      }
      var to := if |e.nodeIp| == 4 then Reversed4(e.nodeIp) else e.nodeIp;
      if Carries(s.backend.backendNodeIp, to) {
        OneCarrier(s.backend.backendNodeIp, TunnelRemote(e.nodeIp), to);
      }
    }
  }

  lemma CarriesOne(b: seq<byte>, ip: Ip)
    requires |ip| in {4, 16} && b == Widen(ip)
    ensures Carries(b, ip)
  {
    assert |ip| == 4 ==> b[12..] == ip;
  }

  lemma OneCarrier(a: seq<byte>, b: seq<byte>, ip: Ip)
    requires |ip| in {4, 16} && Carries(a, ip) && Carries(b, ip)
    ensures a == b
  {
    if |ip| == 4 {
      assert a == a[..12] + a[12..] && b == b[..12] + b[12..];
      assert a[..12] == b[..12];
    }
  }

  lemma SwapsBytes(p: u16, port: u16)
    ensures p == WirePort(port) <==> Bytes16(p) == [port / 0x100, port % 0x100]
  {
    var hi, lo := port / 0x100, port % 0x100;
    assert WirePort(port) % 0x100 == hi && WirePort(port) / 0x100 == lo;
    assert p == p % 0x100 + 0x100 * (p / 0x100);
  }

  /** The flow lands on one slot of the front, a local one when local slots are preferred; on none if there is none. */
  lemma LandsOnASlot(m: Maps, f: LbFrontKey, want: DesiredFront, hash: u32)
    requires want.Valid() && AsDesired(m, f, want)
    ensures if want.endpoints == [] then NewFlow(m, f, hash) == Drop
            else exists i :: 0 <= i < |want.endpoints| && SendsTo(NewFlow(m, f, hash), want.endpoints[i])
                             && (want.LocalCount() > 0 ==> IsLocal(want.endpoints[i]))
                             && SelectEndpointSlot(hash, |want.endpoints|, want.LocalCount()) == Some(i)
  {
    if want.endpoints != [] {
      var slot := SelectEndpointSlot(hash, |want.endpoints|, want.LocalCount()).value;
      assert Lookup(m.eps, EndpointKey(f, m.meta[f].generation, slot)) == Some(want.endpoints[slot]);
    }
  }

  /** The slot is one of the eligible endpoints. */
  lemma LandsOnEligible(m: Maps, f: LbFrontKey, policy: EndpointPolicy, es: seq<Endpoint>, port: u16, node: Ip,
                        affinity: bool, hash: u32) returns (i: nat)
    requires var want := FrontFor(policy, es, port, node, affinity); want.Valid() && AsDesired(m, f, want)
    requires Eligible(policy, es, node) != []
    ensures var slots := Eligible(policy, es, node);
            && i < |slots| && Reaches(NewFlow(m, f, hash), slots[i], port, node)
            && (!policy.Uniform? && Local(slots[0], node) ==> Local(slots[i], node))
  {
    var want := FrontFor(policy, es, port, node, affinity);
    var slots := Eligible(policy, es, node);
    LandsOnASlot(m, f, want, hash);
    i :| 0 <= i < |want.endpoints| && SendsTo(NewFlow(m, f, hash), want.endpoints[i])
         && (want.LocalCount() > 0 ==> IsLocal(want.endpoints[i]));
    assert want.endpoints[i] == ToRow(slots[i], port, node) && want.endpoints[0] == ToRow(slots[0], port, node);
  }

  /** So the flow reaches an eligible endpoint, or is dropped when there is none. */
  lemma ReachesEligible(m: Maps, f: LbFrontKey, policy: EndpointPolicy, es: seq<Endpoint>, port: u16, node: Ip,
                        affinity: bool, hash: u32)
    requires var want := FrontFor(policy, es, port, node, affinity); want.Valid() && AsDesired(m, f, want)
    ensures if Chosen(policy, es, node) == [] then NewFlow(m, f, hash) == Drop
            else exists e :: e in Chosen(policy, es, node) && Reaches(NewFlow(m, f, hash), e, port, node)
                             && (policy.PreferLocal? && Any(LocalReady, es, node) ==> Local(e, node))
  {
    var slots, chosen := Eligible(policy, es, node), Chosen(policy, es, node);
    SortSize(chosen, policy, node);
    if chosen == [] {
      LandsOnASlot(m, f, FrontFor(policy, es, port, node, affinity), hash);
    } else {
      var i := LandsOnEligible(m, f, policy, es, port, node, affinity, hash);
      SortHas(chosen, policy, node, slots[i]);
      if policy.PreferLocal? && Any(LocalReady, es, node) {
        FirstIsLocal(es, node);
      }
    }
  }

  lemma SortSize(es: seq<Endpoint>, policy: EndpointPolicy, node: Ip)
    ensures |Sort(es, policy, node)| == |es|
  {
    SortIs(es, policy, node);
    assert |multiset(Sort(es, policy, node))| == |multiset(es)|;
  }

  /** With a ready local pod and local preference, slot 0 is local. */
  lemma FirstIsLocal(es: seq<Endpoint>, node: Ip)
    requires Any(LocalReady, es, node)
    ensures var slots := Eligible(PreferLocal, es, node); slots != [] && Local(slots[0], node)
  {
    var chosen := Chosen(PreferLocal, es, node);
    var slots := Eligible(PreferLocal, es, node);
    var e :| e in es && Passes(LocalReady, e, node);
    assert e in chosen;
    SortHas(chosen, PreferLocal, node, e);
    SortOrdered(chosen, PreferLocal, node);
    var j :| 0 <= j < |slots| && slots[j] == e;
    assert j > 0 ==> !Before(slots[j], slots[0], PreferLocal, node);
  }

  // ---- the policies -----------------------------------------------------------------------------------

  /** Some candidate that passes `fl` is reached. */
  ghost predicate ReachesOne(s: IngressSteer, fl: Filter, es: seq<Endpoint>, port: u16, node: Ip) {
    exists e :: e in es && Passes(fl, e, node) && Reaches(s, e, port, node)
  }

  /** `OnlyLocal`: a ready local pod, else a draining local one, else a ready remote one, else a drop. */
  lemma OnlyLocalGoes(m: Maps, f: LbFrontKey, es: seq<Endpoint>, port: u16, node: Ip, affinity: bool, hash: u32)
    requires var want := FrontFor(OnlyLocal, es, port, node, affinity); want.Valid() && AsDesired(m, f, want)
    ensures var s := NewFlow(m, f, hash);
            if Any(LocalReady, es, node) then ReachesOne(s, LocalReady, es, port, node)
            else if Any(LocalDraining, es, node) then ReachesOne(s, LocalDraining, es, port, node)
            else if Any(IsReady, es, node)
            then exists e :: e in es && Ready(e) && !Local(e, node) && Reaches(s, e, port, node)
            else s == Drop
  {
    ReachesEligible(m, f, OnlyLocal, es, port, node, affinity, hash);
    SelectIsEmpty(LocalReady, es, node);
    SelectIsEmpty(LocalDraining, es, node);
    SelectIsEmpty(IsReady, es, node);
    if Chosen(OnlyLocal, es, node) != [] {
      var e :| e in Chosen(OnlyLocal, es, node) && Reaches(NewFlow(m, f, hash), e, port, node);
      assert !Any(LocalReady, es, node) ==> !Passes(LocalReady, e, node);
    }
  }

  lemma SelectIsEmpty(fl: Filter, es: seq<Endpoint>, node: Ip)
    ensures Select(fl, es, node) == [] <==> !Any(fl, es, node)
  {
    if Select(fl, es, node) != [] {
      assert Select(fl, es, node)[0] in Select(fl, es, node);
    }
  }

  /** `PreferLocal`: a ready local pod if there is one, else any ready one, else a drop. */
  lemma PreferLocalGoes(m: Maps, f: LbFrontKey, es: seq<Endpoint>, port: u16, node: Ip, affinity: bool, hash: u32)
    requires var want := FrontFor(PreferLocal, es, port, node, affinity); want.Valid() && AsDesired(m, f, want)
    ensures var s := NewFlow(m, f, hash);
            if Any(LocalReady, es, node) then ReachesOne(s, LocalReady, es, port, node)
            else if Any(IsReady, es, node) then ReachesOne(s, IsReady, es, port, node)
            else s == Drop
  {
    ReachesEligible(m, f, PreferLocal, es, port, node, affinity, hash);
    SelectIsEmpty(IsReady, es, node);
    if Chosen(PreferLocal, es, node) != [] {
      var e :| e in Chosen(PreferLocal, es, node) && Reaches(NewFlow(m, f, hash), e, port, node)
               && (Any(LocalReady, es, node) ==> Local(e, node));
      assert Passes(IsReady, e, node);
    } else if Any(LocalReady, es, node) {
      LocalReadyIsReady(es, node);
      assert false;
    }
  }

  lemma LocalReadyIsReady(es: seq<Endpoint>, node: Ip)
    requires Any(LocalReady, es, node)
    ensures Any(IsReady, es, node)
  {
    var e :| e in es && Passes(LocalReady, e, node);
    assert Passes(IsReady, e, node);
  }

  // ---- two nodes, one pod -----------------------------------------------------------------------------

  function PodIps(es: seq<Endpoint>): (r: seq<Ip>)
    ensures |r| == |es| && forall i :: 0 <= i < |es| ==> r[i] == es[i].podIp
  {
    seq(|es|, i requires 0 <= i < |es| => es[i].podIp)
  }

  ghost predicate DistinctPods(es: seq<Endpoint>) {
    forall i, j :: 0 <= i < j < |es| ==> es[i].podIp != es[j].podIp
  }

  /** Sorting distinct pods by address gives an increasing list. */
  lemma UniformSlotsIncrease(es: seq<Endpoint>, node: Ip)
    requires DistinctPods(Eligible(Uniform, es, node))
    ensures ByteOrder.Increasing(PodIps(Eligible(Uniform, es, node)))
  {
    var slots := Eligible(Uniform, es, node);
    SortOrdered(Chosen(Uniform, es, node), Uniform, node);
    forall i, j | 0 <= i < j < |slots| ensures ByteOrder.Less(slots[i].podIp, slots[j].podIp) {
      assert !Before(slots[j], slots[i], Uniform, node);
      ByteOrder.LessTotal(slots[i].podIp, slots[j].podIp);
    }
  }

  /** The same ready pods, listed in whatever order and with whatever locality. */
  ghost predicate SameReadyPods(a: seq<Endpoint>, b: seq<Endpoint>) {
    forall ip :: ip in PodIps(Select(IsReady, a, [])) <==> ip in PodIps(Select(IsReady, b, []))
  }

  lemma {:induction false} ReadyIsNodeless(es: seq<Endpoint>, node: Ip)
    ensures Select(IsReady, es, node) == Select(IsReady, es, [])
  {
    if es != [] {
      ReadyIsNodeless(es[..|es| - 1], node);
    }
  }

  lemma UniformSlotsAre(es: seq<Endpoint>, node: Ip, ip: Ip)
    ensures ip in PodIps(Eligible(Uniform, es, node)) <==> ip in PodIps(Select(IsReady, es, []))
  {
    var ready, slots := Select(IsReady, es, []), Eligible(Uniform, es, node);
    ReadyIsNodeless(es, node);
    assert slots == Sort(ready, Uniform, node);
    if ip in PodIps(ready) {
      var i :| 0 <= i < |ready| && PodIps(ready)[i] == ip;
      SortHas(ready, Uniform, node, ready[i]);
      var j :| 0 <= j < |slots| && slots[j] == ready[i];
      assert PodIps(slots)[j] == ip;
    }
    if ip in PodIps(slots) {
      var i :| 0 <= i < |slots| && PodIps(slots)[i] == ip;
      SortHas(ready, Uniform, node, slots[i]);
      var j :| 0 <= j < |ready| && ready[j] == slots[i];
      assert PodIps(ready)[j] == ip;
    }
  }

  lemma {:induction false} SortKeepsDistinct(es: seq<Endpoint>, policy: EndpointPolicy, node: Ip)
    requires DistinctPods(es)
    ensures DistinctPods(Sort(es, policy, node))
  {
    if es != [] {
      var init, e := es[..|es| - 1], es[|es| - 1];
      SortKeepsDistinct(init, policy, node);
      forall x | x in Sort(init, policy, node) ensures x.podIp != e.podIp {
        SortHas(init, policy, node, x);
      }
      InsertKeepsDistinct(e, Sort(init, policy, node), policy, node);
    }
  }

  lemma {:induction false} InsertKeepsDistinct(e: Endpoint, es: seq<Endpoint>, policy: EndpointPolicy, node: Ip)
    requires DistinctPods(es) && forall x :: x in es ==> x.podIp != e.podIp
    ensures DistinctPods(Insert(e, es, policy, node))
  {
    if es != [] && !Before(e, es[0], policy, node) {
      InsertKeepsDistinct(e, es[1..], policy, node);
      InsertIs(e, es[1..], policy, node);
      var tail := Insert(e, es[1..], policy, node);
      forall j | 0 <= j < |tail| ensures tail[j].podIp != es[0].podIp {
        assert tail[j] in multiset(tail);
        assert tail[j] == e || tail[j] in es[1..];
      }
    }
  }

  /** `Uniform`: two nodes that see the same ready pods give a flow of one hash the same pod. */
  lemma UniformAgrees(m1: Maps, m2: Maps, f: LbFrontKey, a: seq<Endpoint>, b: seq<Endpoint>, port: u16,
                      node1: Ip, node2: Ip, affinity: bool, hash: u32)
    requires DistinctPods(Select(IsReady, a, [])) && DistinctPods(Select(IsReady, b, [])) && SameReadyPods(a, b)
    requires var want := FrontFor(Uniform, a, port, node1, affinity); want.Valid() && AsDesired(m1, f, want)
    requires var want := FrontFor(Uniform, b, port, node2, affinity); want.Valid() && AsDesired(m2, f, want)
    ensures var s1, s2 := NewFlow(m1, f, hash), NewFlow(m2, f, hash);
            && s1.Drop? == s2.Drop?
            && (s1.Forward? ==> s1.backend.podIp == s2.backend.podIp && s1.targetPort == s2.targetPort)
  {
    var slots1, slots2 := Eligible(Uniform, a, node1), Eligible(Uniform, b, node2);
    SameSlots(a, b, node1, node2);
    LandsOnASlot(m1, f, FrontFor(Uniform, a, port, node1, affinity), hash);
    LandsOnASlot(m2, f, FrontFor(Uniform, b, port, node2, affinity), hash);
    assert forall i :: 0 <= i < |slots1| ==> PodIps(slots1)[i] == PodIps(slots2)[i];
  }

  lemma SameSlots(a: seq<Endpoint>, b: seq<Endpoint>, node1: Ip, node2: Ip)
    requires DistinctPods(Select(IsReady, a, [])) && DistinctPods(Select(IsReady, b, [])) && SameReadyPods(a, b)
    ensures PodIps(Eligible(Uniform, a, node1)) == PodIps(Eligible(Uniform, b, node2))
  {
    ReadyIsNodeless(a, node1);
    ReadyIsNodeless(b, node2);
    SortKeepsDistinct(Select(IsReady, a, []), Uniform, node1);
    SortKeepsDistinct(Select(IsReady, b, []), Uniform, node2);
    UniformSlotsIncrease(a, node1);
    UniformSlotsIncrease(b, node2);
    forall ip ensures ip in PodIps(Eligible(Uniform, a, node1)) <==> ip in PodIps(Eligible(Uniform, b, node2)) {
      UniformSlotsAre(a, node1, ip);
      UniformSlotsAre(b, node2, ip);
    }
    ByteOrder.OneIncreasingList(PodIps(Eligible(Uniform, a, node1)), PodIps(Eligible(Uniform, b, node2)));
  }

  /** `Uniform`: a ready pod, else a drop. */
  lemma UniformGoes(m: Maps, f: LbFrontKey, es: seq<Endpoint>, port: u16, node: Ip, affinity: bool, hash: u32)
    requires var want := FrontFor(Uniform, es, port, node, affinity); want.Valid() && AsDesired(m, f, want)
    ensures var s := NewFlow(m, f, hash);
            if Any(IsReady, es, node) then ReachesOne(s, IsReady, es, port, node) else s == Drop
  {
    ReachesEligible(m, f, Uniform, es, port, node, affinity, hash);
    SelectIsEmpty(IsReady, es, node);
  }

  /** From the Service to the packet: after a completed pass the front's new flows go where its policy says. */
  lemma OnlyLocalEndToEnd(p: Pass, f: LbFrontKey, es: seq<Endpoint>, port: u16, node: Ip, affinity: bool, hash: u32)
    requires Completes(p) && f in p.inp.desired && p.inp.desired[f] == FrontFor(OnlyLocal, es, port, node, affinity)
    ensures f in Result(p).meta
    ensures var s := NewFlow(Result(p), f, hash);
            if Any(LocalReady, es, node) then ReachesOne(s, LocalReady, es, port, node)
            else if Any(LocalDraining, es, node) then ReachesOne(s, LocalDraining, es, port, node)
            else if Any(IsReady, es, node)
            then exists e :: e in es && Ready(e) && !Local(e, node) && Reaches(s, e, port, node)
            else s == Drop
  {
    Converges(p, f);
    OnlyLocalGoes(Result(p), f, es, port, node, affinity, hash);
  }

  lemma PreferLocalEndToEnd(p: Pass, f: LbFrontKey, es: seq<Endpoint>, port: u16, node: Ip, affinity: bool, hash: u32)
    requires Completes(p) && f in p.inp.desired && p.inp.desired[f] == FrontFor(PreferLocal, es, port, node, affinity)
    ensures f in Result(p).meta
    ensures var s := NewFlow(Result(p), f, hash);
            if Any(LocalReady, es, node) then ReachesOne(s, LocalReady, es, port, node)
            else if Any(IsReady, es, node) then ReachesOne(s, IsReady, es, port, node)
            else s == Drop
  {
    Converges(p, f);
    PreferLocalGoes(Result(p), f, es, port, node, affinity, hash);
  }

  /** Two nodes, each after its own completed pass: a flow of one hash reaches the same pod from both. */
  lemma UniformEndToEnd(p: Pass, q: Pass, f: LbFrontKey, a: seq<Endpoint>, b: seq<Endpoint>, port: u16,
                        node1: Ip, node2: Ip, affinity: bool, hash: u32)
    requires Completes(p) && f in p.inp.desired && p.inp.desired[f] == FrontFor(Uniform, a, port, node1, affinity)
    requires Completes(q) && f in q.inp.desired && q.inp.desired[f] == FrontFor(Uniform, b, port, node2, affinity)
    requires DistinctPods(Select(IsReady, a, [])) && DistinctPods(Select(IsReady, b, [])) && SameReadyPods(a, b)
    ensures f in Result(p).meta && f in Result(q).meta
    ensures var s1, s2 := NewFlow(Result(p), f, hash), NewFlow(Result(q), f, hash);
            && s1.Drop? == s2.Drop?
            && (s1.Forward? ==> s1.backend.podIp == s2.backend.podIp && s1.targetPort == s2.targetPort)
  {
    Converges(p, f);
    Converges(q, f);
    UniformAgrees(Result(p), Result(q), f, a, b, port, node1, node2, affinity, hash);
  }

  // ---- the policies, field by field --------------------------------------------------------------------

  /** Some candidate on this node is ready and not terminating. */
  ghost predicate ReadyHere(es: seq<Endpoint>, node: Ip) {
    exists e :: e in es && e.ready && !e.terminating && node in e.nodeAddrs
  }

  ghost predicate ReadyAnywhere(es: seq<Endpoint>) {
    exists e :: e in es && e.ready && !e.terminating
  }

  ghost predicate DrainingHere(es: seq<Endpoint>, node: Ip) {
    exists e :: e in es && e.serving && e.terminating && node in e.nodeAddrs
  }

  /** A candidate a new flow may be sent to. */
  ghost predicate MayGet(policy: EndpointPolicy, e: Endpoint, es: seq<Endpoint>, node: Ip) {
    || (e.ready && !e.terminating && (!policy.Uniform? && ReadyHere(es, node) ==> node in e.nodeAddrs)
        && (policy.OnlyLocal? && DrainingHere(es, node) ==> ReadyHere(es, node)))
    || (policy.OnlyLocal? && e.serving && e.terminating && node in e.nodeAddrs && !ReadyHere(es, node))
  }

  lemma AnyIs(es: seq<Endpoint>, node: Ip)
    ensures Any(LocalReady, es, node) <==> ReadyHere(es, node)
    ensures Any(IsReady, es, node) <==> ReadyAnywhere(es)
    ensures Any(LocalDraining, es, node) <==> DrainingHere(es, node)
  {
    if e :| e in es && Passes(LocalReady, e, node) {
    }
    if e :| e in es && e.ready && !e.terminating && node in e.nodeAddrs {
      assert Passes(LocalReady, e, node);
    }
    if e :| e in es && Passes(IsReady, e, node) {
    }
    if e :| e in es && e.ready && !e.terminating {
      assert Passes(IsReady, e, node);
    }
    if e :| e in es && Passes(LocalDraining, e, node) {
    }
    if e :| e in es && e.serving && e.terminating && node in e.nodeAddrs {
      assert Passes(LocalDraining, e, node);
    }
  }

  /**
   * A new flow reaches a candidate it may be sent to, and is dropped exactly if no pod is ready and, with
   * `OnlyLocal`, none here is draining: a terminating pod gets new flows only with `OnlyLocal`, only from its
   * own node, and only while no pod there is ready.
   */
  lemma NewFlowsGo(m: Maps, f: LbFrontKey, policy: EndpointPolicy, es: seq<Endpoint>, port: u16, node: Ip, affinity: bool, hash: u32)
    requires var want := FrontFor(policy, es, port, node, affinity); want.Valid() && AsDesired(m, f, want)
    ensures var s := NewFlow(m, f, hash);
            && (s.Forward? ==> exists e :: e in es && MayGet(policy, e, es, node) && Reaches(s, e, port, node))
            && (s.Drop? <==> !ReadyAnywhere(es) && !(policy.OnlyLocal? && DrainingHere(es, node)))
  {
    AnyIs(es, node);
    var s := NewFlow(m, f, hash);
    match policy
    case Uniform =>
      UniformGoes(m, f, es, port, node, affinity, hash);
      if e :| e in es && Passes(IsReady, e, node) && Reaches(s, e, port, node) {
        assert MayGet(policy, e, es, node);
      }
    case PreferLocal =>
      PreferLocalGoes(m, f, es, port, node, affinity, hash);
      HereIsAnywhere(es, node);
      if Any(LocalReady, es, node) {
        var e :| e in es && Passes(LocalReady, e, node) && Reaches(s, e, port, node);
        assert MayGet(policy, e, es, node);
      } else if e :| e in es && Passes(IsReady, e, node) && Reaches(s, e, port, node) {
        assert MayGet(policy, e, es, node);
      }
    case OnlyLocal =>
      OnlyLocalGoes(m, f, es, port, node, affinity, hash);
      HereIsAnywhere(es, node);
      if Any(LocalReady, es, node) {
        var e :| e in es && Passes(LocalReady, e, node) && Reaches(s, e, port, node);
        assert MayGet(policy, e, es, node);
      } else if Any(LocalDraining, es, node) {
        var e :| e in es && Passes(LocalDraining, e, node) && Reaches(s, e, port, node);
        assert MayGet(policy, e, es, node);
      } else if e :| e in es && Ready(e) && !Local(e, node) && Reaches(s, e, port, node) {
        assert MayGet(policy, e, es, node);
      }
  }

  lemma HereIsAnywhere(es: seq<Endpoint>, node: Ip)
    ensures ReadyHere(es, node) ==> ReadyAnywhere(es)
  {
    if e :| e in es && e.ready && !e.terminating && node in e.nodeAddrs {
    }
  }

  // ---- client affinity ---------------------------------------------------------------------------------

  /** The hash of a new flow of a front: bit 0 of the front's flags asks for client affinity. */
  function HashFor(meta: FrontMeta, flow: FlowHash.Flow): u32
    requires flow.Valid()
  {
    FlowHash.FrontFlowHash(flow, meta.flags % 2 == 1) as int
  }

  /** After a completed pass, every new flow of one client of a Service with client affinity goes to one place. */
  lemma AffinityEndToEnd(p: Pass, f: LbFrontKey, policy: EndpointPolicy, es: seq<Endpoint>, port: u16, node: Ip,
                         a: FlowHash.Flow, b: FlowHash.Flow)
    requires Completes(p) && f in p.inp.desired && p.inp.desired[f] == FrontFor(policy, es, port, node, true)
    requires a.Valid() && b.Valid() && a.clientPort != b.clientPort && b == a.(clientPort := b.clientPort)
    ensures f in Result(p).meta
    ensures var meta := Result(p).meta[f]; NewFlow(Result(p), f, HashFor(meta, a)) == NewFlow(Result(p), f, HashFor(meta, b))
  {
    Converges(p, f);
    SameHashFor(Result(p).meta[f], a, b);
  }

  lemma SameHashFor(meta: FrontMeta, a: FlowHash.Flow, b: FlowHash.Flow)
    requires a.Valid() && b.Valid() && a.clientPort != b.clientPort && b == a.(clientPort := b.clientPort) && meta.flags == 1
    ensures HashFor(meta, a) == HashFor(meta, b)
  {
    FlowHash.PortCountsUnlessAffine(a, b, true);
  }

  /** Without affinity two of its ports have different hashes, so they may be spread. */
  lemma NoAffinityEndToEnd(p: Pass, f: LbFrontKey, policy: EndpointPolicy, es: seq<Endpoint>, port: u16, node: Ip,
                           a: FlowHash.Flow, b: FlowHash.Flow)
    requires Completes(p) && f in p.inp.desired && p.inp.desired[f] == FrontFor(policy, es, port, node, false)
    requires a.Valid() && b.Valid() && a.clientPort != b.clientPort && b == a.(clientPort := b.clientPort)
    ensures f in Result(p).meta && HashFor(Result(p).meta[f], a) != HashFor(Result(p).meta[f], b)
  {
    Converges(p, f);
    FlowHash.PortsNeverCollide(a, b);
    DistinctWords(FlowHash.HashOf(a), FlowHash.HashOf(b));
  }

  lemma DistinctWords(x: bv32, y: bv32)
    requires x != y
    ensures x as int != y as int
  {
    assert (x as int) as bv32 == x && (y as int) as bv32 == y;
  }
}
