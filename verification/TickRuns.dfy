/**
 * Ticks, front writes and traffic in any order. Pins come from the installed rows. A row
 * outlives the plan that replaces it until its front is written, and what a flow has looked
 * up outlives that write.
 */
module TickRuns {
  import opened Types
  import opened FrontPlan
  import opened TickPlan

  /** An address as one pod's: what an installed row and a conntrack pin name. */
  datatype Pin = Pin(ip: Ip, owner: string)

  /** What the last plan handed out and whether it lets absent fronts go. */
  datatype Work = Work(fronts: map<LbFrontKey, set<Pin>>, prune: bool)

  /**
   * `rows` are the endpoints each front is installed with, `written` the fronts whose write
   * landed since the last plan, `inFlight` what flows have looked up and are not pinned to yet.
   */
  datatype State = State(known: Owners, pins: set<Pin>, rows: map<LbFrontKey, set<Pin>>, work: Work, written: set<LbFrontKey>,
                         inFlight: multiset<Pin>)

  /**
   * A tick's sweep and plan, with the pins a failed sweep happens to leave; a front's write
   * that lands, a failed or refused one being no event; a flow that looks up an endpoint of a
   * front, and, any time later or never, is pinned to it; a pin that ends by itself.
   */
  datatype Event =
    | Plan(d: Desired, installed: set<Ip>, orphans: Option<set<Ip>>, ok: bool, left: set<Pin>)
    | Write(front: LbFrontKey)
    | Lookup(front: LbFrontKey, pin: Pin)
    | Land(pin: Pin)
    | Expire(pin: Pin)

  /** The pods behind a front's endpoints. */
  function PodsOf(f: DesiredFront, backends: Owners): set<Pin> {
    set i | 0 <= i < |f.endpoints| && OwnerOf(backends, f.endpoints[i].backend.podIp).Some?
      :: Pin(f.endpoints[i].backend.podIp, OwnerOf(backends, f.endpoints[i].backend.podIp).value)
  }

  function OwnerOf(owners: Owners, ip: Ip): Option<string> {
    if ip in owners then owners[ip] else None
  }

  function SweepOf(s: State, e: Event): set<Ip>
    requires e.Plan?
  {
    SweepSet(e.d, e.installed, s.known, e.orphans)
  }

  function HandedOutBy(s: State, e: Event): map<LbFrontKey, DesiredFront>
    requires e.Plan?
  {
    PlanFor(e.d, e.installed, SweepOf(s, e), e.ok).fronts
  }

  /** The sweep of this plan removes the pin, or it ends by itself. */
  predicate Evicts(s: State, e: Event, p: Pin) {
    (e.Plan? && p.ip in SweepOf(s, e) && (e.ok || p !in e.left)) || e == Expire(p)
  }

  function AfterPlan(s: State, e: Event): State
    requires e.Plan?
  {
    var sweep := SweepOf(s, e);
    var plan := PlanFor(e.d, e.installed, sweep, e.ok);
    var pins := set p | p in s.pins && !Evicts(s, e, p);
    var fronts := map f | f in plan.fronts :: PodsOf(plan.fronts[f], e.d.backends);
    State(KnownAfter(e.d, s.known, Pending(sweep, e.ok)), pins, s.rows, Work(fronts, plan.pruneFronts), {}, s.inFlight)
  }

  function Next(s: State, e: Event): State {
    match e
    case Plan(_, _, _, _, _) => AfterPlan(s, e)
    case Write(f) =>
      if f in s.work.fronts then s.(rows := s.rows[f := s.work.fronts[f]], written := s.written + {f})
      else if s.work.prune then s.(rows := Remove(s.rows, f), written := s.written + {f})
      else s
    case Lookup(f, p) => if f in s.rows && p in s.rows[f] then s.(inFlight := s.inFlight + multiset{p}) else s
    case Land(p) => if p in s.inFlight then s.(pins := s.pins + {p}, inFlight := s.inFlight - multiset{p}) else s
    case Expire(p) => s.(pins := s.pins - {p})
  }

  /** Pod targets and pod uids are known, and fronts name tracked backends only. */
  ghost predicate Covered(e: Event) {
    e.Plan? ==>
      && e.d.podTargetsKnown
      && (forall ip :: ip in e.d.backends ==> e.d.backends[ip].Some?)
      && (forall f, i :: f in e.d.fronts && 0 <= i < |e.d.fronts[f].endpoints| ==>
            e.d.fronts[f].endpoints[i].backend.podIp in e.d.backends)
  }

  ghost predicate UidsKnown(s: State) {
    forall ip :: ip in s.known ==> s.known[ip].Some?
  }

  /** Events, and the state before, between and after them. */
  datatype TickRun = TickRun(events: seq<Event>, states: seq<State>) {
    ghost predicate StepAt(i: nat)
      requires |states| == |events| + 1 && i < |events|
    {
      Covered(events[i]) && states[i + 1] == Next(states[i], events[i])
    }

    ghost predicate Valid() {
      && |states| == |events| + 1 && UidsKnown(states[0])
      && forall i :: 0 <= i < |events| ==> StepAt(i)
    }
  }

  /** The planner does not take the address to be this pod's: it forgot it, or knows another owner. */
  predicate Stale(s: State, p: Pin) {
    OwnerOf(s.known, p.ip) != Some(p.owner)
  }

  lemma UidsStep(s: State, e: Event)
    requires UidsKnown(s) && Covered(e)
    ensures UidsKnown(Next(s, e))
  {
  }

  lemma {:induction false} UidsStayKnown(r: TickRun, n: nat)
    requires r.Valid() && n <= |r.events|
    ensures UidsKnown(r.states[n])
  {
    if n > 0 {
      UidsStayKnown(r, n - 1);
      assert r.StepAt(n - 1);
      UidsStep(r.states[n - 1], r.events[n - 1]);
    }
  }

  /** A plan either evicts a pin of the owner it knows, or goes on knowing that owner. */
  lemma CurrentStaysCurrent(s: State, e: Event, p: Pin)
    requires UidsKnown(s) && Covered(e) && !Stale(s, p)
    ensures Evicts(s, e, p) || !Stale(Next(s, e), p)
  {
  }

  // ---- which pins are foreign ------------------------------------------------------------------------

  /** A flow that looked `p` up is pinned to it. */
  predicate MadeBy(s: State, e: Event, p: Pin) {
    e == Land(p) && p in s.inFlight
  }

  /** In state `m` the pin `p` is there and stale, as at the start or just made. */
  ghost predicate MadeStale(r: TickRun, m: nat, p: Pin)
    requires r.Valid() && m <= |r.events|
  {
    Stale(r.states[m], p) && if m == 0 then p in r.states[0].pins else MadeBy(r.states[m - 1], r.events[m - 1], p)
  }

  ghost predicate NeverEvicted(r: TickRun, m: nat, n: nat, p: Pin)
    requires r.Valid() && m <= n <= |r.events|
  {
    forall j :: m <= j < n ==> !Evicts(r.states[j], r.events[j], p)
  }

  lemma PinStep(s: State, e: Event, p: Pin)
    ensures p in Next(s, e).pins <==> (p in s.pins && !Evicts(s, e, p)) || MadeBy(s, e, p)
  {
  }

  lemma {:induction false} PinStays(r: TickRun, m: nat, n: nat, p: Pin)
    requires r.Valid() && m <= n <= |r.events| && p in r.states[m].pins && NeverEvicted(r, m, n, p)
    ensures p in r.states[n].pins
    decreases n
  {
    if m < n {
      PinStays(r, m, n - 1, p);
      PinKept(r, n - 1, p);
    }
  }

  lemma PinKept(r: TickRun, n: nat, p: Pin)
    requires r.Valid() && n < |r.events| && p in r.states[n].pins && !Evicts(r.states[n], r.events[n], p)
    ensures p in r.states[n + 1].pins
  {
    assert r.StepAt(n);
    PinStep(r.states[n], r.events[n], p);
  }

  /** A stale pin was made stale, and nothing has removed it since. */
  lemma {:induction false} StalePinWasMade(r: TickRun, n: nat, p: Pin) returns (m: nat)
    requires r.Valid() && n <= |r.events| && p in r.states[n].pins && Stale(r.states[n], p)
    ensures m <= n && MadeStale(r, m, p) && NeverEvicted(r, m, n, p)
  {
    if n == 0 || MadeStale(r, n, p) {
      m := n;
    } else {
      StaleBefore(r, n - 1, p);
      m := StalePinWasMade(r, n - 1, p);
    }
  }

  /** A stale pin that was not just made was there and stale before. */
  lemma StaleBefore(r: TickRun, n: nat, p: Pin)
    requires r.Valid() && n < |r.events| && p in r.states[n + 1].pins && Stale(r.states[n + 1], p)
    requires !MadeBy(r.states[n], r.events[n], p)
    ensures p in r.states[n].pins && Stale(r.states[n], p) && !Evicts(r.states[n], r.events[n], p)
  {
    assert r.StepAt(n);
    UidsStayKnown(r, n);
    PinStep(r.states[n], r.events[n], p);
    if !Stale(r.states[n], p) {
      CurrentStaysCurrent(r.states[n], r.events[n], p);
    }
  }

  /**
   * A pin the planner takes to be another pod's is there if and only if a flow was pinned to that
   * pod when the planner no longer knew it there, or the start had such a pin, and nothing removed it since.
   */
  lemma StalePinIff(r: TickRun, n: nat, p: Pin)
    requires r.Valid() && n <= |r.events| && Stale(r.states[n], p)
    ensures p in r.states[n].pins <==> exists m :: 0 <= m <= n && MadeStale(r, m, p) && NeverEvicted(r, m, n, p)
  {
    if p in r.states[n].pins {
      var m := StalePinWasMade(r, n, p);
    }
    if m :| 0 <= m <= n && MadeStale(r, m, p) && NeverEvicted(r, m, n, p) {
      MadeIsThere(r, m, p);
      PinStays(r, m, n, p);
    }
  }

  lemma MadeIsThere(r: TickRun, m: nat, p: Pin)
    requires r.Valid() && m <= |r.events| && MadeStale(r, m, p)
    ensures p in r.states[m].pins
  {
    if m > 0 {
      assert r.StepAt(m - 1);
      PinStep(r.states[m - 1], r.events[m - 1], p);
    }
  }

  // ---- sweep before install --------------------------------------------------------------------------

  lemma HandedOutIsKnown(s: State, e: Event, f: LbFrontKey, i: nat)
    requires e.Plan? && Covered(e) && f in HandedOutBy(s, e) && i < |HandedOutBy(s, e)[f].endpoints|
    ensures var ip := HandedOutBy(s, e)[f].endpoints[i].backend.podIp;
            ip in e.d.backends && OwnerOf(Next(s, e).known, ip) == e.d.backends[ip]
  {
    assert !Names(e.d.fronts[f], Pending(SweepOf(s, e), e.ok));
  }

  /** Plan `n` hands out front `f`, and its endpoint `i` is at address `ip`. */
  ghost predicate HandsOut(r: TickRun, n: nat, f: LbFrontKey, i: nat, ip: Ip)
    requires r.Valid() && n < |r.events|
  {
    r.events[n].Plan? &&
    var fronts := HandedOutBy(r.states[n], r.events[n]);
    f in fronts && i < |fronts[f].endpoints| && fronts[f].endpoints[i].backend.podIp == ip
  }

  lemma HandedOutOwner(r: TickRun, n: nat, f: LbFrontKey, i: nat, ip: Ip)
    requires r.Valid() && n < |r.events| && HandsOut(r, n, f, i, ip)
    ensures ip in r.events[n].d.backends && OwnerOf(r.states[n + 1].known, ip) == r.events[n].d.backends[ip]
  {
    assert r.StepAt(n);
    HandedOutIsKnown(r.states[n], r.events[n], f, i);
  }

  /**
   * Sweep before install: when a front is handed out for writing, a pin on an address it names
   * made for another pod is there if and only if some flow was pinned to that pod when the planner
   * no longer knew it there, or the run began with such a pin, and nothing up to this plan removed it.
   */
  lemma SweepBeforeInstall(r: TickRun, n: nat, f: LbFrontKey, i: nat, p: Pin)
    requires r.Valid() && n < |r.events| && HandsOut(r, n, f, i, p.ip)
    requires p.ip in r.events[n].d.backends && r.events[n].d.backends[p.ip] != Some(p.owner)
    ensures p in r.states[n + 1].pins <==>
              exists m :: 0 <= m <= n && MadeStale(r, m, p) && NeverEvicted(r, m, n + 1, p)
  {
    HandedOutOwner(r, n, f, i, p.ip);
    StalePinIff(r, n + 1, p);
    assert !MadeStale(r, n + 1, p);
  }

  /** So runs in which every flow is pinned to a pod the planner knows hand out no front over another pod's pin. */
  lemma CurrentPinsAreSafe(r: TickRun, n: nat, f: LbFrontKey, i: nat, p: Pin)
    requires r.Valid() && n < |r.events| && HandsOut(r, n, f, i, p.ip) && p in r.states[n + 1].pins
    requires forall m :: 0 <= m <= n ==> !MadeStale(r, m, p)
    ensures p.ip in r.events[n].d.backends && r.events[n].d.backends[p.ip] == Some(p.owner)
  {
    HandedOutOwner(r, n, f, i, p.ip);
    if r.events[n].d.backends[p.ip] != Some(p.owner) {
      SweepBeforeInstall(r, n, f, i, p);
      assert false;
    }
  }

  /** Exactly which pins a successful tick leaves on a backend it installs: those whose address it has no quarrel with. */
  lemma PinSurvivesIff(s: State, e: Event, p: Pin)
    requires e.Plan? && e.ok && Covered(e) && UidsKnown(s) && p in s.pins && p.ip in e.d.backends
    ensures p in Next(s, e).pins <==>
              && (e.orphans.Some? ==> p.ip !in e.orphans.value)
              && (p.ip in e.installed ==> p.ip in e.d.podTargets)
              && (p.ip in s.known ==> s.known[p.ip] == e.d.backends[p.ip])
  {
    PinStep(s, e, p);
    SweptIff(s, e, p.ip);
  }

  lemma SweptIff(s: State, e: Event, ip: Ip)
    requires e.Plan? && Covered(e) && UidsKnown(s) && ip in e.d.backends
    ensures ip in SweepOf(s, e) <==>
              || (e.orphans.Some? && ip in e.orphans.value)
              || (ip in e.installed && ip !in e.d.podTargets)
              || (ip in s.known && s.known[ip] != e.d.backends[ip])
  {
  }

  // ---- when rows are stale ---------------------------------------------------------------------------

  ghost predicate RowsCurrent(s: State, f: LbFrontKey) {
    f in s.rows ==> forall p :: p in s.rows[f] ==> !Stale(s, p)
  }

  /** What the last plan handed out is current, and so are the fronts written since. */
  ghost predicate WorkIsCurrent(s: State) {
    && (forall f, p :: f in s.work.fronts && p in s.work.fronts[f] ==> !Stale(s, p))
    && (forall f :: f in s.written ==> RowsCurrent(s, f))
  }

  lemma PlannedIsCurrent(s: State, e: Event)
    requires e.Plan? && Covered(e)
    ensures WorkIsCurrent(Next(s, e))
  {
    var s', plan := Next(s, e), HandedOutBy(s, e);
    forall f, p | f in s'.work.fronts && p in s'.work.fronts[f] ensures !Stale(s', p) {
      assert p in PodsOf(plan[f], e.d.backends);
      var i :| 0 <= i < |plan[f].endpoints| && plan[f].endpoints[i].backend.podIp == p.ip &&
               OwnerOf(e.d.backends, p.ip) == Some(p.owner);
      HandedOutIsKnown(s, e, f, i);
    }
  }

  lemma OthersStep(s: State, e: Event)
    requires !e.Plan?
    ensures Next(s, e).known == s.known && Next(s, e).work == s.work
  {
  }

  /** Only a plan and a write change rows. */
  lemma RowsStep(s: State, e: Event)
    requires !e.Plan? && !e.Write?
    ensures Next(s, e).rows == s.rows && Next(s, e).written == s.written
  {
  }

  lemma WriteStep(s: State, g: LbFrontKey, f: LbFrontKey, p: Pin)
    requires f in Next(s, Write(g)).written && f in Next(s, Write(g)).rows && p in Next(s, Write(g)).rows[f]
    ensures (f in s.written && f in s.rows && p in s.rows[f]) || (f in s.work.fronts && p in s.work.fronts[f])
  {
  }

  lemma OthersKeepWork(s: State, e: Event)
    requires !e.Plan? && WorkIsCurrent(s)
    ensures WorkIsCurrent(Next(s, e))
  {
    var s' := Next(s, e);
    OthersStep(s, e);
    forall f, p | f in s'.written && f in s'.rows && p in s'.rows[f] ensures !Stale(s', p) {
      if e.Write? {
        WriteStep(s, e.front, f, p);
      } else {
        RowsStep(s, e);
      }
      assert f in s.written ==> RowsCurrent(s, f);
      assert !Stale(s, p);
    }
    forall f, p | f in s'.work.fronts && p in s'.work.fronts[f] ensures !Stale(s', p) {
      assert !Stale(s, p);
    }
  }

  /** In every run, a front written since the last plan has current rows: only unwritten fronts hold stale ones. */
  lemma {:induction false} WrittenRowsAreCurrent(r: TickRun, n: nat)
    requires r.Valid() && n <= |r.events| && WorkIsCurrent(r.states[0])
    ensures WorkIsCurrent(r.states[n])
  {
    if n > 0 {
      WrittenRowsAreCurrent(r, n - 1);
      assert r.StepAt(n - 1);
      if r.events[n - 1].Plan? {
        PlannedIsCurrent(r.states[n - 1], r.events[n - 1]);
      } else {
        OthersKeepWork(r.states[n - 1], r.events[n - 1]);
      }
    }
  }

  // ---- where stale pins come from --------------------------------------------------------------------

  /** The flow finds `p` among the endpoints of `f`. */
  predicate Finds(s: State, e: Event, f: LbFrontKey, p: Pin) {
    e == Lookup(f, p) && f in s.rows && p in s.rows[f]
  }

  ghost predicate NoPlan(r: TickRun, a: nat, b: nat)
    requires a <= b <= |r.events|
  {
    forall j :: a <= j < b ==> !r.events[j].Plan?
  }

  /** Event `x` writes `f`, and no plan follows up to state `n`. */
  ghost predicate WritesAt(r: TickRun, x: nat, n: nat, f: LbFrontKey)
    requires r.Valid() && x < n <= |r.events|
  {
    r.events[x] == Write(f) && f in r.states[x + 1].written && NoPlan(r, x, n)
  }

  lemma NoPlanStep(s: State, e: Event)
    requires !e.Plan?
    ensures Next(s, e).known == s.known && s.written <= Next(s, e).written
    ensures forall f :: f in Next(s, e).written ==> f in s.written || e == Write(f)
  {
    match e
    case Write(g) =>
    case Lookup(g, p) =>
    case Land(p) =>
    case Expire(p) =>
  }

  lemma {:induction false} BetweenPlans(r: TickRun, a: nat, b: nat)
    requires r.Valid() && a <= b <= |r.events| && NoPlan(r, a, b)
    ensures r.states[a].known == r.states[b].known && r.states[a].written <= r.states[b].written
    decreases b
  {
    if a < b {
      BetweenPlans(r, a, b - 1);
      assert r.StepAt(b - 1);
      NoPlanStep(r.states[b - 1], r.events[b - 1]);
    }
  }

  lemma PlanClearsWritten(s: State, e: Event)
    requires e.Plan?
    ensures Next(s, e).written == {}
  {
  }

  /** A front written since the last plan was written by an event since then, or before the run. */
  lemma {:induction false} WrittenWhen(r: TickRun, n: nat, f: LbFrontKey)
    requires r.Valid() && n <= |r.events| && f in r.states[n].written
    ensures (f in r.states[0].written && NoPlan(r, 0, n)) || exists x :: 0 <= x < n && WritesAt(r, x, n, f)
  {
    if n > 0 {
      var e, s := r.events[n - 1], r.states[n - 1];
      assert r.StepAt(n - 1);
      if e.Plan? {
        PlanClearsWritten(s, e);
        assert false;
      }
      NoPlanStep(s, e);
      if f !in s.written || e == Write(f) {
        assert WritesAt(r, n - 1, n, f);
      } else {
        var b := n - 1;
        WrittenWhen(r, b, f);
        if x :| 0 <= x < b && WritesAt(r, x, b, f) {
          assert WritesAt(r, x, n, f);
        }
      }
    }
  }

  /** What a front written since the last plan serves stays current until the next one. */
  lemma FoundWrittenIsCurrent(r: TickRun, l: nat, n: nat, f: LbFrontKey, p: Pin)
    requires r.Valid() && l < n <= |r.events| && WorkIsCurrent(r.states[0])
    requires Finds(r.states[l], r.events[l], f, p) && f in r.states[l].written && NoPlan(r, l, n)
    ensures !Stale(r.states[n], p)
  {
    WrittenRowsAreCurrent(r, l);
    assert RowsCurrent(r.states[l], f);
    BetweenPlans(r, l, n);
  }

  /** `f` has not been written since the last plan, or only after event `l`. */
  ghost predicate UnwrittenOrLater(r: TickRun, l: nat, n: nat, f: LbFrontKey)
    requires r.Valid() && n <= |r.events|
  {
    f !in r.states[n].written || exists x :: l < x < n && WritesAt(r, x, n, f)
  }

  /** What a lookup found and is stale by now came from a front not written since the last plan, or was found before that write. */
  lemma StaleLookups(r: TickRun, l: nat, n: nat, f: LbFrontKey, p: Pin)
    requires r.Valid() && l < n <= |r.events| && WorkIsCurrent(r.states[0])
    requires Finds(r.states[l], r.events[l], f, p) && Stale(r.states[n], p)
    ensures UnwrittenOrLater(r, l, n, f)
  {
    if f in r.states[n].written {
      WrittenWhen(r, n, f);
      if x :| 0 <= x < n && WritesAt(r, x, n, f) {
        if x < l {
          BetweenPlans(r, x + 1, l);
          FoundWrittenIsCurrent(r, l, n, f, p);
        }
      } else {
        BetweenPlans(r, 0, l);
        FoundWrittenIsCurrent(r, l, n, f, p);
      }
    }
  }

  lemma InFlightStep(s: State, e: Event, p: Pin)
    requires p in Next(s, e).inFlight && p !in s.inFlight
    ensures e.Lookup? && Finds(s, e, e.front, p)
  {
  }

  lemma {:induction false} InFlightWasFound(r: TickRun, n: nat, p: Pin) returns (l: nat)
    requires r.Valid() && n <= |r.events| && p in r.states[n].inFlight && p !in r.states[0].inFlight
    ensures l < n && r.events[l].Lookup? && Finds(r.states[l], r.events[l], r.events[l].front, p)
  {
    if p in r.states[n - 1].inFlight {
      l := InFlightWasFound(r, n - 1, p);
    } else {
      assert r.StepAt(n - 1);
      InFlightStep(r.states[n - 1], r.events[n - 1], p);
      l := n - 1;
    }
  }

  /**
   * A stale pin is made only by a flow whose lookup hit a front not written since the last plan,
   * or began before that write.
   */
  lemma StalePinsAreLate(r: TickRun, m: nat, p: Pin) returns (l: nat)
    requires r.Valid() && 0 < m <= |r.events| && WorkIsCurrent(r.states[0]) && p !in r.states[0].inFlight
    requires MadeStale(r, m, p)
    ensures l < m - 1 && r.events[l].Lookup? && Finds(r.states[l], r.events[l], r.events[l].front, p)
    ensures forall k, f :: 0 <= k < m - 1 && Finds(r.states[k], r.events[k], f, p) ==> UnwrittenOrLater(r, k, m - 1, f)
  {
    var n := m - 1;
    l := InFlightWasFound(r, n, p);
    assert r.StepAt(n);
    NoPlanStep(r.states[n], r.events[n]);
    forall k, f | 0 <= k < n && Finds(r.states[k], r.events[k], f, p) ensures UnwrittenOrLater(r, k, n, f) {
      StaleLookups(r, k, n, f, p);
    }
  }

  /** A plan whose sweep failed leaves every current row current: what it could not sweep it still knows. */
  lemma FailedSweepKeepsRows(s: State, e: Event, f: LbFrontKey)
    requires e.Plan? && !e.ok && Covered(e) && UidsKnown(s) && RowsCurrent(s, f)
    ensures RowsCurrent(Next(s, e), f)
  {
    if f in s.rows {
      forall p | p in s.rows[f] ensures !Stale(Next(s, e), p) {
        CurrentOwnerStays(s, e, p);
      }
    }
  }

  lemma CurrentOwnerStays(s: State, e: Event, p: Pin)
    requires e.Plan? && !e.ok && Covered(e) && UidsKnown(s) && !Stale(s, p)
    ensures !Stale(Next(s, e), p)
  {
  }

  // ---- the gap ---------------------------------------------------------------------------------------

  function OneFront(front: LbFrontKey, ip: Ip): map<LbFrontKey, DesiredFront> {
    map[front := DesiredFront(0, false, [FrontEndpoint(LbFrontBackend([], ip), 0, 0)])]
  }

  function OneWork(front: LbFrontKey, ip: Ip, owner: string): Work {
    Work(map[front := {Pin(ip, owner)}], true)
  }

  function TickOf(fronts: map<LbFrontKey, DesiredFront>, backends: Owners): Event {
    Event.Plan(Desired(fronts, {}, backends, true), {}, None, true, {})
  }

  lemma OneFrontTick(s: State, front: LbFrontKey, ip: Ip, owner: string)
    requires s.known == map[]
    ensures var e := TickOf(OneFront(front, ip), map[ip := Some(owner)]);
            && Covered(e) && HandedOutBy(s, e) == OneFront(front, ip)
            && Next(s, e) == State(map[ip := Some(owner)], s.pins, s.rows, OneWork(front, ip, owner), {}, s.inFlight)
  {
    var e := TickOf(OneFront(front, ip), map[ip := Some(owner)]);
    var d := OneFront(front, ip)[front];
    assert SweepOf(s, e) == {};
    assert HandedOut(OneFront(front, ip), {}) == OneFront(front, ip);
    assert KnownAfter(e.d, s.known, {}) == map[ip := Some(owner)];
    assert PodsOf(d, e.d.backends) == {Pin(ip, owner)} by {
      assert d.endpoints[0].backend.podIp == ip;
    }
    assert Next(s, e).work.fronts == map[front := {Pin(ip, owner)}];
    assert Next(s, e).pins == s.pins;
  }

  lemma EmptySweep(s: State, ip: Ip)
    requires s.known.Keys <= {ip}
    ensures SweepOf(s, TickOf(map[], map[])) <= {ip}
  {
  }

  lemma EmptyPlan(known: Owners, sweep: set<Ip>)
    ensures var d := TickOf(map[], map[]).d;
            KnownAfter(d, known, {}) == map[] && PlanFor(d, {}, sweep, true).fronts == map[] && PlanFor(d, {}, sweep, true).pruneFronts
  {
    assert HandedOut(map[], {}) == map[];
    assert KnownAfter(TickOf(map[], map[]).d, known, {}) == map[];
  }

  lemma EmptyTick(s: State, ip: Ip)
    requires s.known.Keys <= {ip} && forall p :: p in s.pins ==> p.ip != ip
    ensures var e := TickOf(map[], map[]);
            Covered(e) && Next(s, e) == State(map[], s.pins, s.rows, Work(map[], true), {}, s.inFlight)
  {
    var e := TickOf(map[], map[]);
    EmptySweep(s, ip);
    EmptyPlan(s.known, SweepOf(s, e));
    assert Next(s, e).work.fronts == map[];
    assert Next(s, e).pins == s.pins;
  }

  /** A run goes on by one event. */
  lemma GoesOn(r: TickRun, e: Event, s: State)
    requires r.Valid() && Covered(e) && s == Next(r.states[|r.events|], e)
    ensures TickRun(r.events + [e], r.states + [s]).Valid()
  {
    var r' := TickRun(r.events + [e], r.states + [s]);
    forall i | 0 <= i < |r'.events| ensures r'.StepAt(i) {
      SameStep(r, r', i);
    }
  }

  lemma SameStep(r: TickRun, r': TickRun, i: nat)
    requires |r.states| == |r.events| + 1 && |r'.states| == |r'.events| + 1 && |r'.events| == |r.events| + 1
    requires r.events <= r'.events && r.states <= r'.states && i < |r'.events|
    requires if i < |r.events| then r.StepAt(i) else Covered(r'.events[i]) && r'.states[i + 1] == Next(r'.states[i], r'.events[i])
    ensures r'.StepAt(i)
  {
    if i < |r.events| {
      assert r'.events[i] == r.events[i] && r'.states[i] == r.states[i] && r'.states[i + 1] == r.states[i + 1];
    }
  }

  lemma OneFrontGoesOn(r: TickRun, front: LbFrontKey, ip: Ip, owner: string, s: State, s': State)
    requires r.Valid() && s == r.states[|r.events|] && s.known == map[]
    requires s' == State(map[ip := Some(owner)], s.pins, s.rows, OneWork(front, ip, owner), {}, s.inFlight)
    ensures TickRun(r.events + [TickOf(OneFront(front, ip), map[ip := Some(owner)])], r.states + [s']).Valid()
  {
    OneFrontTick(s, front, ip, owner);
    GoesOn(r, TickOf(OneFront(front, ip), map[ip := Some(owner)]), s');
  }

  lemma EmptyGoesOn(r: TickRun, ip: Ip, s: State, s': State)
    requires r.Valid() && s == r.states[|r.events|] && s.known.Keys <= {ip} && s.pins == {}
    requires s' == State(map[], {}, s.rows, Work(map[], true), {}, s.inFlight)
    ensures TickRun(r.events + [TickOf(map[], map[])], r.states + [s']).Valid()
  {
    EmptyTick(s, ip);
    GoesOn(r, TickOf(map[], map[]), s');
  }

  lemma WriteGoesOn(r: TickRun, f: LbFrontKey, s: State, s': State)
    requires r.Valid() && s == r.states[|r.events|] && f in s.work.fronts
    requires s' == s.(rows := s.rows[f := s.work.fronts[f]], written := s.written + {f})
    ensures TickRun(r.events + [Write(f)], r.states + [s']).Valid()
  {
    GoesOn(r, Write(f), s');
  }

  lemma RemovalGoesOn(r: TickRun, f: LbFrontKey, s: State, s': State)
    requires r.Valid() && s == r.states[|r.events|] && s.work == Work(map[], true)
    requires s' == s.(rows := Remove(s.rows, f), written := s.written + {f})
    ensures TickRun(r.events + [Write(f)], r.states + [s']).Valid()
  {
    GoesOn(r, Write(f), s');
  }

  lemma LookupGoesOn(r: TickRun, f: LbFrontKey, p: Pin, s: State, s': State)
    requires r.Valid() && s == r.states[|r.events|] && f in s.rows && p in s.rows[f]
    requires s' == s.(inFlight := s.inFlight + multiset{p})
    ensures TickRun(r.events + [Lookup(f, p)], r.states + [s']).Valid()
  {
    GoesOn(r, Lookup(f, p), s');
  }

  lemma LandGoesOn(r: TickRun, p: Pin, s: State, s': State)
    requires r.Valid() && s == r.states[|r.events|] && p in s.inFlight
    requires s' == s.(pins := s.pins + {p}, inFlight := s.inFlight - multiset{p})
    ensures TickRun(r.events + [Land(p)], r.states + [s']).Valid()
  {
    GoesOn(r, Land(p), s');
  }

  function FirstState(): State {
    State(map[], {}, map[], Work(map[], false), {}, multiset{})
  }

  /** From the start: front `f` is planned with one endpoint of pod `a`, and written. */
  lemma Installed(f: LbFrontKey, ip: Ip, a: string) returns (r: TickRun)
    ensures r.Valid() && |r.events| == 2 && r.states[0] == FirstState() && r.events[1] == Write(f)
    ensures r.states[2] == State(map[ip := Some(a)], {}, map[f := {Pin(ip, a)}], OneWork(f, ip, a), {f}, multiset{})
  {
    var first := TickOf(OneFront(f, ip), map[ip := Some(a)]);
    var s1 := State(map[ip := Some(a)], {}, map[], OneWork(f, ip, a), {}, multiset{});
    var s2 := State(map[ip := Some(a)], {}, map[f := {Pin(ip, a)}], OneWork(f, ip, a), {f}, multiset{});
    var r0 := TickRun([], [FirstState()]);
    OneFrontGoesOn(r0, f, ip, a, FirstState(), s1);
    var r1 := TickRun(r0.events + [first], r0.states + [s1]);
    WriteGoesOn(r1, f, s1, s2);
    r := TickRun(r1.events + [Write(f)], r1.states + [s2]);
  }

  /**
   * The pod `a` behind front `f` goes, the tick that notices sweeps its pins, and before `f` is
   * written, or because that write fails, a flow is pinned through `f`'s old row. The address
   * comes back as `b`'s, and front `g` is handed out over the pin of `a`.
   */
  lemma GapPinsADepartedPod(f: LbFrontKey, g: LbFrontKey, ip: Ip, a: string, b: string) returns (r: TickRun)
    ensures r.Valid() && r.states[0] == FirstState() && |r.events| == 6
    ensures r.events[5] == TickOf(OneFront(g, ip), map[ip := Some(b)]) && HandsOut(r, 5, g, 0, ip)
    ensures Pin(ip, a) in r.states[6].pins
  {
    var p, rows, none := Pin(ip, a), map[f := {Pin(ip, a)}], Work(map[], true);
    var r2 := Installed(f, ip, a);
    var s3 := State(map[], {}, rows, none, {}, multiset{});
    EmptyGoesOn(r2, ip, r2.states[2], s3);
    var r3 := TickRun(r2.events + [TickOf(map[], map[])], r2.states + [s3]);
    var s4 := State(map[], {}, rows, none, {}, multiset{p});
    LookupGoesOn(r3, f, p, s3, s4);
    var r4 := TickRun(r3.events + [Lookup(f, p)], r3.states + [s4]);
    var s5 := State(map[], {p}, rows, none, {}, multiset{});
    LandGoesOn(r4, p, s4, s5);
    var r5 := TickRun(r4.events + [Land(p)], r4.states + [s5]);
    r := HandOutLast(r5, g, ip, b, s5);
  }

  /**
   * A flow looks up `f`'s row while pod `a` is there. The pod goes, the tick sweeps, `f` is removed,
   * and only then is the flow pinned, when no row is left and none is stale. The address comes back
   * as `b`'s, and front `g` is handed out over the pin of `a`.
   */
  lemma SlowFlowPinsADepartedPod(f: LbFrontKey, g: LbFrontKey, ip: Ip, a: string, b: string) returns (r: TickRun)
    ensures r.Valid() && r.states[0] == FirstState() && |r.events| == 7
    ensures Finds(r.states[2], r.events[2], f, Pin(ip, a)) && !Stale(r.states[2], Pin(ip, a))
    ensures r.events[5] == Land(Pin(ip, a)) && r.states[5].rows == map[] && f in r.states[5].written
    ensures r.events[6] == TickOf(OneFront(g, ip), map[ip := Some(b)]) && HandsOut(r, 6, g, 0, ip)
    ensures Pin(ip, a) in r.states[7].pins
  {
    var p, rows, none := Pin(ip, a), map[f := {Pin(ip, a)}], Work(map[], true);
    var r2 := Installed(f, ip, a);
    var s3 := State(map[ip := Some(a)], {}, rows, OneWork(f, ip, a), {f}, multiset{p});
    LookupGoesOn(r2, f, p, r2.states[2], s3);
    var r3 := TickRun(r2.events + [Lookup(f, p)], r2.states + [s3]);
    var s4 := State(map[], {}, rows, none, {}, multiset{p});
    EmptyGoesOn(r3, ip, s3, s4);
    var r4 := TickRun(r3.events + [TickOf(map[], map[])], r3.states + [s4]);
    var s5 := State(map[], {}, map[], none, {f}, multiset{p});
    assert Remove(rows, f) == map[];
    RemovalGoesOn(r4, f, s4, s5);
    var r5 := TickRun(r4.events + [Write(f)], r4.states + [s5]);
    var s6 := State(map[], {p}, map[], none, {f}, multiset{});
    LandGoesOn(r5, p, s5, s6);
    var r6 := TickRun(r5.events + [Land(p)], r5.states + [s6]);
    r := HandOutLast(r6, g, ip, b, s6);
  }

  lemma HandOutLast(r: TickRun, g: LbFrontKey, ip: Ip, b: string, s: State) returns (r': TickRun)
    requires r.Valid() && s == r.states[|r.events|] && s.known == map[]
    ensures r'.Valid() && r'.events == r.events + [TickOf(OneFront(g, ip), map[ip := Some(b)])]
    ensures |r'.states| == |r.states| + 1 && r.states <= r'.states && r'.states[|r.states|].pins == s.pins
    ensures HandsOut(r', |r.events|, g, 0, ip)
  {
    var s' := State(map[ip := Some(b)], s.pins, s.rows, OneWork(g, ip, b), {}, s.inFlight);
    OneFrontGoesOn(r, g, ip, b, s, s');
    r' := TickRun(r.events + [TickOf(OneFront(g, ip), map[ip := Some(b)])], r.states + [s']);
    OneFrontHandsOut(r', |r.events|, g, ip, b);
  }

  lemma OneFrontHandsOut(r: TickRun, n: nat, g: LbFrontKey, ip: Ip, b: string)
    requires r.Valid() && n < |r.events| && r.events[n] == TickOf(OneFront(g, ip), map[ip := Some(b)])
    requires r.states[n].known == map[]
    ensures HandsOut(r, n, g, 0, ip)
  {
    OneFrontTick(r.states[n], g, ip, b);
  }
}
