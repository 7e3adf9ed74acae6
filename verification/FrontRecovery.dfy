/** Failed and stopped passes leave nothing behind that could keep a later pass from fitting and converging. */
module FrontRecovery {
  import opened Types
  import opened FrontPlan
  import opened FrontSafety
  import opened FrontConverge
  import opened FrontResults
  import opened FrontSizing
  import opened FrontCapacity

  /** Every row is a slot below `e`, with zeroed padding. */
  ghost predicate SmallSlots(m: Maps, e: nat) {
    forall k :: k in m.eps ==> k.pad == 0 && k.slot < e
  }

  ghost predicate Fits(m: Maps, e: nat, cap: Capacity) {
    SmallSlots(m, e) && WithinCaps(m, cap)
  }

  /** A full map takes no new key. */
  predicate KernelTakes(m: Maps, w: FrontWrite, cap: Capacity) {
    && (w.PutEndpoint? ==> w.key in m.eps || |m.eps| < cap.endpoints)
    && (w.PutMeta? ==> w.front in m.meta || |m.meta| < cap.meta)
  }

  predicate WantsAtMost(inp: Input, e: nat) {
    forall f :: f in inp.desired ==> |inp.desired[f].endpoints| <= e
  }

  /** The kernel takes no step `k` of this run that the caps leave no room for. */
  predicate TakesAt(r: Run, steps: seq<FrontWrite>, ok: seq<bool>, live: Option<FrontMeta>, k: nat, cap: Capacity)
    requires k < |steps| == |ok|
  {
    ok[k] ==> KernelTakes(ExecTo(r, steps, ok, live, k).maps, steps[k], cap)
  }

  /** Nor one of plan `i`, unless that is refused. */
  ghost predicate TakenAt(p: Pass, i: nat, k: nat, cap: Capacity)
    requires p.Sized() && i < |p.plans| && k < |p.plans[i].steps|
  {
    var s := PassTo(p, i);
    Shortfall(p.plans[i], p.Live(i).Some?, s.used, p.cap)
    || TakesAt(Start(s.maps, s.used), p.plans[i].steps, p.oks[i], p.Live(i), k, cap)
  }

  /** The pass wants at most `e` endpoints of a front, and the kernel keeps its writes within the caps. */
  ghost predicate Bounded(p: Pass, e: nat, cap: Capacity) {
    && p.Runs() && WantsAtMost(p.inp, e)
    && forall i, k :: 0 <= i < |p.plans| && 0 <= k < |p.plans[i].steps| ==> TakenAt(p, i, k, cap)
  }

  // ---- what every step keeps -------------------------------------------------------------------------

  predicate Small(w: FrontWrite, e: nat) {
    w.PutEndpoint? ==> w.key.pad == 0 && w.key.slot < e
  }

  lemma StepFits(r: Run, w: FrontWrite, ok: bool, live: Option<FrontMeta>, e: nat, cap: Capacity)
    requires Fits(r.maps, e, cap) && Small(w, e)
    requires ok ==> KernelTakes(r.maps, w, cap)
    ensures Fits(Step(r, w, ok, live).maps, e, cap)
  {
    if ok && CanLand(r.maps, w) {
      match w
      case DeleteEndpoint(k) => SizeAfterRemove(r.maps.eps, k);
      case PutEndpoint(k, ep) => SizeAfterInsert(r.maps.eps, k, ep);
      case PutMeta(f, v) => SizeAfterInsert(r.maps.meta, f, v);
      case DeleteMeta(f) => SizeAfterRemove(r.maps.meta, f);
    }
  }

  /** What every step of a sequence keeps holds at its end. */
  lemma {:induction false} FitsAlong(ms: seq<Maps>, k: nat, e: nat, cap: Capacity)
    requires k < |ms| && Fits(ms[0], e, cap)
    requires forall j :: 0 < j < |ms| && Fits(ms[j - 1], e, cap) ==> Fits(ms[j], e, cap)
    ensures Fits(ms[k], e, cap)
  {
    if k > 0 {
      FitsAlong(ms, k - 1, e, cap);
    }
  }

  lemma RunFits(r: Run, steps: seq<FrontWrite>, ok: seq<bool>, live: Option<FrontMeta>, k: nat, e: nat, cap: Capacity)
    requires k <= |steps| == |ok| && Fits(r.maps, e, cap)
    requires forall j :: 0 <= j < k ==> Small(steps[j], e) && TakesAt(r, steps, ok, live, j, cap)
    ensures Fits(ExecTo(r, steps, ok, live, k).maps, e, cap)
  {
    var ms := seq(k + 1, j requires 0 <= j <= k => ExecTo(r, steps, ok, live, j).maps);
    forall j | 0 < j < |ms| && Fits(ms[j - 1], e, cap) ensures Fits(ms[j], e, cap) {
      assert Small(steps[j - 1], e) && TakesAt(r, steps, ok, live, j - 1, cap);
      StepFits(ExecTo(r, steps, ok, live, j - 1), steps[j - 1], ok[j - 1], live, e, cap);
    }
    FitsAlong(ms, k, e, cap);
  }

  lemma StepIsSmall(p: Pass, i: nat, k: nat, e: nat)
    requires p.Runs() && WantsAtMost(p.inp, e) && i < |p.plans| && k < |p.plans[i].steps|
    ensures Small(p.plans[i].steps[k], e)
  {
    var f := p.plans[i].front;
    assert Follows(p.inp, p.plans[i]);
    assert p.plans[i].steps[k] == ShapeFor(p.inp, f).StepAt(f, k);
  }

  lemma StepIsTaken(p: Pass, i: nat, k: nat, e: nat, cap: Capacity)
    requires Bounded(p, e, cap) && i < |p.plans| && k < |p.plans[i].steps|
    requires !Shortfall(p.plans[i], p.Live(i).Some?, PassTo(p, i).used, p.cap)
    ensures TakesAt(Start(PassTo(p, i).maps, PassTo(p, i).used), p.plans[i].steps, p.oks[i], p.Live(i), k, cap)
  {
    assert TakenAt(p, i, k, cap);
  }

  lemma BoundaryFits(p: Pass, i: nat, k: nat, e: nat, cap: Capacity)
    requires Bounded(p, e, cap) && i < |p.plans| && k <= |p.plans[i].steps| && Fits(PassTo(p, i).maps, e, cap)
    requires !Shortfall(p.plans[i], p.Live(i).Some?, PassTo(p, i).used, p.cap)
    ensures Fits(Boundary(p, i, k).maps, e, cap)
  {
    var r := Start(PassTo(p, i).maps, PassTo(p, i).used);
    forall j | 0 <= j < k ensures Small(p.plans[i].steps[j], e) && TakesAt(r, p.plans[i].steps, p.oks[i], p.Live(i), j, cap) {
      StepIsSmall(p, i, j, e);
      StepIsTaken(p, i, j, e, cap);
    }
    RunFits(r, p.plans[i].steps, p.oks[i], p.Live(i), k, e, cap);
  }

  lemma NextFits(p: Pass, i: nat, e: nat, cap: Capacity)
    requires Bounded(p, e, cap) && i < |p.plans| && Fits(PassTo(p, i).maps, e, cap)
    ensures Fits(PassTo(p, i + 1).maps, e, cap)
  {
    if !Shortfall(p.plans[i], p.Live(i).Some?, PassTo(p, i).used, p.cap) {
      BoundaryFits(p, i, |p.plans[i].steps|, e, cap);
    }
  }

  lemma {:induction false} PlansFit(p: Pass, i: nat, e: nat, cap: Capacity)
    requires p.Sized() && i <= |p.plans| && Fits(p.inp.maps, e, cap)
    requires forall j :: 0 <= j < |p.plans| && Fits(PassTo(p, j).maps, e, cap) ==> Fits(PassTo(p, j + 1).maps, e, cap)
    ensures Fits(PassTo(p, i).maps, e, cap)
  {
    if i > 0 {
      PlansFit(p, i - 1, e, cap);
      assert Fits(PassTo(p, (i - 1) + 1).maps, e, cap);
    }
  }

  lemma PassFits(p: Pass, i: nat, e: nat, cap: Capacity)
    requires Bounded(p, e, cap) && i <= |p.plans| && Fits(p.inp.maps, e, cap)
    ensures Fits(PassTo(p, i).maps, e, cap)
  {
    forall j | 0 <= j < |p.plans| && Fits(PassTo(p, j).maps, e, cap) ensures Fits(PassTo(p, j + 1).maps, e, cap) {
      NextFits(p, j, e, cap);
    }
    PlansFit(p, i, e, cap);
  }

  /** At every boundary of every pass, whatever fails or is refused. */
  lemma StateFits(p: Pass, i: nat, k: nat, e: nat, cap: Capacity)
    requires Bounded(p, e, cap) && Fits(p.inp.maps, e, cap)
    requires i <= |p.plans| && (i < |p.plans| ==> k <= |p.plans[i].steps|)
    ensures Fits(StateAt(p, i, k), e, cap)
  {
    PassFits(p, i, e, cap);
    if i < |p.plans| && !Shortfall(p.plans[i], p.Live(i).Some?, PassTo(p, i).used, p.cap) {
      BoundaryFits(p, i, k, e, cap);
    }
  }

  ghost predicate BoundedHistory(h: seq<Event>, e: nat, cap: Capacity)
    decreases |h|
  {
    h == [] || (Bounded(h[0].pass, e, cap) && BoundedHistory(h[1..], e, cap))
  }

  lemma {:induction false} HistoryFits(s: Maps, h: seq<Event>, e: nat, cap: Capacity)
    requires History(s, h) && BoundedHistory(h, e, cap) && Fits(s, e, cap)
    ensures Fits(Final(s, h), e, cap)
    decreases |h|
  {
    if h != [] {
      StateFits(h[0].pass, h[0].i, h[0].k, e, cap);
      HistoryFits(h[0].After(), h[1..], e, cap);
    }
  }

  // ---- what that gives the next pass -----------------------------------------------------------------

  ghost function SlotKeys(f: LbFrontKey, g: u32, n: nat): (r: set<FrontEndpointKey>)
    requires n <= 0x1_0000
    ensures |r| <= n
    ensures forall x: FrontEndpointKey :: x in r <==> x.front == f && x.generation == g && x.pad == 0 && x.slot < n
  {
    if n == 0 then {} else SlotKeys(f, g, n - 1) + {EndpointKey(f, g, n - 1)}
  }

  lemma SmallSlotsAreFew(m: Maps, e: nat)
    requires SmallSlots(m, e)
    ensures SmallGenerations(m, e)
  {
    forall f, g ensures |GenRows(m, f, g)| <= e {
      SizeWithin(GenRows(m, f, g), SlotKeys(f, g, Min(e, 0x1_0000)));
    }
  }

  /** The caps for `fronts` fronts of `e` endpoints. */
  function Caps(fronts: nat, e: nat): Capacity {
    Capacity(fronts, 2 * e * fronts)
  }

  lemma FitsIsSized(inp: Input, fronts: nat, e: nat)
    requires inp.Valid() && inp.prune && WantsAtMost(inp, e) && |Relevant(inp)| <= fronts
    requires Fits(inp.maps, e, Caps(fronts, e))
    ensures Sized(inp, fronts, e)
  {
    SmallSlotsAreFew(inp.maps, e);
  }

  /** From maps that fit, a pass whose writes land is not refused and serves what is desired and nothing else. */
  lemma FitsConverges(p: Pass, fronts: nat, e: nat)
    requires p.Valid() && p.inp.prune && WantsAtMost(p.inp, e) && |Relevant(p.inp)| <= fronts
    requires p.cap == Caps(fronts, e) && Fits(p.inp.maps, e, p.cap) && Succeeds(p)
    ensures !PassTo(p, |p.plans|).refused
    ensures forall f :: f in p.inp.desired ==> AsDesired(Result(p), f, p.inp.desired[f])
    ensures forall f :: f !in p.inp.desired ==> Absent(Result(p), f)
  {
    FitsIsSized(p.inp, fronts, e);
    NeverRefused(p, fronts, e);
    assert Completes(p);
    AllConverge(p);
  }

  /** No meta and no row of `f`. */
  ghost predicate Absent(m: Maps, f: LbFrontKey) {
    f !in m.meta && forall k :: k in m.eps ==> k.front != f
  }

  lemma AllConverge(p: Pass)
    requires Completes(p) && p.inp.prune
    ensures forall f :: f in p.inp.desired ==> AsDesired(Result(p), f, p.inp.desired[f])
    ensures forall f :: f !in p.inp.desired ==> Absent(Result(p), f)
  {
    forall f | f in p.inp.desired ensures AsDesired(Result(p), f, p.inp.desired[f]) {
      Converges(p, f);
    }
    forall f | f !in p.inp.desired ensures Absent(Result(p), f) {
      Converges(p, f);
    }
  }

  /**
   * After any sequence of passes that failed, were refused in part or stopped anywhere, from maps
   * within the caps, the first pass whose writes land is not refused and serves every desired front
   * as wanted.
   */
  lemma RecoversFromFailures(s: Maps, h: seq<Event>, p: Pass, fronts: nat, e: nat)
    requires History(s, h) && Fits(s, e, p.cap) && BoundedHistory(h, e, p.cap)
    requires p.Valid() && p.inp.maps == Final(s, h) && p.inp.prune && WantsAtMost(p.inp, e)
    requires |Relevant(p.inp)| <= fronts && p.cap == Caps(fronts, e) && Succeeds(p)
    ensures !PassTo(p, |p.plans|).refused
    ensures forall f :: f in p.inp.desired ==> AsDesired(Result(p), f, p.inp.desired[f])
    ensures forall f :: f !in p.inp.desired ==> Absent(Result(p), f)
  {
    HistoryFits(s, h, e, p.cap);
    FitsConverges(p, fronts, e);
  }
}
