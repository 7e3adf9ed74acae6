/** The capacity check is exact: it refuses a plan if and only if running it would overfill a map. */
module FrontCapacity {
  import opened Types
  import opened FrontPlan
  import opened FrontSafety
  import opened FrontConverge
  import opened FrontSizing

  predicate WithinCaps(m: Maps, cap: Capacity) {
    |m.meta| <= cap.meta && |m.eps| <= cap.endpoints
  }

  /** Rows added by the first `k` steps. */
  function RowsAdded(sh: Shape, k: nat): int {
    Min(k - sh.D(), |sh.puts|) - Min(k - sh.H(), |sh.doomed|)
  }

  function MetasAdded(m: Maps, f: LbFrontKey, sh: Shape, k: nat): int {
    if sh.dropMeta && k > 0 then -1
    else if sh.commit.Some? && k == sh.Total() && f !in m.meta then 1
    else 0
  }

  lemma RowsAt(m: Maps, f: LbFrontKey, sh: Shape, k: nat)
    requires Fresh(m, f, sh) && sh.Valid() && k <= sh.Total()
    ensures |EpsAfter(m, f, sh, k)| == |m.eps| + RowsAdded(sh, k)
  {
    RemovedSize(m.eps, sh.doomed, Min(k - sh.H(), |sh.doomed|));
    if k > sh.D() {
      PutsAreNew(m, f, sh);
      FilledSize(Removed(m.eps, sh.doomed, |sh.doomed|), f, sh.gen, sh.puts, Min(k - sh.D(), |sh.puts|));
    }
  }

  /** With the doomed rows gone, none of the rows to put is there. */
  lemma PutsAreNew(m: Maps, f: LbFrontKey, sh: Shape)
    requires Fresh(m, f, sh) && sh.Valid()
    ensures forall j :: 0 <= j < |sh.puts| ==> EndpointKey(f, sh.gen, j) !in Removed(m.eps, sh.doomed, |sh.doomed|)
  {
    RemovedIs(m.eps, sh.doomed, |sh.doomed|);
    assert sh.doomed[..|sh.doomed|] == sh.doomed;
    forall j | 0 <= j < |sh.puts| ensures EndpointKey(f, sh.gen, j) !in Removed(m.eps, sh.doomed, |sh.doomed|) {
      assert IsPut(f, sh, EndpointKey(f, sh.gen, j));
    }
  }

  lemma MetasAt(m: Maps, f: LbFrontKey, sh: Shape, k: nat)
    requires Fresh(m, f, sh) && GoodShape(m, f, sh) && k <= sh.Total()
    ensures |MetaAfter(m, f, sh, k)| == |m.meta| + MetasAdded(m, f, sh, k)
  {
    if sh.dropMeta && k > 0 {
      SizeAfterRemove(m.meta, f);
    } else if sh.commit.Some? && k == sh.Total() {
      SizeAfterInsert(m.meta, f, sh.commit.value);
    }
  }

  /** The sizes of both maps at a boundary of a plan whose writes land. */
  lemma BoundarySizes(p: Pass, i: nat, k: nat)
    requires p.Runs() && p.inp.Valid() && Succeeds(p) && i < |p.plans| && k <= |p.plans[i].steps|
    ensures var f, sh, m := p.plans[i].front, PlanShape(p, i), PassTo(p, i).maps;
            && |Boundary(p, i, k).maps.eps| == |m.eps| + RowsAdded(sh, k)
            && |Boundary(p, i, k).maps.meta| == |m.meta| + MetasAdded(m, f, sh, k)
            && Lookup(m.meta, f) == p.Live(i)
  {
    var f, sh, m := p.plans[i].front, PlanShape(p, i), PassTo(p, i).maps;
    UsageIsExact(p, i);
    BoundaryProgress(p, i, 0);
    ShapeIsFresh(p.inp, m, f);
    PlanLands(m, f, sh, p.oks[i], p.Live(i), k);
    RowsAt(m, f, sh, k);
    MetasAt(m, f, sh, k);
  }

  /** What the check compares with the caps. */
  lemma ShortfallIs(p: Pass, i: nat)
    requires p.Runs() && p.inp.Valid() && Succeeds(p) && i < |p.plans|
    ensures var sh, m := PlanShape(p, i), PassTo(p, i).maps;
            Shortfall(p.plans[i], p.Live(i).Some?, PassTo(p, i).used, p.cap) <==>
              |m.eps| + Max(0, Net(sh)) > p.cap.endpoints ||
              |m.meta| + (if sh.commit.Some? && p.Live(i).None? then 1 else 0) > p.cap.meta
  {
    UsageIsExact(p, i);
    EffectOf(p.inp, p.plans[i].front, p.Live(i).Some?);
    assert p.plans[i] == FrontPlan(p.plans[i].front, PlanShape(p, i).Steps(p.plans[i].front));
  }

  /** From maps within their caps, a plan is refused if and only if some boundary of its run would overfill one. */
  lemma RefusedIffOverfull(p: Pass, i: nat)
    requires p.Runs() && p.inp.Valid() && Succeeds(p) && i < |p.plans| && WithinCaps(PassTo(p, i).maps, p.cap)
    ensures Shortfall(p.plans[i], p.Live(i).Some?, PassTo(p, i).used, p.cap) <==>
              exists k :: 0 <= k <= |p.plans[i].steps| && !WithinCaps(Boundary(p, i, k).maps, p.cap)
  {
    ShortfallIs(p, i);
    var end := |p.plans[i].steps|;
    BoundarySizes(p, i, end);
    if Shortfall(p.plans[i], p.Live(i).Some?, PassTo(p, i).used, p.cap) {
      ShapeIsGood(p.inp, p.plans[i].front);
      assert !WithinCaps(Boundary(p, i, end).maps, p.cap);
    }
    if k :| 0 <= k <= end && !WithinCaps(Boundary(p, i, k).maps, p.cap) {
      BoundarySizes(p, i, k);
    }
  }

  lemma AdmittedFits(p: Pass, i: nat, k: nat)
    requires p.Runs() && p.inp.Valid() && Succeeds(p) && i < |p.plans| && WithinCaps(PassTo(p, i).maps, p.cap)
    requires !Shortfall(p.plans[i], p.Live(i).Some?, PassTo(p, i).used, p.cap) && k <= |p.plans[i].steps|
    ensures WithinCaps(Boundary(p, i, k).maps, p.cap)
  {
    ShortfallIs(p, i);
    BoundarySizes(p, i, k);
  }

  lemma NextWithinCaps(p: Pass, i: nat)
    requires p.Runs() && p.inp.Valid() && Succeeds(p) && i < |p.plans| && WithinCaps(PassTo(p, i).maps, p.cap)
    ensures WithinCaps(PassTo(p, i + 1).maps, p.cap)
  {
    if !Shortfall(p.plans[i], p.Live(i).Some?, PassTo(p, i).used, p.cap) {
      AdmittedFits(p, i, |p.plans[i].steps|);
    }
  }

  lemma {:induction false} PassWithinCaps(p: Pass, i: nat)
    requires p.Runs() && p.inp.Valid() && Succeeds(p) && i <= |p.plans| && WithinCaps(p.inp.maps, p.cap)
    ensures WithinCaps(PassTo(p, i).maps, p.cap)
  {
    if i > 0 {
      PassWithinCaps(p, i - 1);
      NextWithinCaps(p, i - 1);
    }
  }

  /** So maps within their caps stay within them at every boundary of a pass, refused plans or not. */
  lemma NeverOverfull(p: Pass, i: nat, k: nat)
    requires p.Runs() && p.inp.Valid() && Succeeds(p) && WithinCaps(p.inp.maps, p.cap)
    requires i <= |p.plans| && (i < |p.plans| ==> k <= |p.plans[i].steps|)
    ensures WithinCaps(StateAt(p, i, k), p.cap)
  {
    PassWithinCaps(p, i);
    if i < |p.plans| && !Shortfall(p.plans[i], p.Live(i).Some?, PassTo(p, i).used, p.cap) {
      AdmittedFits(p, i, k);
    }
  }
}
