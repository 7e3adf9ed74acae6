/** Convergence: one good pass reaches the desired fronts, and the next one finds nothing to do. */
module FrontResults {
  import opened Types
  import opened FrontPlan
  import opened FrontSafety
  import opened FrontGrace
  import opened FrontConverge

  /** Every write of the pass lands and no plan is refused. */
  ghost predicate Completes(p: Pass) {
    p.Valid() && Succeeds(p) && !PassTo(p, |p.plans|).refused
  }

  function Result(p: Pass): Maps
    requires p.Sized()
  {
    PassTo(p, |p.plans|).maps
  }

  /** `f` shows exactly what is wanted of it. */
  ghost predicate AsDesired(s: Maps, f: LbFrontKey, want: DesiredFront)
    requires want.Valid()
  {
    Serves(s, f, want.endpoints) && s.meta[f].flags == want.flags && s.meta[f].localCount == want.LocalCount()
  }

  lemma DoneIsDesired(inp: Input, f: LbFrontKey, s: Maps)
    requires inp.Valid() && f in inp.desired && Done(inp, f, s)
    ensures AsDesired(s, f, inp.desired[f])
    ensures f in inp.maps.meta ==>
              (s.meta[f].generation == inp.maps.meta[f].generation <==> Unchanged(inp.maps, f, inp.desired[f]))
  {
    var want, sh := inp.desired[f], ShapeFor(inp, f);
    forall i | 0 <= i < |want.endpoints|
      ensures Lookup(s.eps, EndpointKey(f, s.meta[f].generation, i)) == Some(want.endpoints[i])
    {
      var x := EndpointKey(f, s.meta[f].generation, i);
      if Unchanged(inp.maps, f, want) {
        assert Lookup(inp.maps.eps, x) == Some(want.endpoints[i]);
        assert x !in sh.doomed && !IsPut(f, sh, x);
      } else {
        assert IsPut(f, sh, x);
      }
    }
  }

  lemma DoneIsGone(inp: Input, f: LbFrontKey, s: Maps)
    requires inp.Valid() && inp.prune && f !in inp.desired && Done(inp, f, s)
    ensures f !in s.meta && forall x: FrontEndpointKey :: x.front == f ==> x !in s.eps
  {
    var sh := ShapeFor(inp, f);
    forall x: FrontEndpointKey | x.front == f && x in inp.maps.eps ensures x in sh.doomed {
      assert x in inp.order;
    }
  }

  /** One pass makes the reader's view equal the desired fronts; a generation moves only on a change. */
  lemma Converges(p: Pass, f: LbFrontKey)
    requires Completes(p)
    ensures f in p.inp.desired ==> AsDesired(Result(p), f, p.inp.desired[f])
    ensures f in p.inp.desired && f in p.inp.maps.meta ==>
              (Result(p).meta[f].generation == p.inp.maps.meta[f].generation
               <==> Unchanged(p.inp.maps, f, p.inp.desired[f]))
    ensures p.inp.prune && f !in p.inp.desired ==>
              f !in Result(p).meta && forall x: FrontEndpointKey :: x.front == f ==> x !in Result(p).eps
  {
    PassIsDone(p, f);
    if f in p.inp.desired {
      DoneIsDesired(p.inp, f, Result(p));
    } else if p.inp.prune {
      DoneIsGone(p.inp, f, Result(p));
    }
  }

  // ---- the next pass --------------------------------------------------------------------------

  lemma {:induction false} SwappedStays(p: Pass, i: nat, j: nat, f: LbFrontKey)
    requires p.Sized() && i <= j <= |p.plans| && f in PassTo(p, i).swapped
    ensures f in PassTo(p, j).swapped
    decreases j
  {
    if i < j {
      SwappedStays(p, i, j - 1, f);
    }
  }

  /** The pass starts a new generation of `f`. */
  predicate Swaps(inp: Input, f: LbFrontKey)
    requires f in inp.desired ==> inp.desired[f].Valid()
  {
    f in inp.desired && !Unchanged(inp.maps, f, inp.desired[f])
  }

  lemma SwapsAreReported(p: Pass, f: LbFrontKey)
    requires Completes(p) && Swaps(p.inp, f)
    ensures f in PassTo(p, |p.plans|).swapped
  {
    PlannedOrNot(p, f);
    var i :| 0 <= i < |p.plans| && p.plans[i].front == f;
    ReportedByPlan(p, i);
    SwappedStays(p, i + 1, |p.plans|, f);
  }

  lemma SwapCommits(inp: Input, f: LbFrontKey)
    requires f in inp.desired && inp.desired[f].Valid() && Swaps(inp, f)
    ensures var sh := ShapeFor(inp, f);
            sh.commit.Some? && (f in inp.maps.meta ==> sh.commit.value.generation != inp.maps.meta[f].generation)
  {
  }

  lemma ReportedByPlan(p: Pass, i: nat)
    requires p.Runs() && p.inp.Valid() && Succeeds(p) && !PassTo(p, |p.plans|).refused
    requires i < |p.plans| && Swaps(p.inp, p.plans[i].front)
    ensures p.plans[i].front in PassTo(p, i + 1).swapped
  {
    SwapCommits(p.inp, p.plans[i].front);
    if PassTo(p, i + 1).refused {
      RefusedStays(p, i + 1, |p.plans|);
    }
    PlanReports(p, i);
  }

  /** After a completed pass, a second look at `f` finds nothing to write. */
  lemma DoneNeedsNothing(inp: Input, f: LbFrontKey, next: Input)
    requires inp.Valid() && next.Valid() && Done(inp, f, next.maps)
    requires inp.prune && next.prune && next.desired == inp.desired
    requires f in inp.keep || Swaps(inp, f) ==> f in next.keep
    ensures ShapeFor(next, f).Total() == 0
  {
    var sh := ShapeFor(inp, f);
    if f in inp.desired {
      DoneIsDesired(inp, f, next.maps);
      assert Unchanged(next.maps, f, inp.desired[f]);
    } else {
      DoneIsGone(inp, f, next.maps);
    }
    forall x: FrontEndpointKey | x.front == f && x in next.maps.eps ensures !Deletes(next, f, x) {
      if x in inp.maps.eps && x !in sh.doomed {
        assert x in inp.order && !Deletes(inp, f, x);
      }
    }
    var d := Doomed(next, f, next.order);
    if d != [] {
      HasMember(d);
      assert false;
    }
  }

  /** Replanning with the swapped and the already held fronts kept yields nothing. */
  lemma ReplanIsEmpty(p: Pass, next: Input, plans: seq<FrontPlan>)
    requires Completes(p) && p.inp.prune && next.prune && next.desired == p.inp.desired
    requires next.Valid() && next.maps == Result(p) && IsPlanList(next, plans)
    requires p.inp.keep <= next.keep && forall f :: f in PassTo(p, |p.plans|).swapped ==> f in next.keep
    ensures plans == []
  {
    if plans != [] {
      var f := plans[0].front;
      assert Follows(next, plans[0]) && plans[0].steps != [];
      PassIsDone(p, f);
      if Swaps(p.inp, f) {
        SwapsAreReported(p, f);
      }
      DoneNeedsNothing(p.inp, f, next);
      assert false;
    }
  }

  // ---- the grace is needed --------------------------------------------------------------------

  lemma UnheldIsLost(inp: Input, f: LbFrontKey, v: FrontMeta, s: Maps)
    requires inp.Valid() && Done(inp, f, s) && f in inp.desired && !Holds(inp, f)
    requires f in inp.maps.meta && v.generation == WrappingSub1(inp.maps.meta[f].generation)
    ensures EndpointKey(f, v.generation, 0) !in s.eps
  {
    var x := EndpointKey(f, v.generation, 0);
    assert x in inp.maps.eps ==> x in inp.order;
    assert Deletes(inp, f, x) && !IsPut(f, ShapeFor(inp, f), x);
  }

  /** For a reader one commit behind, a completed pass that keeps `f` without holding it loses its slots. */
  lemma UnheldPassLoses(p: Pass, f: LbFrontKey, v: FrontMeta)
    requires Completes(p) && f in p.inp.desired && !Holds(p.inp, f)
    requires f in p.inp.maps.meta && v.generation == WrappingSub1(p.inp.maps.meta[f].generation) && v.count > 0
    ensures !Readable(Result(p), f, v)
  {
    PassIsDone(p, f);
    UnheldIsLost(p.inp, f, v, Result(p));
  }
}
