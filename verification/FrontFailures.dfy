/** What a pass achieves whichever of its writes fail: exactly which failures a front notices. */
module FrontFailures {
  import opened Types
  import opened FrontPlan
  import opened FrontSafety
  import opened FrontGrace
  import opened FrontConverge
  import opened FrontResults

  /** No step of plan `i` runs: the maps may be too full for it. */
  predicate Refused(p: Pass, i: nat)
    requires p.Sized() && i < |p.plans|
  {
    Shortfall(p.plans[i], p.Live(i).Some?, PassTo(p, i).used, p.cap)
  }

  /** Step `j` of plan `i` is made and accepted; a front whose meta could not be deleted keeps its rows. */
  predicate Lands(p: Pass, i: nat, j: nat)
    requires p.Sized() && i < |p.plans| && j < |p.plans[i].steps|
  {
    !Refused(p, i) && p.oks[i][j] && (p.plans[i].steps[0].DeleteMeta? ==> p.oks[i][0])
  }

  /** Every write for `f` lands, except perhaps deletes of endpoint rows. */
  ghost predicate WritesLand(p: Pass, f: LbFrontKey)
    requires p.Sized()
  {
    forall i, j :: 0 <= i < |p.plans| && 0 <= j < |p.plans[i].steps| && p.plans[i].front == f && !p.plans[i].steps[j].DeleteEndpoint? ==>
      Lands(p, i, j)
  }

  // ---- one plan ----------------------------------------------------------------------------------------

  ghost predicate PutsLand(sh: Shape, ok: seq<bool>, k: nat)
    requires |ok| == sh.Total() && k <= sh.Total()
  {
    forall j :: sh.D() <= j < sh.P() && j < k ==> ok[j]
  }

  ghost predicate CommitLands(sh: Shape, ok: seq<bool>, k: nat)
    requires |ok| == sh.Total() && k <= sh.Total()
  {
    sh.commit.Some? && k == sh.Total() && PutsLand(sh, ok, k) && ok[k - 1]
  }

  /** Where a plan of a wanted front stands after `k` steps. */
  ghost predicate Tells(m: Maps, f: LbFrontKey, sh: Shape, ok: seq<bool>, live: Option<FrontMeta>, r: Run, k: nat)
    requires |ok| == sh.Total() && k <= sh.Total()
  {
    && !r.halted && (r.blocked <==> !PutsLand(sh, ok, k))
    && Lookup(r.maps.meta, f) == (if CommitLands(sh, ok, k) then sh.commit else Lookup(m.meta, f))
    && (r.committed <==> CommitLands(sh, ok, k) && (live.None? || live.value.generation != sh.commit.value.generation))
  }

  lemma StepTells(m: Maps, f: LbFrontKey, sh: Shape, ok: seq<bool>, live: Option<FrontMeta>, r: Run, k: nat)
    requires GoodShape(m, f, sh) && !sh.dropMeta && |ok| == sh.Total() && k < sh.Total() && Tells(m, f, sh, ok, live, r, k)
    ensures Tells(m, f, sh, ok, live, Step(r, sh.StepAt(f, k), ok[k], live), k + 1)
  {
    assert PutsLand(sh, ok, k + 1) <==> PutsLand(sh, ok, k) && (sh.D() <= k < sh.P() ==> ok[k]);
  }

  lemma {:induction false} PlanTells(m: Maps, f: LbFrontKey, sh: Shape, used: Usage, ok: seq<bool>, live: Option<FrontMeta>, k: nat)
    requires GoodShape(m, f, sh) && !sh.dropMeta && |ok| == sh.Total() && k <= sh.Total()
    ensures Tells(m, f, sh, ok, live, ExecTo(Start(m, used), sh.Steps(f), ok, live, k), k)
  {
    if k > 0 {
      PlanTells(m, f, sh, used, ok, live, k - 1);
      StepTells(m, f, sh, ok, live, ExecTo(Start(m, used), sh.Steps(f), ok, live, k - 1), k - 1);
    }
  }

  /** What a plan leaves of `f`, given whether its commit landed. */
  ghost predicate Left(inp: Input, f: LbFrontKey, s: Maps, committed: bool)
    requires f in inp.desired ==> inp.desired[f].Valid()
  {
    var sh := ShapeFor(inp, f);
    && (committed ==> sh.commit.Some?)
    && Lookup(s.meta, f) == (if committed then sh.commit else Lookup(inp.maps.meta, f))
    && (forall x: FrontEndpointKey :: x.front == f && x !in sh.doomed && !IsPut(f, sh, x) ==> SameRow(inp.maps, s, x))
    && (committed ==> forall j :: 0 <= j < |sh.puts| ==> Lookup(s.eps, EndpointKey(f, sh.gen, j)) == Some(sh.puts[j]))
  }

  lemma LeftIsDesiredIff(inp: Input, f: LbFrontKey, s: Maps, committed: bool)
    requires inp.Valid() && f in inp.desired && Left(inp, f, s, committed)
    ensures AsDesired(s, f, inp.desired[f]) <==> committed || ShapeFor(inp, f).commit.None?
  {
    var want, sh := inp.desired[f], ShapeFor(inp, f);
    if f in inp.maps.meta {
      var live := inp.maps.meta[f].generation;
      forall i | 0 <= i < |want.endpoints|
        ensures Lookup(s.eps, EndpointKey(f, live, i)) == Lookup(inp.maps.eps, EndpointKey(f, live, i))
      {
        var x := EndpointKey(f, live, i);
        assert x !in sh.doomed && !IsPut(f, sh, x);
        assert SameRow(inp.maps, s, x);
      }
    }
  }

  lemma SameOnLeft(inp: Input, f: LbFrontKey, a: Maps, b: Maps, committed: bool)
    requires inp.Valid() && SameOn(a, b, f) && Left(inp, f, a, committed)
    ensures Left(inp, f, b, committed)
  {
    forall x: FrontEndpointKey | x.front == f ensures SameRow(a, b, x) {
    }
  }

  // ---- a wanted front after the pass -------------------------------------------------------------------

  lemma PlanLeaves(p: Pass, i: nat)
    requires p.Valid() && i < |p.plans| && p.plans[i].front in p.inp.desired && !Refused(p, i)
    ensures var f := p.plans[i].front; var sh := ShapeFor(p.inp, f);
            && Left(p.inp, f, PassTo(p, i + 1).maps, CommitLands(sh, p.oks[i], sh.Total()))
            && PassTo(p, i + 1).swapped ==
               if CommitLands(sh, p.oks[i], sh.Total()) && Swaps(p.inp, f) then PassTo(p, i).swapped + [f] else PassTo(p, i).swapped
  {
    var f, s := p.plans[i].front, PassTo(p, i);
    var sh := ShapeFor(p.inp, f);
    BoundaryProgress(p, i, sh.Total());
    PlanTells(s.maps, f, sh, s.used, p.oks[i], p.Live(i), sh.Total());
    LeavesFrom(p.inp, f, s.maps, Boundary(p, i, sh.Total()), p.oks[i], p.Live(i));
  }

  lemma LeavesFrom(inp: Input, f: LbFrontKey, m: Maps, r: Run, ok: seq<bool>, live: Option<FrontMeta>)
    requires inp.Valid() && f in inp.desired && SameOn(inp.maps, m, f) && |ok| == ShapeFor(inp, f).Total()
    requires var sh := ShapeFor(inp, f); Progress(m, f, sh, r, sh.Total()) && Tells(m, f, sh, ok, live, r, sh.Total())
    requires live == Lookup(inp.maps.meta, f)
    ensures var sh := ShapeFor(inp, f);
            && Left(inp, f, r.maps, CommitLands(sh, ok, sh.Total()))
            && (r.committed <==> CommitLands(sh, ok, sh.Total()) && Swaps(inp, f))
  {
    var sh := ShapeFor(inp, f);
    forall x: FrontEndpointKey | x.front == f && x !in sh.doomed && !IsPut(f, sh, x) ensures SameRow(inp.maps, r.maps, x) {
      assert SameRow(inp.maps, m, x) && SameRow(m, r.maps, x);
    }
  }

  lemma StepIs(p: Pass, i: nat, j: nat)
    requires p.Valid() && i < |p.plans| && j < |p.plans[i].steps|
    ensures var f := p.plans[i].front; var sh := ShapeFor(p.inp, f);
            && p.plans[i].steps[j] == sh.StepAt(f, j)
            && (p.plans[i].steps[j].DeleteEndpoint? <==> sh.H() <= j < sh.D())
            && (Lands(p, i, j) <==> !Refused(p, i) && p.oks[i][j] && (sh.dropMeta ==> p.oks[i][0]))
  {
    assert Follows(p.inp, p.plans[i]);
  }

  lemma OnlyPlan(p: Pass, i: nat, a: nat)
    requires p.Valid() && i < |p.plans| && a < |p.plans| && p.plans[a].front == p.plans[i].front
    ensures a == i
  {
  }

  ghost predicate OwnLand(p: Pass, i: nat)
    requires p.Sized() && i < |p.plans|
  {
    forall j :: 0 <= j < |p.plans[i].steps| && !p.plans[i].steps[j].DeleteEndpoint? ==> Lands(p, i, j)
  }

  lemma OwnWritesLand(p: Pass, i: nat)
    requires p.Valid() && i < |p.plans|
    ensures WritesLand(p, p.plans[i].front) <==> OwnLand(p, i)
  {
    if OwnLand(p, i) {
      forall a, j | 0 <= a < |p.plans| && 0 <= j < |p.plans[a].steps| && p.plans[a].front == p.plans[i].front
                    && !p.plans[a].steps[j].DeleteEndpoint?
        ensures Lands(p, a, j)
      {
        OnlyPlan(p, i, a);
      }
    }
  }

  /** The commit lands exactly when every put and the meta write do. */
  lemma CommitLandsIff(p: Pass, i: nat)
    requires p.Valid() && i < |p.plans| && p.plans[i].front in p.inp.desired && !Refused(p, i)
    ensures var sh := ShapeFor(p.inp, p.plans[i].front);
            CommitLands(sh, p.oks[i], sh.Total()) || sh.commit.None? <==> WritesLand(p, p.plans[i].front)
  {
    var sh := ShapeFor(p.inp, p.plans[i].front);
    OwnWritesLand(p, i);
    forall j | 0 <= j < |p.plans[i].steps|
      ensures (p.plans[i].steps[j].DeleteEndpoint? <==> j < sh.D()) && (Lands(p, i, j) <==> p.oks[i][j])
    {
      StepIs(p, i, j);
    }
    OwnLandIff(p, i, sh, p.oks[i]);
  }

  lemma OwnLandIff(p: Pass, i: nat, sh: Shape, ok: seq<bool>)
    requires p.Sized() && i < |p.plans| && |p.plans[i].steps| == |ok| == sh.Total() && (sh.commit.None? ==> sh.puts == [])
    requires forall j :: 0 <= j < |p.plans[i].steps| ==>
               (p.plans[i].steps[j].DeleteEndpoint? <==> j < sh.D()) && (Lands(p, i, j) <==> ok[j])
    ensures OwnLand(p, i) <==> CommitLands(sh, ok, sh.Total()) || sh.commit.None?
  {
  }

  /** The front keeps what it had if its plan is refused. */
  lemma RefusedLeaves(p: Pass, i: nat)
    requires p.Valid() && i < |p.plans| && p.plans[i].front in p.inp.desired && Refused(p, i)
    ensures Left(p.inp, p.plans[i].front, PassTo(p, i + 1).maps, false) && PassTo(p, i + 1).swapped == PassTo(p, i).swapped
  {
    BoundaryProgress(p, i, 0);
  }

  lemma RefusedLands(p: Pass, i: nat)
    requires p.Valid() && i < |p.plans| && p.plans[i].front in p.inp.desired && Refused(p, i)
    ensures ShapeFor(p.inp, p.plans[i].front).commit.None? <==> WritesLand(p, p.plans[i].front)
  {
    var sh := ShapeFor(p.inp, p.plans[i].front);
    OwnWritesLand(p, i);
    assert Follows(p.inp, p.plans[i]);
    if sh.commit.Some? {
      StepIs(p, i, sh.P());
    }
    forall j | 0 <= j < |p.plans[i].steps| && sh.commit.None? ensures p.plans[i].steps[j].DeleteEndpoint? {
      StepIs(p, i, j);
    }
  }

  ghost predicate Commits(p: Pass, f: LbFrontKey)
    requires p.Valid() && f in p.inp.desired
  {
    WritesLand(p, f) && ShapeFor(p.inp, f).commit.Some?
  }

  lemma PlannedLeaves(p: Pass, i: nat, f: LbFrontKey)
    requires p.Valid() && i < |p.plans| && p.plans[i].front == f && f in p.inp.desired
    ensures Left(p.inp, f, PassTo(p, i + 1).maps, Commits(p, f))
    ensures WritesLand(p, f) || ShapeFor(p.inp, f).commit.Some?
  {
    if Refused(p, i) {
      RefusedLeaves(p, i);
      RefusedLands(p, i);
    } else {
      PlanLeaves(p, i);
      CommitLandsIff(p, i);
    }
  }

  lemma PlannedReports(p: Pass, i: nat, f: LbFrontKey)
    requires p.Valid() && i < |p.plans| && p.plans[i].front == f && f in p.inp.desired
    ensures f in PassTo(p, i + 1).swapped <==> f in PassTo(p, i).swapped || (Commits(p, f) && Swaps(p.inp, f))
  {
    if Refused(p, i) {
      RefusedLeaves(p, i);
      RefusedLands(p, i);
    } else {
      PlanLeaves(p, i);
      CommitLandsIff(p, i);
    }
  }

  lemma UnplannedLeaves(p: Pass, f: LbFrontKey)
    requires p.Valid() && f in p.inp.desired && !Planned(p.plans, f)
    ensures Left(p.inp, f, Result(p), false) && WritesLand(p, f) && ShapeFor(p.inp, f).commit.None?
  {
    PlannedOrNot(p, f);
    UntouchedBetween(p, 0, |p.plans|, f);
  }

  lemma UntouchedSince(p: Pass, i: nat, f: LbFrontKey)
    requires p.Valid() && i < |p.plans| && p.plans[i].front == f
    ensures SameOn(p.inp.maps, PassTo(p, i).maps, f) && SameOn(PassTo(p, i + 1).maps, Result(p), f)
  {
    BoundaryProgress(p, i, 0);
    DoneSince(p, i, |p.plans|, 0);
  }

  lemma PlannedResultLeft(p: Pass, i: nat, f: LbFrontKey)
    requires p.Valid() && i < |p.plans| && p.plans[i].front == f && f in p.inp.desired
    ensures Left(p.inp, f, Result(p), Commits(p, f))
  {
    PlannedLeaves(p, i, f);
    UntouchedSince(p, i, f);
    SameOnLeft(p.inp, f, PassTo(p, i + 1).maps, Result(p), Commits(p, f));
  }

  lemma ResultLeft(p: Pass, f: LbFrontKey)
    requires p.Valid() && f in p.inp.desired
    ensures Left(p.inp, f, Result(p), Commits(p, f)) && (WritesLand(p, f) || ShapeFor(p.inp, f).commit.Some?)
  {
    if i :| 0 <= i < |p.plans| && p.plans[i].front == f {
      PlannedResultLeft(p, i, f);
      PlannedLeaves(p, i, f);
    } else {
      UnplannedLeaves(p, f);
    }
  }

  /**
   * Whatever fails or is refused, a wanted front ends the pass exactly as wanted if and only if its
   * puts and its meta write land. Deletes do not count. If they do not all land, it shows the meta it had.
   */
  lemma ServedIff(p: Pass, f: LbFrontKey)
    requires p.Valid() && f in p.inp.desired
    ensures AsDesired(Result(p), f, p.inp.desired[f]) <==> WritesLand(p, f)
    ensures !WritesLand(p, f) ==> Lookup(Result(p).meta, f) == Lookup(p.inp.maps.meta, f)
    ensures WritesLand(p, f) ==>
              f in Result(p).meta &&
              Result(p).meta[f].generation ==
              if f !in p.inp.maps.meta then 1
              else if Unchanged(p.inp.maps, f, p.inp.desired[f]) then p.inp.maps.meta[f].generation
              else WrappingAdd1(p.inp.maps.meta[f].generation)
  {
    ResultLeft(p, f);
    LeftIsDesiredIff(p.inp, f, Result(p), Commits(p, f));
  }

  // ---- what is reported --------------------------------------------------------------------------------

  lemma OthersReportNothing(p: Pass, i: nat, f: LbFrontKey)
    requires p.Sized() && i < |p.plans| && p.plans[i].front != f
    ensures f in PassTo(p, i + 1).swapped <==> f in PassTo(p, i).swapped
  {
  }

  /** What is reported of `f` is right if `yes` says whether it is to be. */
  predicate ReportedOnlyIf(p: Pass, n: nat, f: LbFrontKey, yes: bool)
    requires p.Sized() && n <= |p.plans|
  {
    f in PassTo(p, n).swapped ==> yes
  }

  lemma ReportStep(p: Pass, n: nat, f: LbFrontKey, yes: bool)
    requires p.Valid() && f in p.inp.desired && n < |p.plans| && yes == (Commits(p, f) && Swaps(p.inp, f))
    requires ReportedOnlyIf(p, n, f, yes)
    ensures ReportedOnlyIf(p, n + 1, f, yes)
  {
    if p.plans[n].front == f {
      PlannedReports(p, n, f);
    } else {
      OthersReportNothing(p, n, f);
    }
  }

  lemma {:induction false} ReportChain(p: Pass, n: nat, f: LbFrontKey, yes: bool)
    requires p.Sized() && n <= |p.plans|
    requires forall j :: 0 <= j < |p.plans| && ReportedOnlyIf(p, j, f, yes) ==> ReportedOnlyIf(p, j + 1, f, yes)
    ensures ReportedOnlyIf(p, n, f, yes)
  {
    if n > 0 {
      ReportChain(p, n - 1, f, yes);
      assert ReportedOnlyIf(p, (n - 1) + 1, f, yes);
    }
  }

  lemma ReportedOnlyByPlan(p: Pass, n: nat, f: LbFrontKey)
    requires p.Valid() && f in p.inp.desired && n == |p.plans|
    ensures f in PassTo(p, n).swapped ==> Commits(p, f) && Swaps(p.inp, f)
  {
    var yes := Commits(p, f) && Swaps(p.inp, f);
    forall j | 0 <= j < |p.plans| && ReportedOnlyIf(p, j, f, yes) ensures ReportedOnlyIf(p, j + 1, f, yes) {
      ReportStep(p, j, f, yes);
    }
    ReportChain(p, n, f, yes);
  }

  lemma CommittedIsReported(p: Pass, i: nat, f: LbFrontKey, n: nat)
    requires p.Valid() && i < n == |p.plans| && p.plans[i].front == f && f in p.inp.desired && Commits(p, f) && Swaps(p.inp, f)
    ensures f in PassTo(p, n).swapped
  {
    PlannedReports(p, i, f);
    SwappedStays(p, i + 1, n, f);
  }

  /** And it is reported as swapped if and only if, besides, its endpoints or local count changed. */
  lemma ReportedIff(p: Pass, f: LbFrontKey)
    requires p.Valid() && f in p.inp.desired
    ensures f in PassTo(p, |p.plans|).swapped <==> WritesLand(p, f) && !Unchanged(p.inp.maps, f, p.inp.desired[f])
  {
    ReportedOnlyByPlan(p, |p.plans|, f);
    if Commits(p, f) && Swaps(p.inp, f) {
      PlannedOrNot(p, f);
      var i :| 0 <= i < |p.plans| && p.plans[i].front == f;
      CommittedIsReported(p, i, f, |p.plans|);
    }
  }

  // ---- rows that are to go -----------------------------------------------------------------------------

  /** A row the pass is to leave: of the live generation, or of the one before if that is held and nothing changes. */
  predicate Spared(inp: Input, f: LbFrontKey, x: FrontEndpointKey)
    requires f in inp.desired ==> inp.desired[f].Valid()
  {
    if f !in inp.desired then !inp.prune
    else f in inp.maps.meta &&
         (|| x.generation == inp.maps.meta[f].generation
          || (x.generation == WrappingSub1(inp.maps.meta[f].generation) && f in inp.keep
              && Unchanged(inp.maps, f, inp.desired[f])))
  }

  /** A row the pass writes anew. */
  predicate Rewritten(inp: Input, f: LbFrontKey, x: FrontEndpointKey)
    requires f in inp.desired ==> inp.desired[f].Valid()
  {
    Swaps(inp, f) && x.generation == NextGeneration(inp.maps, f) && x.pad == 0 && x.slot < |inp.desired[f].endpoints|
  }

  ghost predicate DeleteLands(p: Pass, f: LbFrontKey, x: FrontEndpointKey)
    requires p.Sized()
  {
    exists i, j :: 0 <= i < |p.plans| && 0 <= j < |p.plans[i].steps| && p.plans[i].front == f
                   && p.plans[i].steps[j] == DeleteEndpoint(x) && Lands(p, i, j)
  }

  /** What becomes of the doomed row `d` after `k` steps. */
  ghost predicate RowTells(m: Maps, sh: Shape, ok: seq<bool>, r: Run, k: nat, d: nat)
    requires |ok| == sh.Total() && k <= sh.Total() && d < |sh.doomed| && sh.doomed[d] in m.eps
  {
    && (r.halted <==> sh.dropMeta && k > 0 && !ok[0])
    && (k == 0 ==> r.maps == m)
    && (sh.doomed[d] in r.maps.eps <==> !(k > sh.H() + d && ok[sh.H() + d] && (sh.dropMeta ==> ok[0])))
    && (sh.doomed[d] in r.maps.eps ==> r.maps.eps[sh.doomed[d]] == m.eps[sh.doomed[d]])
  }

  lemma StepRowTells(m: Maps, f: LbFrontKey, sh: Shape, ok: seq<bool>, live: Option<FrontMeta>, r: Run, k: nat, d: nat)
    requires sh.Valid() && |ok| == sh.Total() && k < sh.Total() && NoDuplicates(sh.doomed) && (sh.dropMeta ==> f in m.meta)
    requires d < |sh.doomed| && sh.doomed[d] in m.eps && !IsPut(f, sh, sh.doomed[d]) && RowTells(m, sh, ok, r, k, d)
    ensures RowTells(m, sh, ok, Step(r, sh.StepAt(f, k), ok[k], live), k + 1, d)
  {
    if sh.H() <= k < sh.D() {
      assert k - sh.H() != d ==> sh.doomed[k - sh.H()] != sh.doomed[d];
    }
  }

  lemma {:induction false} PlanRowTells(m: Maps, f: LbFrontKey, sh: Shape, used: Usage, ok: seq<bool>, live: Option<FrontMeta>, k: nat,
                                        d: nat)
    requires sh.Valid() && |ok| == sh.Total() && k <= sh.Total() && NoDuplicates(sh.doomed) && (sh.dropMeta ==> f in m.meta)
    requires d < |sh.doomed| && sh.doomed[d] in m.eps && !IsPut(f, sh, sh.doomed[d])
    ensures RowTells(m, sh, ok, ExecTo(Start(m, used), sh.Steps(f), ok, live, k), k, d)
  {
    if k > 0 {
      PlanRowTells(m, f, sh, used, ok, live, k - 1, d);
      StepRowTells(m, f, sh, ok, live, ExecTo(Start(m, used), sh.Steps(f), ok, live, k - 1), k - 1, d);
    }
  }

  lemma DoomedIff(inp: Input, f: LbFrontKey, x: FrontEndpointKey)
    requires inp.Valid() && x.front == f && x in inp.maps.eps
    ensures x in ShapeFor(inp, f).doomed <==> !Spared(inp, f, x)
    ensures IsPut(f, ShapeFor(inp, f), x) <==> Rewritten(inp, f, x)
  {
    assert x in inp.order;
  }

  /** The row of the first map is in the second exactly if `there`, and then unchanged. */
  ghost predicate Kept(a: Maps, b: Maps, x: FrontEndpointKey, there: bool)
    requires x in a.eps
  {
    (x in b.eps <==> there) && (there ==> b.eps[x] == a.eps[x])
  }

  lemma PlannedRow(p: Pass, i: nat, f: LbFrontKey, sh: Shape, d: nat, x: FrontEndpointKey)
    requires p.Valid() && i < |p.plans| && p.plans[i].front == f && sh == ShapeFor(p.inp, f)
    requires d < |sh.doomed| && sh.doomed[d] == x && x in PassTo(p, i).maps.eps && !IsPut(f, sh, x)
    ensures sh.H() + d < |p.plans[i].steps| && Kept(PassTo(p, i).maps, PassTo(p, i + 1).maps, x, !Lands(p, i, sh.H() + d))
  {
    StepIs(p, i, sh.H() + d);
    if !Refused(p, i) {
      RunRow(p, i, f, sh, d, x);
    }
  }

  lemma RunRow(p: Pass, i: nat, f: LbFrontKey, sh: Shape, d: nat, x: FrontEndpointKey)
    requires p.Valid() && i < |p.plans| && p.plans[i].front == f && sh == ShapeFor(p.inp, f) && !Refused(p, i)
    requires d < |sh.doomed| && sh.doomed[d] == x && x in PassTo(p, i).maps.eps && !IsPut(f, sh, x)
    ensures RowTells(PassTo(p, i).maps, sh, p.oks[i], Boundary(p, i, sh.Total()), sh.Total(), d)
    ensures PassTo(p, i + 1).maps == Boundary(p, i, sh.Total()).maps
  {
    BoundaryProgress(p, i, 0);
    assert Follows(p.inp, p.plans[i]);
    PlanRowTells(PassTo(p, i).maps, f, sh, PassTo(p, i).used, p.oks[i], p.Live(i), sh.Total(), d);
  }

  lemma DeletesOnce(f: LbFrontKey, sh: Shape, d: nat, j: nat)
    requires sh.Valid() && NoDuplicates(sh.doomed) && d < |sh.doomed| && j < sh.Total()
    ensures sh.StepAt(f, j) == DeleteEndpoint(sh.doomed[d]) <==> j == sh.H() + d
  {
    if sh.H() <= j < sh.D() {
      assert j - sh.H() != d ==> sh.doomed[j - sh.H()] != sh.doomed[d];
    }
  }

  lemma OnlyDelete(p: Pass, i: nat, f: LbFrontKey, sh: Shape, d: nat, j: nat)
    requires p.Valid() && i < |p.plans| && p.plans[i].front == f && sh == ShapeFor(p.inp, f)
    requires d < |sh.doomed| && j < |p.plans[i].steps|
    ensures p.plans[i].steps[j] == DeleteEndpoint(sh.doomed[d]) <==> j == sh.H() + d
  {
    StepIs(p, i, j);
    assert Follows(p.inp, p.plans[i]);
    DeletesOnce(f, sh, d, j);
  }

  /** Only step `d` of the deletes names the row. */
  lemma DeleteLandsIff(p: Pass, i: nat, f: LbFrontKey, sh: Shape, d: nat, x: FrontEndpointKey)
    requires p.Valid() && i < |p.plans| && p.plans[i].front == f && sh == ShapeFor(p.inp, f)
    requires d < |sh.doomed| && sh.doomed[d] == x && sh.H() + d < |p.plans[i].steps|
    ensures DeleteLands(p, f, x) <==> Lands(p, i, sh.H() + d)
  {
    OnlyDelete(p, i, f, sh, d, sh.H() + d);
    if a, j :| 0 <= a < |p.plans| && 0 <= j < |p.plans[a].steps| && p.plans[a].front == f
               && p.plans[a].steps[j] == DeleteEndpoint(x) && Lands(p, a, j)
    {
      assert a == i;
      OnlyDelete(p, i, f, sh, d, j);
    }
  }

  lemma KeptThrough(a: Maps, b: Maps, c: Maps, d: Maps, x: FrontEndpointKey, there: bool)
    requires x in a.eps && SameRow(a, b, x) && (x in b.eps ==> Kept(b, c, x, there)) && SameRow(c, d, x)
    ensures Kept(a, d, x, there)
  {
  }

  lemma PlannedRowLeft(p: Pass, i: nat, f: LbFrontKey, sh: Shape, x: FrontEndpointKey)
    requires p.Valid() && i < |p.plans| && p.plans[i].front == f && sh == ShapeFor(p.inp, f)
    requires x.front == f && x in p.inp.maps.eps && x in sh.doomed && !IsPut(f, sh, x)
    ensures Kept(p.inp.maps, Result(p), x, !DeleteLands(p, f, x))
  {
    var d :| 0 <= d < |sh.doomed| && sh.doomed[d] == x;
    UntouchedSince(p, i, f);
    var a, b, c, e := p.inp.maps, PassTo(p, i).maps, PassTo(p, i + 1).maps, Result(p);
    assert SameRow(a, b, x) && SameRow(c, e, x);
    PlannedRow(p, i, f, sh, d, x);
    DeleteLandsIff(p, i, f, sh, d, x);
    KeptThrough(a, b, c, e, x, !DeleteLands(p, f, x));
  }

  lemma PlanSparesRow(p: Pass, i: nat, f: LbFrontKey, sh: Shape, x: FrontEndpointKey)
    requires p.Valid() && i < |p.plans| && p.plans[i].front == f && sh == ShapeFor(p.inp, f)
    requires x.front == f && x !in sh.doomed && !IsPut(f, sh, x)
    ensures SameRow(PassTo(p, i).maps, PassTo(p, i + 1).maps, x)
  {
    if !Refused(p, i) {
      BoundaryProgress(p, i, |p.plans[i].steps|);
    }
  }

  /** A row that no plan names stays. */
  lemma SparedRowStays(p: Pass, f: LbFrontKey, sh: Shape, x: FrontEndpointKey)
    requires p.Valid() && sh == ShapeFor(p.inp, f) && x.front == f && x in p.inp.maps.eps && x !in sh.doomed && !IsPut(f, sh, x)
    ensures Kept(p.inp.maps, Result(p), x, true)
  {
    if i :| 0 <= i < |p.plans| && p.plans[i].front == f {
      UntouchedSince(p, i, f);
      PlanSparesRow(p, i, f, sh, x);
      var a, b, c, e := p.inp.maps, PassTo(p, i).maps, PassTo(p, i + 1).maps, Result(p);
      assert SameRow(a, b, x) && SameRow(c, e, x);
      KeptThrough(a, b, c, e, x, true);
    } else {
      UntouchedBetween(p, 0, |p.plans|, f);
      assert SameRow(p.inp.maps, Result(p), x);
    }
  }

  /**
   * Whatever fails or is refused, a row the pass does not write anew is unchanged after it, or gone;
   * and it is gone if and only if it was not to be spared and its own delete landed.
   */
  lemma RowSurvivesIff(p: Pass, x: FrontEndpointKey)
    requires p.Valid() && x in p.inp.maps.eps && !Rewritten(p.inp, x.front, x)
    ensures x in Result(p).eps <==> Spared(p.inp, x.front, x) || !DeleteLands(p, x.front, x)
    ensures x in Result(p).eps ==> Result(p).eps[x] == p.inp.maps.eps[x]
  {
    DoomedIff(p.inp, x.front, x);
    if Spared(p.inp, x.front, x) {
      SparedRowStays(p, x.front, ShapeFor(p.inp, x.front), x);
    } else if i :| 0 <= i < |p.plans| && p.plans[i].front == x.front {
      PlannedRowLeft(p, i, x.front, ShapeFor(p.inp, x.front), x);
    } else {
      PlannedOrNot(p, x.front);
      assert false;
    }
  }

  // ---- a front that is to go ---------------------------------------------------------------------------

  ghost predicate MetaDeleteLands(p: Pass, f: LbFrontKey)
    requires p.Sized()
  {
    exists i :: 0 <= i < |p.plans| && p.plans[i].front == f && DropLands(p, i)
  }

  predicate DropLands(p: Pass, i: nat)
    requires p.Sized() && i < |p.plans|
  {
    |p.plans[i].steps| > 0 && p.plans[i].steps[0] == DeleteMeta(p.plans[i].front) && Lands(p, i, 0)
  }

  lemma {:induction false} DropTells(m: Maps, f: LbFrontKey, sh: Shape, used: Usage, ok: seq<bool>, live: Option<FrontMeta>, k: nat)
    requires GoodShape(m, f, sh) && sh.dropMeta && |ok| == sh.Total() && k <= sh.Total() && f in m.meta
    ensures var r := ExecTo(Start(m, used), sh.Steps(f), ok, live, k);
            && (k > 0 ==> (f in r.maps.meta <==> !ok[0]) && (r.halted <==> !ok[0]))
            && (k == 0 || !ok[0] ==> r.maps == m) && (k == 0 ==> !r.halted)
  {
    if k > 0 {
      DropTells(m, f, sh, used, ok, live, k - 1);
    }
  }

  lemma PlannedDrop(p: Pass, i: nat, f: LbFrontKey, sh: Shape)
    requires p.Valid() && i < |p.plans| && p.plans[i].front == f && sh == ShapeFor(p.inp, f) && sh.dropMeta
    ensures f in PassTo(p, i + 1).maps.meta <==> !DropLands(p, i)
    ensures DropLands(p, i) || PassTo(p, i + 1).maps == PassTo(p, i).maps
  {
    StepIs(p, i, 0);
    BoundaryProgress(p, i, 0);
    if !Refused(p, i) {
      DropTells(PassTo(p, i).maps, f, sh, PassTo(p, i).used, p.oks[i], p.Live(i), sh.Total());
    }
  }

  lemma MetaDeleteLandsIff(p: Pass, i: nat, f: LbFrontKey)
    requires p.Valid() && i < |p.plans| && p.plans[i].front == f
    ensures MetaDeleteLands(p, f) <==> DropLands(p, i)
  {
    if a :| 0 <= a < |p.plans| && p.plans[a].front == f && DropLands(p, a) {
      OnlyPlan(p, i, a);
    }
  }

  /**
   * Whatever fails or is refused, a front that is pruned loses its meta if and only if the delete of it
   * lands; if it does not, the front keeps all its rows too.
   */
  lemma PrunedIff(p: Pass, f: LbFrontKey)
    requires p.Valid() && p.inp.prune && f !in p.inp.desired && f in p.inp.maps.meta
    ensures f !in Result(p).meta <==> MetaDeleteLands(p, f)
    ensures MetaDeleteLands(p, f) || SameOn(p.inp.maps, Result(p), f)
  {
    PlannedOrNot(p, f);
    var i :| 0 <= i < |p.plans| && p.plans[i].front == f;
    PlannedDrop(p, i, f, ShapeFor(p.inp, f));
    MetaDeleteLandsIff(p, i, f);
    UntouchedSince(p, i, f);
    if !DropLands(p, i) {
      SameOnTransitive(p.inp.maps, PassTo(p, i).maps, Result(p), f);
    }
  }
}
