/** What a pass achieves when its writes succeed, and how exactly it counts map entries. */
module FrontConverge {
  import opened Types
  import opened FrontPlan
  import opened FrontSafety

  function Min(a: int, b: nat): nat {
    if a < 0 then 0 else if a < b then a else b
  }

  /** The endpoint map without the first `n` of `doomed`. */
  function Removed(eps: map<FrontEndpointKey, FrontEndpoint>, doomed: seq<FrontEndpointKey>, n: nat)
    : map<FrontEndpointKey, FrontEndpoint>
    requires n <= |doomed|
  {
    if n == 0 then eps else Remove(Removed(eps, doomed, n - 1), doomed[n - 1])
  }

  lemma {:induction false} RemovedIs(eps: map<FrontEndpointKey, FrontEndpoint>, doomed: seq<FrontEndpointKey>, n: nat)
    requires n <= |doomed|
    ensures var r := Removed(eps, doomed, n);
            && (forall x :: x in r <==> x in eps && x !in doomed[..n])
            && (forall x :: x in r ==> r[x] == eps[x])
  {
    if n > 0 {
      RemovedIs(eps, doomed, n - 1);
      assert doomed[..n] == doomed[..n - 1] + [doomed[n - 1]];
    }
  }

  /** The endpoint map with the first `n` of `puts` written under `gen`. */
  function Filled(eps: map<FrontEndpointKey, FrontEndpoint>, f: LbFrontKey, gen: u32, puts: seq<FrontEndpoint>, n: nat)
    : map<FrontEndpointKey, FrontEndpoint>
    requires n <= |puts| < 0x1_0000
  {
    if n == 0 then eps else Filled(eps, f, gen, puts, n - 1)[EndpointKey(f, gen, n - 1) := puts[n - 1]]
  }

  lemma {:induction false} FilledIs(eps: map<FrontEndpointKey, FrontEndpoint>, f: LbFrontKey, gen: u32,
                                    puts: seq<FrontEndpoint>, n: nat)
    requires n <= |puts| < 0x1_0000
    ensures var r := Filled(eps, f, gen, puts, n);
            && (forall x: FrontEndpointKey ::
                  x in r <==> x in eps || (x.front == f && x.generation == gen && x.pad == 0 && x.slot < n))
            && (forall x: FrontEndpointKey :: x in r ==>
                  r[x] == if x.front == f && x.generation == gen && x.pad == 0 && x.slot < n
                          then puts[x.slot] else eps[x])
  {
    if n > 0 {
      FilledIs(eps, f, gen, puts, n - 1);
    }
  }

  function EpsAfter(m: Maps, f: LbFrontKey, sh: Shape, k: nat): map<FrontEndpointKey, FrontEndpoint>
    requires sh.Valid()
  {
    Filled(Removed(m.eps, sh.doomed, Min(k - sh.H(), |sh.doomed|)), f, sh.gen, sh.puts, Min(k - sh.D(), |sh.puts|))
  }

  function MetaAfter(m: Maps, f: LbFrontKey, sh: Shape, k: nat): map<LbFrontKey, FrontMeta> {
    if sh.dropMeta && k > 0 then Remove(m.meta, f)
    else if sh.commit.Some? && k == sh.Total() then m.meta[f := sh.commit.value]
    else m.meta
  }

  /** Where a plan stands after `k` steps if every write so far landed. */
  ghost predicate Landed(m: Maps, f: LbFrontKey, sh: Shape, r: Run, live: Option<FrontMeta>, k: nat) {
    && sh.Valid()
    && !r.failed && !r.blocked && !r.halted
    && r.maps == Maps(MetaAfter(m, f, sh, k), EpsAfter(m, f, sh, k))
    && r.used == Usage(|r.maps.meta|, |r.maps.eps|)
    && (r.committed <==> k == sh.Total() && sh.commit.Some?
                         && (live.None? || live.value.generation != sh.commit.value.generation))
  }

  /** Each delete names a row that is there, each put a row that is not. */
  ghost predicate Fresh(m: Maps, f: LbFrontKey, sh: Shape) {
    && NoDuplicates(sh.doomed)
    && (forall x :: x in sh.doomed ==> x in m.eps)
    && (forall x: FrontEndpointKey :: IsPut(f, sh, x) && x in m.eps ==> x in sh.doomed)
    && (sh.dropMeta ==> f in m.meta)
  }

  lemma SizeAfterRemove<K, V>(m: map<K, V>, k: K)
    requires k in m
    ensures |Remove(m, k)| == |m| - 1
  {
    assert Remove(m, k).Keys == m.Keys - {k};
    assert |Remove(m, k).Keys| == |Remove(m, k)| && |m.Keys| == |m|;
  }

  lemma SizeAfterInsert<K, V>(m: map<K, V>, k: K, v: V)
    ensures |m[k := v]| == if k in m then |m| else |m| + 1
  {
    assert m[k := v].Keys == m.Keys + {k};
    assert |m[k := v].Keys| == |m[k := v]| && |m.Keys| == |m|;
    if k in m {
      assert m[k := v].Keys == m.Keys;
    }
  }

  lemma StillThere(eps: map<FrontEndpointKey, FrontEndpoint>, doomed: seq<FrontEndpointKey>, n: nat)
    requires NoDuplicates(doomed) && n < |doomed| && doomed[n] in eps
    ensures doomed[n] in Removed(eps, doomed, n)
  {
    RemovedIs(eps, doomed, n);
    assert doomed[n] !in doomed[..n];
  }

  lemma DeleteStep(m: Maps, f: LbFrontKey, sh: Shape, k: nat)
    requires sh.Valid() && sh.H() <= k < sh.D()
    requires NoDuplicates(sh.doomed) && sh.doomed[k - sh.H()] in m.eps
    ensures var x, eps := sh.doomed[k - sh.H()], EpsAfter(m, f, sh, k);
            && x in eps && Remove(eps, x) == EpsAfter(m, f, sh, k + 1) && |Remove(eps, x)| == |eps| - 1
            && MetaAfter(m, f, sh, k) == MetaAfter(m, f, sh, k + 1)
  {
    var n := k - sh.H();
    StillThere(m.eps, sh.doomed, n);
    SizeAfterRemove(Removed(m.eps, sh.doomed, n), sh.doomed[n]);
  }

  lemma PutStep(m: Maps, f: LbFrontKey, sh: Shape, k: nat)
    requires sh.Valid() && sh.D() <= k < sh.P() && !sh.dropMeta && sh.commit.Some?
    requires forall x: FrontEndpointKey :: IsPut(f, sh, x) && x in m.eps ==> x in sh.doomed
    ensures var x, eps := EndpointKey(f, sh.gen, k - sh.D()), EpsAfter(m, f, sh, k);
            var after := eps[x := sh.puts[k - sh.D()]];
            && after == EpsAfter(m, f, sh, k + 1) && |after| == |eps| + 1
            && MetaAfter(m, f, sh, k) == MetaAfter(m, f, sh, k + 1)
  {
    var x := EndpointKey(f, sh.gen, k - sh.D());
    var kept := Removed(m.eps, sh.doomed, |sh.doomed|);
    RemovedIs(m.eps, sh.doomed, |sh.doomed|);
    FilledIs(kept, f, sh.gen, sh.puts, k - sh.D());
    assert sh.doomed[..|sh.doomed|] == sh.doomed;
    assert IsPut(f, sh, x);
    SizeAfterInsert(EpsAfter(m, f, sh, k), x, sh.puts[k - sh.D()]);
  }

  lemma DeleteLands(m: Maps, f: LbFrontKey, sh: Shape, r: Run, live: Option<FrontMeta>, k: nat)
    requires sh.Valid() && sh.H() <= k < sh.D()
    requires NoDuplicates(sh.doomed) && sh.doomed[k - sh.H()] in m.eps
    requires Landed(m, f, sh, r, live, k)
    ensures Landed(m, f, sh, Step(r, sh.StepAt(f, k), true, live), live, k + 1)
  {
    DeleteStep(m, f, sh, k);
  }

  lemma PutLands(m: Maps, f: LbFrontKey, sh: Shape, r: Run, live: Option<FrontMeta>, k: nat)
    requires sh.Valid() && sh.D() <= k < sh.P() && !sh.dropMeta && sh.commit.Some?
    requires forall x: FrontEndpointKey :: IsPut(f, sh, x) && x in m.eps ==> x in sh.doomed
    requires Landed(m, f, sh, r, live, k)
    ensures Landed(m, f, sh, Step(r, sh.StepAt(f, k), true, live), live, k + 1)
  {
    PutStep(m, f, sh, k);
  }

  lemma MetaLands(m: Maps, f: LbFrontKey, sh: Shape, r: Run, live: Option<FrontMeta>, k: nat)
    requires GoodShape(m, f, sh) && Fresh(m, f, sh) && k < sh.Total()
    requires live == Lookup(m.meta, f) && Landed(m, f, sh, r, live, k)
    requires k < sh.H() || sh.P() <= k
    ensures Landed(m, f, sh, Step(r, sh.StepAt(f, k), true, live), live, k + 1)
  {
    if k < sh.H() {
      SizeAfterRemove(r.maps.meta, f);
    } else {
      SizeAfterInsert(r.maps.meta, f, sh.commit.value);
    }
  }

  lemma StepLands(m: Maps, f: LbFrontKey, sh: Shape, r: Run, live: Option<FrontMeta>, k: nat)
    requires GoodShape(m, f, sh) && Fresh(m, f, sh) && k < sh.Total()
    requires live == Lookup(m.meta, f) && Landed(m, f, sh, r, live, k)
    ensures Landed(m, f, sh, Step(r, sh.StepAt(f, k), true, live), live, k + 1)
  {
    if sh.H() <= k < sh.D() {
      DeleteLands(m, f, sh, r, live, k);
    } else if sh.D() <= k < sh.P() {
      PutLands(m, f, sh, r, live, k);
    } else {
      MetaLands(m, f, sh, r, live, k);
    }
  }

  lemma StartLanded(m: Maps, f: LbFrontKey, sh: Shape, live: Option<FrontMeta>)
    requires GoodShape(m, f, sh)
    ensures Landed(m, f, sh, Start(m, Usage(|m.meta|, |m.eps|)), live, 0)
  {
  }

  lemma {:induction false} PlanLands(m: Maps, f: LbFrontKey, sh: Shape, ok: seq<bool>, live: Option<FrontMeta>, k: nat)
    requires GoodShape(m, f, sh) && Fresh(m, f, sh) && |ok| == sh.Total() && k <= sh.Total()
    requires live == Lookup(m.meta, f)
    requires forall j :: 0 <= j < k ==> ok[j]
    ensures Landed(m, f, sh, ExecTo(Start(m, Usage(|m.meta|, |m.eps|)), sh.Steps(f), ok, live, k), live, k)
  {
    var r0 := Start(m, Usage(|m.meta|, |m.eps|));
    if k == 0 {
      StartLanded(m, f, sh, live);
    } else {
      PlanLands(m, f, sh, ok, live, k - 1);
      StepLands(m, f, sh, ExecTo(r0, sh.Steps(f), ok, live, k - 1), live, k - 1);
    }
  }

  lemma ShapeIsFresh(inp: Input, m: Maps, f: LbFrontKey)
    requires inp.Valid() && SameOn(inp.maps, m, f)
    ensures Fresh(m, f, ShapeFor(inp, f))
  {
    var sh := ShapeFor(inp, f);
    forall x | x in sh.doomed ensures x in m.eps {
      assert x in inp.order && SameRow(inp.maps, m, x);
    }
    forall x: FrontEndpointKey | IsPut(f, sh, x) && x in m.eps ensures x in sh.doomed {
      assert SameRow(inp.maps, m, x) && x in inp.order;
    }
  }

  // ---- a whole pass ---------------------------------------------------------------------------

  ghost predicate Succeeds(p: Pass) {
    p.Sized() && forall i, j :: 0 <= i < |p.plans| && 0 <= j < |p.oks[i]| ==> p.oks[i][j]
  }

  predicate Exact(m: Maps, used: Usage) {
    used == Usage(|m.meta|, |m.eps|)
  }

  /** Plan `i` runs to its end. */
  lemma PlanRuns(p: Pass, i: nat)
    requires p.Runs() && p.inp.Valid() && Succeeds(p) && i < |p.plans| && Exact(PassTo(p, i).maps, PassTo(p, i).used)
    ensures var f := p.plans[i].front; var sh := ShapeFor(p.inp, f);
            Landed(PassTo(p, i).maps, f, sh, Boundary(p, i, sh.Total()), p.Live(i), sh.Total())
  {
    var f := p.plans[i].front;
    BoundaryProgress(p, i, 0);
    ShapeIsFresh(p.inp, PassTo(p, i).maps, f);
    PlanLands(PassTo(p, i).maps, f, ShapeFor(p.inp, f), p.oks[i], p.Live(i), |p.plans[i].steps|);
  }

  lemma PlanStaysExact(p: Pass, i: nat)
    requires p.Runs() && p.inp.Valid() && Succeeds(p) && i < |p.plans| && Exact(PassTo(p, i).maps, PassTo(p, i).used)
    ensures Exact(PassTo(p, i + 1).maps, PassTo(p, i + 1).used)
    ensures PassTo(p, i + 1).failed == PassTo(p, i).failed
  {
    PlanRuns(p, i);
  }

  /** `used` counts exactly when no write fails, refused plans included. */
  lemma {:induction false} UsageIsExact(p: Pass, i: nat)
    requires p.Runs() && p.inp.Valid() && Succeeds(p) && i <= |p.plans|
    ensures Exact(PassTo(p, i).maps, PassTo(p, i).used)
    ensures !PassTo(p, i).failed
  {
    if i > 0 {
      UsageIsExact(p, i - 1);
      PlanStaysExact(p, i - 1);
    }
  }

  /** `f` went from `m` to what `sh` makes of it. */
  ghost predicate Became(m: Maps, f: LbFrontKey, sh: Shape, s: Maps) {
    && sh.Valid()
    && (forall x: FrontEndpointKey :: x.front == f ==>
          (x in s.eps <==> IsPut(f, sh, x) || (x in m.eps && x !in sh.doomed)))
    && (forall x: FrontEndpointKey :: x.front == f && x in s.eps && IsPut(f, sh, x) ==> s.eps[x] == sh.puts[x.slot])
    && (forall x: FrontEndpointKey :: x.front == f && x in s.eps && !IsPut(f, sh, x) ==> s.eps[x] == m.eps[x])
    && Lookup(s.meta, f) == if sh.dropMeta then None else if sh.commit.Some? then sh.commit else Lookup(m.meta, f)
  }

  /** `f` is as its plan wants it. */
  ghost predicate Done(inp: Input, f: LbFrontKey, s: Maps)
    requires f in inp.desired ==> inp.desired[f].Valid()
  {
    Became(inp.maps, f, ShapeFor(inp, f), s)
  }

  lemma AllRowsWritten(m: Maps, f: LbFrontKey, sh: Shape)
    requires sh.Valid()
    ensures var eps := EpsAfter(m, f, sh, sh.Total());
            && (forall x :: x in eps <==> IsPut(f, sh, x) || (x in m.eps && x !in sh.doomed))
            && (forall x :: x in eps ==> eps[x] == if IsPut(f, sh, x) then sh.puts[x.slot] else m.eps[x])
  {
    RemovedIs(m.eps, sh.doomed, |sh.doomed|);
    FilledIs(Removed(m.eps, sh.doomed, |sh.doomed|), f, sh.gen, sh.puts, |sh.puts|);
    assert sh.doomed[..|sh.doomed|] == sh.doomed;
  }

  lemma LandedBecame(m: Maps, f: LbFrontKey, sh: Shape, s: Maps)
    requires sh.Valid() && (sh.dropMeta ==> sh.commit.None?)
    requires s.meta == MetaAfter(m, f, sh, sh.Total()) && s.eps == EpsAfter(m, f, sh, sh.Total())
    ensures Became(m, f, sh, s)
  {
    AllRowsWritten(m, f, sh);
    RowsBecame(m, f, sh, s);
  }

  lemma RowsBecame(m: Maps, f: LbFrontKey, sh: Shape, s: Maps)
    requires sh.Valid() && (sh.dropMeta ==> sh.commit.None?)
    requires s.meta == MetaAfter(m, f, sh, sh.Total())
    requires forall x :: x in s.eps <==> IsPut(f, sh, x) || (x in m.eps && x !in sh.doomed)
    requires forall x :: x in s.eps ==> s.eps[x] == if IsPut(f, sh, x) then sh.puts[x.slot] else m.eps[x]
    ensures Became(m, f, sh, s)
  {
  }

  lemma BecameFrom(m0: Maps, m: Maps, f: LbFrontKey, sh: Shape, s: Maps)
    requires SameOn(m0, m, f) && Became(m, f, sh, s)
    ensures Became(m0, f, sh, s)
  {
    forall x: FrontEndpointKey | x.front == f ensures SameRow(m0, m, x) {
    }
  }

  lemma SameOnBecame(m: Maps, f: LbFrontKey, sh: Shape, a: Maps, b: Maps)
    requires SameOn(a, b, f) && Became(m, f, sh, a)
    ensures Became(m, f, sh, b)
  {
    forall x: FrontEndpointKey | x.front == f ensures SameRow(a, b, x) {
    }
  }

  lemma PlanIsDone(p: Pass, i: nat)
    requires p.Runs() && p.inp.Valid() && Succeeds(p) && i < |p.plans|
    requires !PassTo(p, i + 1).refused
    ensures Done(p.inp, p.plans[i].front, PassTo(p, i + 1).maps)
  {
    UsageIsExact(p, i);
    PlanRuns(p, i);
    BoundaryProgress(p, i, 0);
    var f := p.plans[i].front;
    var r := Boundary(p, i, |p.plans[i].steps|);
    LandedBecame(PassTo(p, i).maps, f, ShapeFor(p.inp, f), r.maps);
    BecameFrom(p.inp.maps, PassTo(p, i).maps, f, ShapeFor(p.inp, f), r.maps);
  }

  /** A plan reports its front exactly when it commits another generation. */
  lemma PlanReports(p: Pass, i: nat)
    requires p.Runs() && p.inp.Valid() && Succeeds(p) && i < |p.plans|
    requires !PassTo(p, i + 1).refused
    ensures PassTo(p, i + 1).swapped ==
            var sh := ShapeFor(p.inp, p.plans[i].front);
            if sh.commit.Some? && (p.Live(i).None? || p.Live(i).value.generation != sh.commit.value.generation)
            then PassTo(p, i).swapped + [p.plans[i].front] else PassTo(p, i).swapped
  {
    UsageIsExact(p, i);
    PlanRuns(p, i);
  }

  lemma {:induction false} RefusedStays(p: Pass, i: nat, j: nat)
    requires p.Sized() && i <= j <= |p.plans| && PassTo(p, i).refused
    ensures PassTo(p, j).refused
    decreases j
  {
    if i < j {
      RefusedStays(p, i, j - 1);
    }
  }

  lemma NothingToDo(inp: Input, f: LbFrontKey)
    requires inp.Valid() && ShapeFor(inp, f).Total() == 0
    ensures Done(inp, f, inp.maps)
  {
  }

  lemma HasMember<T>(s: seq<T>)
    requires s != []
    ensures exists x :: x in s
  {
    assert s[0] in s;
  }

  /** What a front outside `FrontsOf` would need: nothing. */
  lemma OutsideNeedsNothing(inp: Input, f: LbFrontKey)
    requires inp.Valid() && f !in FrontsOf(inp)
    ensures ShapeFor(inp, f).Total() == 0
  {
    var d := Doomed(inp, f, inp.order);
    if d != [] {
      HasMember(d);
      assert false;
    }
  }

  lemma PlannedIsDone(p: Pass, i: nat)
    requires p.Runs() && p.inp.Valid() && Succeeds(p) && !PassTo(p, |p.plans|).refused && i < |p.plans|
    ensures Done(p.inp, p.plans[i].front, PassTo(p, |p.plans|).maps)
  {
    var f := p.plans[i].front;
    if PassTo(p, i + 1).refused {
      RefusedStays(p, i + 1, |p.plans|);
    }
    PlanIsDone(p, i);
    UntouchedBetween(p, i + 1, |p.plans|, f);
    SameOnBecame(p.inp.maps, f, ShapeFor(p.inp, f), PassTo(p, i + 1).maps, PassTo(p, |p.plans|).maps);
  }

  lemma UnplannedIsDone(p: Pass, f: LbFrontKey)
    requires p.Runs() && p.inp.Valid() && ShapeFor(p.inp, f).Total() == 0
    requires !Planned(p.plans, f)
    ensures Done(p.inp, f, PassTo(p, |p.plans|).maps)
  {
    NothingToDo(p.inp, f);
    UntouchedBetween(p, 0, |p.plans|, f);
    SameOnBecame(p.inp.maps, f, ShapeFor(p.inp, f), p.inp.maps, PassTo(p, |p.plans|).maps);
  }

  lemma PlannedOrNot(p: Pass, f: LbFrontKey)
    requires p.Valid()
    ensures Planned(p.plans, f) || ShapeFor(p.inp, f).Total() == 0
  {
    if f !in FrontsOf(p.inp) {
      OutsideNeedsNothing(p.inp, f);
    }
  }

  /** When nothing fails and nothing is refused, every front ends up as its plan wants it. */
  lemma PassIsDone(p: Pass, f: LbFrontKey)
    requires p.Valid() && Succeeds(p) && !PassTo(p, |p.plans|).refused
    ensures Done(p.inp, f, PassTo(p, |p.plans|).maps)
  {
    PlannedOrNot(p, f);
    if Planned(p.plans, f) {
      var i :| 0 <= i < |p.plans| && p.plans[i].front == f;
      PlannedIsDone(p, i);
    } else {
      UnplannedIsDone(p, f);
    }
  }
}
