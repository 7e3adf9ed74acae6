/** The capacity check: `used` never undercounts, and well-sized maps never refuse a plan. */
module FrontSizing {
  import opened Types
  import opened FrontPlan
  import opened FrontSafety
  import opened FrontConverge
  import opened FrontResults

  // ---- used bounds the maps from above, whatever fails ------------------------------------------

  predicate Bounds(used: Usage, m: Maps) {
    |m.meta| <= used.meta && |m.eps| <= used.endpoints
  }

  lemma StepBounds(r: Run, w: FrontWrite, ok: bool, live: Option<FrontMeta>)
    requires Bounds(r.used, r.maps)
    requires w.PutMeta? && live.Some? ==> w.front in r.maps.meta
    ensures Bounds(Step(r, w, ok, live).used, Step(r, w, ok, live).maps)
  {
    if ok && CanLand(r.maps, w) {
      match w
      case DeleteEndpoint(k) => SizeAfterRemove(r.maps.eps, k);
      case PutEndpoint(k, ep) => SizeAfterInsert(r.maps.eps, k, ep);
      case PutMeta(f, v) => SizeAfterInsert(r.maps.meta, f, v);
      case DeleteMeta(f) => SizeAfterRemove(r.maps.meta, f);
    }
  }

  lemma {:induction false} PlanBounds(m: Maps, f: LbFrontKey, sh: Shape, used: Usage, ok: seq<bool>,
                                      live: Option<FrontMeta>, k: nat)
    requires GoodShape(m, f, sh) && |ok| == sh.Total() && k <= sh.Total() && (sh.dropMeta ==> f in m.meta)
    requires live == Lookup(m.meta, f) && Bounds(used, m)
    ensures var r := ExecTo(Start(m, used), sh.Steps(f), ok, live, k); Bounds(r.used, r.maps)
  {
    if k > 0 {
      PlanBounds(m, f, sh, used, ok, live, k - 1);
      PlanProgress(m, f, sh, used, ok, live, k - 1);
      StepBounds(ExecTo(Start(m, used), sh.Steps(f), ok, live, k - 1), sh.StepAt(f, k - 1), ok[k - 1], live);
    }
  }

  lemma BoundaryBounds(p: Pass, i: nat, k: nat)
    requires p.Runs() && i < |p.plans| && k <= |p.plans[i].steps|
    requires Bounds(PassTo(p, i).used, PassTo(p, i).maps)
    ensures Bounds(Boundary(p, i, k).used, Boundary(p, i, k).maps)
  {
    BoundaryProgress(p, i, k);
    var f := p.plans[i].front;
    PlanBounds(PassTo(p, i).maps, f, ShapeFor(p.inp, f), PassTo(p, i).used, p.oks[i], p.Live(i), k);
  }

  /** After any plans, done, failed or refused, `used` is at least the true size of both maps. */
  lemma {:induction false} UsageBoundsMaps(p: Pass, i: nat)
    requires p.Runs() && i <= |p.plans|
    ensures Bounds(PassTo(p, i).used, PassTo(p, i).maps)
  {
    if i > 0 {
      UsageBoundsMaps(p, i - 1);
      BoundaryBounds(p, i - 1, |p.plans[i - 1].steps|);
    }
  }

  // ---- what a plan needs ------------------------------------------------------------------------

  function Net(sh: Shape): int {
    |sh.puts| - |sh.doomed|
  }

  lemma {:induction false} EffectAt(sh: Shape, f: LbFrontKey, had: bool, k: nat)
    requires sh.Valid() && (sh.dropMeta ==> sh.puts == [] && sh.commit.None?) && k <= sh.Total()
    ensures var e := EffectTo(sh.Steps(f), had, k);
            && e.ep == Min(k - sh.D(), |sh.puts|) - Min(k - sh.H(), |sh.doomed|)
            && e.epPeak == Max(0, if k <= sh.D() then 0 else e.ep)
            && e.meta == (if sh.dropMeta && k > 0 then -1 else if k > sh.P() && !had then 1 else 0)
            && e.metaPeak == Max(0, e.meta)
  {
    if k > 0 {
      EffectAt(sh, f, had, k - 1);
    }
  }

  /** A plan deletes before it puts, so its peak is `max(0, net)`. */
  lemma EffectOf(inp: Input, f: LbFrontKey, had: bool)
    requires f in inp.desired ==> inp.desired[f].Valid()
    ensures var sh := ShapeFor(inp, f);
            var e := PlanEffect(FrontPlan(f, sh.Steps(f)), had);
            && e.ep == Net(sh) && e.epPeak == Max(0, Net(sh))
            && e.metaPeak == if sh.commit.Some? && !had then 1 else 0
  {
    var sh := ShapeFor(inp, f);
    EffectAt(sh, f, had, sh.Total());
  }

  // ---- counting rows front by front ---------------------------------------------------------------

  ghost function Mine(keys: set<FrontEndpointKey>, f: LbFrontKey): set<FrontEndpointKey> {
    set k | k in keys && k.front == f
  }

  ghost function GenRows(m: Maps, f: LbFrontKey, g: u32): set<FrontEndpointKey> {
    set k | k in m.eps && k.front == f && k.generation == g
  }

  /** Rows counted per front add up to at most `b` for each front. */
  lemma {:induction false} SumOverFronts(keys: set<FrontEndpointKey>, fronts: set<LbFrontKey>, b: nat)
    requires forall k :: k in keys ==> k.front in fronts
    requires forall f :: f in fronts ==> |Mine(keys, f)| <= b
    ensures |keys| <= b * |fronts|
    decreases |fronts|
  {
    if fronts == {} {
      assert keys == {};
    } else {
      var f :| f in fronts;
      var rest := keys - Mine(keys, f);
      forall g | g in fronts - {f} ensures |Mine(rest, g)| <= b {
        assert Mine(rest, g) == Mine(keys, g);
      }
      SumOverFronts(rest, fronts - {f}, b);
      assert |keys| == |Mine(keys, f)| + |rest| by {
        assert keys == Mine(keys, f) + rest;
      }
      Distribute(b, |fronts|);
    }
  }

  lemma Distribute(b: nat, n: nat)
    requires n > 0
    ensures b * n == b * (n - 1) + b
  {
  }

  lemma SizeWithin<T>(a: set<T>, b: set<T>)
    requires a <= b
    ensures |a| <= |b|
  {
    if a != {} {
      var x :| x in a;
      SizeWithin(a - {x}, b - {x});
    }
  }

  ghost function PutKeys(f: LbFrontKey, sh: Shape, n: nat): (r: set<FrontEndpointKey>)
    requires n <= |sh.puts| && sh.Valid()
    ensures |r| <= n
    ensures forall x: FrontEndpointKey :: x in r <==> IsPut(f, sh, x) && x.slot < n
  {
    if n == 0 then {} else PutKeys(f, sh, n - 1) + {EndpointKey(f, sh.gen, n - 1)}
  }

  /** A listed set of rows has as many elements as the list. */
  lemma {:induction false} ListedSize(s: seq<FrontEndpointKey>, rows: set<FrontEndpointKey>)
    requires NoDuplicates(s) && forall x :: x in s <==> x in rows
    ensures |rows| == |s|
  {
    if s == [] {
      assert rows == {};
    } else {
      var x := s[|s| - 1];
      var t := s[..|s| - 1];
      assert s == t + [x];
      assert x !in t;
      ListedSize(t, rows - {x});
    }
  }

  // ---- no plan is refused -------------------------------------------------------------------------

  /** No generation of any front holds more than `e` rows. */
  ghost predicate SmallGenerations(m: Maps, e: nat) {
    forall f, g :: |GenRows(m, f, g)| <= e
  }

  /** Fronts that have a meta row or are wanted. */
  function Relevant(inp: Input): set<LbFrontKey> {
    inp.desired.Keys + inp.maps.meta.Keys
  }

  /** What the sizing promises the planner, for `fronts` fronts of `e` endpoints each. */
  ghost predicate Sized(inp: Input, fronts: nat, e: nat) {
    && inp.Valid() && inp.prune
    && |Relevant(inp)| <= fronts
    && (forall f :: f in inp.desired ==> |inp.desired[f].endpoints| <= e)
    && SmallGenerations(inp.maps, e)
    && |inp.maps.eps| <= 2 * e * fronts
  }

  /** The rows of `f` its plan leaves alone. */
  ghost function Kept(inp: Input, f: LbFrontKey): set<FrontEndpointKey>
    requires f in inp.desired ==> inp.desired[f].Valid()
  {
    set x | x in inp.maps.eps && x.front == f && !Deletes(inp, f, x)
  }

  lemma KeptIsSmall(inp: Input, f: LbFrontKey, e: nat)
    requires inp.Valid() && inp.prune && SmallGenerations(inp.maps, e)
    ensures |Kept(inp, f)| <= if Swaps(inp, f) then e else 2 * e
    ensures Kept(inp, f) != {} ==> f in inp.desired && f in inp.maps.meta
  {
    if f in inp.desired && f in inp.maps.meta {
      var live := inp.maps.meta[f].generation;
      var a, b := GenRows(inp.maps, f, live), GenRows(inp.maps, f, WrappingSub1(live));
      assert |a| <= e && |b| <= e;
      if Swaps(inp, f) {
        SizeWithin(Kept(inp, f), a);
      } else {
        SizeWithin(Kept(inp, f), a + b);
      }
    } else {
      assert Kept(inp, f) == {};
    }
  }

  ghost function Gone(inp: Input, f: LbFrontKey): set<FrontEndpointKey>
    requires f in inp.desired ==> inp.desired[f].Valid()
  {
    set x | x in inp.maps.eps && Deletes(inp, f, x)
  }

  lemma DoomedIs(inp: Input, f: LbFrontKey, x: FrontEndpointKey)
    requires inp.Valid()
    ensures x in ShapeFor(inp, f).doomed <==> x in inp.maps.eps && Deletes(inp, f, x)
  {
  }

  lemma DoomedSize(inp: Input, f: LbFrontKey)
    requires inp.Valid()
    ensures |ShapeFor(inp, f).doomed| == |Gone(inp, f)|
  {
    var doomed := Doomed(inp, f, inp.order);
    forall x ensures x in doomed <==> x in Gone(inp, f) {
    }
    ListedSize(doomed, Gone(inp, f));
  }

  /** `f`'s rows before the pass: the doomed ones and the kept ones. */
  lemma RowsBefore(inp: Input, f: LbFrontKey)
    requires inp.Valid()
    ensures |Mine(inp.maps.eps.Keys, f)| == |ShapeFor(inp, f).doomed| + |Kept(inp, f)|
  {
    DoomedSize(inp, f);
    assert Mine(inp.maps.eps.Keys, f) == Gone(inp, f) + Kept(inp, f);
    assert Gone(inp, f) !! Kept(inp, f);
  }

  /** `f`'s rows once its plan is done: the kept ones and the new ones. */
  lemma RowsDone(inp: Input, f: LbFrontKey, s: Maps)
    requires inp.Valid() && Done(inp, f, s)
    ensures |Mine(s.eps.Keys, f)| <= |Kept(inp, f)| + |ShapeFor(inp, f).puts|
  {
    var sh := ShapeFor(inp, f);
    var puts := PutKeys(f, sh, |sh.puts|);
    forall x | x in Mine(s.eps.Keys, f) ensures x in Kept(inp, f) + puts {
      if x !in puts {
        assert x in inp.maps.eps && x in inp.order;
      }
    }
    SizeWithin(Mine(s.eps.Keys, f), Kept(inp, f) + puts);
  }

  /** Every front has at most `2e` rows: those done, those untouched, and those whose plan grows them. */
  lemma FrontFits(inp: Input, f: LbFrontKey, s: Maps, e: nat)
    requires inp.Valid() && inp.prune && SmallGenerations(inp.maps, e)
    requires f in inp.desired ==> |inp.desired[f].endpoints| <= e
    requires Done(inp, f, s) || (SameOn(inp.maps, s, f) && Net(ShapeFor(inp, f)) > 0)
    ensures |Mine(s.eps.Keys, f)| <= 2 * e
    ensures Mine(s.eps.Keys, f) != {} ==> f in Relevant(inp)
  {
    KeptIsSmall(inp, f, e);
    if Done(inp, f, s) {
      RowsDone(inp, f, s);
    } else {
      RowsBefore(inp, f);
      forall x ensures x in Mine(s.eps.Keys, f) <==> x in Mine(inp.maps.eps.Keys, f) {
        if x.front == f {
          assert SameRow(inp.maps, s, x);
        }
      }
      assert Mine(s.eps.Keys, f) == Mine(inp.maps.eps.Keys, f);
    }
  }

  lemma AllFits(inp: Input, s: Maps, fronts: nat, e: nat)
    requires Sized(inp, fronts, e)
    requires forall f :: Done(inp, f, s) || (SameOn(inp.maps, s, f) && Net(ShapeFor(inp, f)) > 0)
    ensures |s.eps| <= 2 * e * fronts
  {
    forall f ensures |Mine(s.eps.Keys, f)| <= 2 * e && (Mine(s.eps.Keys, f) != {} ==> f in Relevant(inp)) {
      FrontFits(inp, f, s, e);
    }
    forall k | k in s.eps.Keys ensures k.front in Relevant(inp) {
      assert k in Mine(s.eps.Keys, k.front);
    }
    SumOverFronts(s.eps.Keys, Relevant(inp), 2 * e);
    assert |s.eps| == |s.eps.Keys|;
    MulMono(2 * e, |Relevant(inp)|, fronts);
  }

  lemma MulMono(b: nat, x: nat, y: nat)
    requires x <= y
    ensures b * x <= b * y
  {
  }

  lemma {:induction false} RemovedSize(eps: map<FrontEndpointKey, FrontEndpoint>, doomed: seq<FrontEndpointKey>, n: nat)
    requires NoDuplicates(doomed) && n <= |doomed| && forall x :: x in doomed ==> x in eps
    ensures |Removed(eps, doomed, n)| == |eps| - n
  {
    if n > 0 {
      RemovedSize(eps, doomed, n - 1);
      StillThere(eps, doomed, n - 1);
      SizeAfterRemove(Removed(eps, doomed, n - 1), doomed[n - 1]);
    }
  }

  lemma {:induction false} FilledSize(eps: map<FrontEndpointKey, FrontEndpoint>, f: LbFrontKey, gen: u32,
                                      puts: seq<FrontEndpoint>, n: nat)
    requires n <= |puts| < 0x1_0000 && forall j :: 0 <= j < |puts| ==> EndpointKey(f, gen, j) !in eps
    ensures |Filled(eps, f, gen, puts, n)| == |eps| + n
  {
    if n > 0 {
      FilledSize(eps, f, gen, puts, n - 1);
      FilledIs(eps, f, gen, puts, n - 1);
      SizeAfterInsert(Filled(eps, f, gen, puts, n - 1), EndpointKey(f, gen, n - 1), puts[n - 1]);
    }
  }

  lemma SizeAfter(m: Maps, f: LbFrontKey, sh: Shape)
    requires Fresh(m, f, sh) && sh.Valid()
    ensures |EpsAfter(m, f, sh, sh.Total())| == |m.eps| + Net(sh)
  {
    assert sh.doomed[..|sh.doomed|] == sh.doomed;
    RemovedSize(m.eps, sh.doomed, |sh.doomed|);
    RemovedIs(m.eps, sh.doomed, |sh.doomed|);
    forall j | 0 <= j < |sh.puts| ensures EndpointKey(f, sh.gen, j) !in Removed(m.eps, sh.doomed, |sh.doomed|) {
      assert IsPut(f, sh, EndpointKey(f, sh.gen, j));
    }
    FilledSize(Removed(m.eps, sh.doomed, |sh.doomed|), f, sh.gen, sh.puts, |sh.puts|);
  }

  function PlanShape(p: Pass, i: nat): Shape
    requires p.Runs() && i < |p.plans|
  {
    ShapeFor(p.inp, p.plans[i].front)
  }

  /** Plan `i`, run from where the pass stands, changes the row count by its net. */
  lemma NetChange(p: Pass, i: nat)
    requires p.Runs() && p.inp.Valid() && Succeeds(p) && i < |p.plans|
    ensures |Boundary(p, i, |p.plans[i].steps|).maps.eps| == |PassTo(p, i).maps.eps| + Net(PlanShape(p, i))
  {
    var f, sh := p.plans[i].front, PlanShape(p, i);
    UsageIsExact(p, i);
    PlanRuns(p, i);
    BoundaryProgress(p, i, 0);
    ShapeIsFresh(p.inp, PassTo(p, i).maps, f);
    SizeAfter(PassTo(p, i).maps, f, sh);
  }

  /** The sort puts smaller nets first. */
  lemma SortedNets(p: Pass, i: nat, j: nat)
    requires p.Valid() && i <= j < |p.plans|
    ensures Net(PlanShape(p, i)) <= Net(PlanShape(p, j))
  {
    if i < j {
      var a, b := p.plans[i], p.plans[j];
      assert !KeyLess(b, a, p.inp.maps.meta);
      EffectOf(p.inp, a.front, a.front in p.inp.maps.meta);
      EffectOf(p.inp, b.front, b.front in p.inp.maps.meta);
      assert a == FrontPlan(a.front, PlanShape(p, i).Steps(a.front));
      assert b == FrontPlan(b.front, PlanShape(p, j).Steps(b.front));
    }
  }

  lemma PlanShrinks(p: Pass, i: nat)
    requires p.Runs() && p.inp.Valid() && Succeeds(p) && i < |p.plans| && Net(PlanShape(p, i)) <= 0
    ensures |PassTo(p, i + 1).maps.eps| <= |PassTo(p, i).maps.eps|
  {
    NetChange(p, i);
  }

  /** While only shrinking plans have run, the map has not grown. */
  lemma {:induction false} OnlyShrunk(p: Pass, i: nat)
    requires p.Sized() && i <= |p.plans|
    requires forall j :: 0 <= j < i ==> |PassTo(p, j + 1).maps.eps| <= |PassTo(p, j).maps.eps|
    ensures |PassTo(p, i).maps.eps| <= |p.inp.maps.eps|
  {
    if i > 0 {
      OnlyShrunk(p, i - 1);
      assert |PassTo(p, (i - 1) + 1).maps.eps| <= |PassTo(p, i - 1).maps.eps|;
    }
  }

  /** None of the first `i` plans was refused. */
  ghost predicate NoneRefused(p: Pass, i: nat)
    requires p.Sized() && i <= |p.plans|
  {
    forall j :: 0 <= j <= i ==> !PassTo(p, j).refused
  }

  /** In plan order, the front of plan `j` at the end of plan `i`. */
  lemma WhereFrontStands(p: Pass, i: nat, g: LbFrontKey)
    requires p.Valid() && Succeeds(p) && i < |p.plans| && NoneRefused(p, i)
    requires Net(PlanShape(p, i)) > 0
    ensures var s := Boundary(p, i, |p.plans[i].steps|).maps;
            Done(p.inp, g, s) || (SameOn(p.inp.maps, s, g) && Net(ShapeFor(p.inp, g)) > 0)
  {
    var k := |p.plans[i].steps|;
    var s := Boundary(p, i, k).maps;
    PlannedOrNot(p, g);
    if Planned(p.plans, g) {
      var j :| 0 <= j < |p.plans| && p.plans[j].front == g;
      if j < i {
        EarlierIsDone(p, j, i);
      } else if j == i {
        UsageIsExact(p, i);
        PlanRuns(p, i);
        BoundaryProgress(p, i, 0);
        LandedBecame(PassTo(p, i).maps, g, PlanShape(p, i), s);
        BecameFrom(p.inp.maps, PassTo(p, i).maps, g, PlanShape(p, i), s);
      } else {
        SortedNets(p, i, j);
        UntouchedThrough(p, i, g);
      }
    } else {
      UntouchedThrough(p, i, g);
      NothingToDo(p.inp, g);
      SameOnBecame(p.inp.maps, g, ShapeFor(p.inp, g), p.inp.maps, s);
    }
  }

  lemma UntouchedThrough(p: Pass, i: nat, g: LbFrontKey)
    requires p.Runs() && i < |p.plans| && forall j :: 0 <= j <= i ==> p.plans[j].front != g
    ensures SameOn(p.inp.maps, Boundary(p, i, |p.plans[i].steps|).maps, g)
  {
    UntouchedBetween(p, 0, i, g);
    BoundaryProgress(p, i, |p.plans[i].steps|);
    SameOnTransitive(p.inp.maps, PassTo(p, i).maps, Boundary(p, i, |p.plans[i].steps|).maps, g);
  }

  lemma EarlierIsDone(p: Pass, j: nat, i: nat)
    requires p.Runs() && p.inp.Valid() && Succeeds(p) && j < i < |p.plans| && !PassTo(p, j + 1).refused
    ensures Done(p.inp, p.plans[j].front, Boundary(p, i, |p.plans[i].steps|).maps)
  {
    var b, c := Boundary(p, i, |p.plans[i].steps|).maps, PassTo(p, i).maps;
    DoneSince(p, j, i, c);
    PlanLeaves(p, i, p.plans[j].front, b);
    SameOnDone(p.inp, p.plans[j].front, c, b);
  }

  lemma DoneSince(p: Pass, j: nat, i: nat, c: Maps)
    requires p.Runs() && p.inp.Valid() && Succeeds(p) && j < i < |p.plans| && !PassTo(p, j + 1).refused
    requires c == PassTo(p, i).maps
    ensures Done(p.inp, p.plans[j].front, c)
  {
    var a := PassTo(p, j + 1).maps;
    OwnPlanIsDone(p, j, a);
    UntouchedAfter(p, j + 1, i, p.plans[j].front, a, c);
    SameOnDone(p.inp, p.plans[j].front, a, c);
  }

  lemma UntouchedAfter(p: Pass, j: nat, i: nat, f: LbFrontKey, a: Maps, c: Maps)
    requires p.Runs() && 0 < j <= i < |p.plans| && f == p.plans[j - 1].front
    requires a == PassTo(p, j).maps && c == PassTo(p, i).maps
    ensures SameOn(a, c, f)
  {
    UntouchedBetween(p, j, i, f);
  }

  lemma OwnPlanIsDone(p: Pass, j: nat, a: Maps)
    requires p.Runs() && p.inp.Valid() && Succeeds(p) && j < |p.plans| && !PassTo(p, j + 1).refused
    requires a == PassTo(p, j + 1).maps
    ensures Done(p.inp, p.plans[j].front, a)
  {
    PlanIsDone(p, j);
  }

  lemma SameOnDone(inp: Input, f: LbFrontKey, a: Maps, b: Maps)
    requires (f in inp.desired ==> inp.desired[f].Valid()) && Done(inp, f, a) && SameOn(a, b, f)
    ensures Done(inp, f, b)
  {
    SameOnBecame(inp.maps, f, ShapeFor(inp, f), a, b);
  }

  lemma PlanLeaves(p: Pass, i: nat, f: LbFrontKey, b: Maps)
    requires p.Runs() && i < |p.plans| && p.plans[i].front != f && b == Boundary(p, i, |p.plans[i].steps|).maps
    ensures SameOn(PassTo(p, i).maps, b, f)
  {
    BoundaryProgress(p, i, |p.plans[i].steps|);
  }

  lemma EndpointsFit(p: Pass, i: nat, fronts: nat, e: nat)
    requires p.Valid() && Succeeds(p) && i < |p.plans| && NoneRefused(p, i) && Sized(p.inp, fronts, e)
    ensures |PassTo(p, i).maps.eps| + Max(0, Net(PlanShape(p, i))) <= 2 * e * fronts
  {
    if Net(PlanShape(p, i)) <= 0 {
      forall j | 0 <= j < i ensures |PassTo(p, j + 1).maps.eps| <= |PassTo(p, j).maps.eps| {
        SortedNets(p, j, i);
        PlanShrinks(p, j);
      }
      OnlyShrunk(p, i);
    } else {
      var s := Boundary(p, i, |p.plans[i].steps|).maps;
      forall g ensures Done(p.inp, g, s) || (SameOn(p.inp.maps, s, g) && Net(ShapeFor(p.inp, g)) > 0) {
        WhereFrontStands(p, i, g);
      }
      AllFits(p.inp, s, fronts, e);
      NetChange(p, i);
    }
  }

  /** Only wanted fronts, and fronts that had a meta, ever have one. */
  lemma {:induction false} MetaStaysRelevant(p: Pass, i: nat)
    requires p.Runs() && i <= |p.plans|
    ensures PassTo(p, i).maps.meta.Keys <= Relevant(p.inp)
  {
    if i > 0 {
      MetaStaysRelevant(p, i - 1);
      PlanMetaRelevant(p, i - 1, |p.plans[i - 1].steps|);
    }
  }

  lemma PlanMetaRelevant(p: Pass, i: nat, k: nat)
    requires p.Runs() && i < |p.plans| && k <= |p.plans[i].steps|
    requires PassTo(p, i).maps.meta.Keys <= Relevant(p.inp)
    ensures Boundary(p, i, k).maps.meta.Keys <= Relevant(p.inp)
  {
    BoundaryProgress(p, i, k);
    forall g | g in Boundary(p, i, k).maps.meta.Keys ensures g in Relevant(p.inp) {
      if g != p.plans[i].front {
        assert SameOn(PassTo(p, i).maps, Boundary(p, i, k).maps, g);
      }
    }
  }

  lemma MetaFits(p: Pass, i: nat)
    requires p.Runs() && i < |p.plans|
    ensures |PassTo(p, i).maps.meta| + (if PlanShape(p, i).commit.Some? && p.Live(i).None? then 1 else 0)
            <= |Relevant(p.inp)|
  {
    MetaStaysRelevant(p, i);
    var f, keys := p.plans[i].front, PassTo(p, i).maps.meta.Keys;
    UntouchedBetween(p, 0, i, f);
    if PlanShape(p, i).commit.Some? && p.Live(i).None? {
      assert f in p.inp.desired && f !in keys;
      SizeWithin(keys + {f}, Relevant(p.inp));
    } else {
      SizeWithin(keys, Relevant(p.inp));
    }
  }

  lemma FitsCaps(p: Pass, i: nat, fronts: nat, e: nat)
    requires p.Valid() && Succeeds(p) && i < |p.plans| && NoneRefused(p, i) && Sized(p.inp, fronts, e)
    requires p.cap == Capacity(fronts, 2 * e * fronts)
    ensures !PassTo(p, i + 1).refused
  {
    var plan := p.plans[i];
    EffectOf(p.inp, plan.front, p.Live(i).Some?);
    assert plan == FrontPlan(plan.front, PlanShape(p, i).Steps(plan.front));
    UsageIsExact(p, i);
    EndpointsFit(p, i, fronts, e);
    MetaFits(p, i);
  }

  /** Sizing: under caps `F` and `2 * F * E`, with pruning on and writes succeeding, no plan is refused. */
  lemma NeverRefused(p: Pass, fronts: nat, e: nat)
    requires p.Valid() && Succeeds(p) && Sized(p.inp, fronts, e)
    requires p.cap == Capacity(fronts, 2 * e * fronts)
    ensures !PassTo(p, |p.plans|).refused
  {
    forall i | 0 <= i < |p.plans| && NoneRefused(p, i) ensures !PassTo(p, i + 1).refused {
      FitsCaps(p, i, fronts, e);
    }
    StepByStep(p, |p.plans|);
  }

  lemma {:induction false} StepByStep(p: Pass, i: nat)
    requires p.Sized() && i <= |p.plans|
    requires forall j :: 0 <= j < |p.plans| && NoneRefused(p, j) ==> !PassTo(p, j + 1).refused
    ensures NoneRefused(p, i)
  {
    if i > 0 {
      StepByStep(p, i - 1);
      assert !PassTo(p, (i - 1) + 1).refused;
    }
  }

  /** A front done by a completed pass still has at most `e` rows in any one generation. */
  lemma GenerationStaysSmall(inp: Input, f: LbFrontKey, g: u32, s: Maps, e: nat)
    requires inp.Valid() && inp.prune && SmallGenerations(inp.maps, e) && Done(inp, f, s)
    requires f in inp.desired ==> |inp.desired[f].endpoints| <= e
    ensures |GenRows(s, f, g)| <= e
  {
    var sh := ShapeFor(inp, f);
    var before := GenRows(inp.maps, f, g);
    assert |before| <= e;
    if g == sh.gen && sh.puts != [] {
      forall x | x in GenRows(s, f, g) ensures x in PutKeys(f, sh, |sh.puts|) {
        if x in inp.maps.eps {
          DoomedIs(inp, f, x);
        }
      }
      SizeWithin(GenRows(s, f, g), PutKeys(f, sh, |sh.puts|));
    } else {
      SizeWithin(GenRows(s, f, g), before);
    }
  }

  /** So the maps are as well sized after the pass as before it, and the next pass is not refused either. */
  lemma SizingRepeats(p: Pass, fronts: nat, e: nat)
    requires p.Valid() && Succeeds(p) && Sized(p.inp, fronts, e)
    requires p.cap == Capacity(fronts, 2 * e * fronts)
    ensures SmallGenerations(Result(p), e) && |Result(p).eps| <= 2 * e * fronts
  {
    NeverRefused(p, fronts, e);
    forall f ensures Done(p.inp, f, Result(p)) {
      PassIsDone(p, f);
    }
    AllFits(p.inp, Result(p), fronts, e);
    forall f, g ensures |GenRows(Result(p), f, g)| <= e {
      GenerationStaysSmall(p.inp, f, g, Result(p), e);
    }
  }

  /** `front_map_max_entries`: the caps for so many fronts of so many endpoints, checked for overflow. */
  function FrontMapMaxEntries(maxFronts: u32, endpointsPerFront: u32): (r: Option<Capacity>)
    ensures r.Some? <==> maxFronts > 0 && endpointsPerFront > 0
                         && 2 * endpointsPerFront * maxFronts < 0x1_0000_0000
    ensures r.Some? ==> r.value == Capacity(maxFronts, 2 * endpointsPerFront * maxFronts)
  {
    if maxFronts == 0 || endpointsPerFront == 0 then None
    else
      var rows := maxFronts * endpointsPerFront;
      assert rows * 2 == 2 * endpointsPerFront * maxFronts;
      assert rows >= 1;
      if rows >= 0x1_0000_0000 then None
      else if rows * 2 >= 0x1_0000_0000 then None
      else Some(Capacity(maxFronts, rows * 2))
  }
}
