/** Passes with their instants: the fronts a pass holds are those the passes before recorded. */
module FrontTimed {
  import opened Types
  import opened FrontPlan
  import opened FrontSafety
  import opened FrontGrace
  import opened FrontResults
  import opened FrontWriter
  import opened SwapGrace
  import opened Steering

  /** A pass and the instant it started, which is also the one it records its swaps with. */
  datatype TimedPass = TimedPass(now: int, pass: Pass) {
    function Swapped(): seq<LbFrontKey>
      requires pass.Sized()
    {
      PassTo(pass, |pass.plans|).swapped
    }
  }

  // ---- a generation that moves is reported ---------------------------------------------------------

  /** If `f`'s generation is not the one it had in `m`, the run has noticed a commit. */
  ghost predicate Noticed(m: Maps, f: LbFrontKey, r: Run) {
    f in m.meta && f in r.maps.meta && r.maps.meta[f].generation != m.meta[f].generation ==> r.committed
  }

  lemma {:induction false} CommitIsNoticed(m: Maps, f: LbFrontKey, sh: Shape, used: Usage, ok: seq<bool>, live: Option<FrontMeta>, k: nat)
    requires sh.Valid() && |ok| == sh.Total() && k <= sh.Total() && live == Lookup(m.meta, f)
    ensures Noticed(m, f, ExecTo(Start(m, used), sh.Steps(f), ok, live, k))
  {
    if k > 0 {
      CommitIsNoticed(m, f, sh, used, ok, live, k - 1);
      StepNotices(m, f, sh, ExecTo(Start(m, used), sh.Steps(f), ok, live, k - 1), ok[k - 1], live, k - 1);
    }
  }

  lemma StepNotices(m: Maps, f: LbFrontKey, sh: Shape, r: Run, ok: bool, live: Option<FrontMeta>, k: nat)
    requires sh.Valid() && k < sh.Total() && live == Lookup(m.meta, f) && Noticed(m, f, r)
    ensures Noticed(m, f, Step(r, sh.StepAt(f, k), ok, live))
  {
  }

  lemma PlanReportsMove(p: Pass, j: nat)
    requires p.Runs() && j < |p.plans|
    requires var f := p.plans[j].front;
             f in p.inp.maps.meta && f in PassTo(p, j + 1).maps.meta &&
             PassTo(p, j + 1).maps.meta[f].generation != p.inp.maps.meta[f].generation
    ensures p.plans[j].front in PassTo(p, j + 1).swapped
  {
    var f, s := p.plans[j].front, PassTo(p, j);
    BoundaryProgress(p, j, 0);
    CommitIsNoticed(s.maps, f, ShapeFor(p.inp, f), s.used, p.oks[j], p.Live(j), |p.plans[j].steps|);
  }

  lemma PlannedMoveIsReported(p: Pass, j: nat, f: LbFrontKey, was: Option<FrontMeta>, end: Option<FrontMeta>)
    requires p.Runs() && j < |p.plans| && p.plans[j].front == f
    requires was == Lookup(p.inp.maps.meta, f) && end == Lookup(Result(p).meta, f)
    requires was.Some? && end.Some? && end.value.generation != was.value.generation
    ensures f in PassTo(p, |p.plans|).swapped
  {
    DoneSince(p, j, |p.plans|, 0);
    PlanReportsMove(p, j);
    SwappedStays(p, j + 1, |p.plans|, f);
  }

  lemma UnplannedStays(p: Pass, f: LbFrontKey)
    requires p.Runs() && !Planned(p.plans, f)
    ensures Lookup(Result(p).meta, f) == Lookup(p.inp.maps.meta, f)
  {
    UntouchedBetween(p, 0, |p.plans|, f);
  }

  /** Whatever fails, a pass that leaves `f` with another generation than it found reports `f` as swapped. */
  lemma MovesAreReported(p: Pass, f: LbFrontKey)
    requires p.Runs() && f in p.inp.maps.meta && f in Result(p).meta
    requires Result(p).meta[f].generation != p.inp.maps.meta[f].generation
    ensures f in PassTo(p, |p.plans|).swapped
  {
    if Planned(p.plans, f) {
      var j :| 0 <= j < |p.plans| && p.plans[j].front == f;
      PlannedMoveIsReported(p, j, f, Lookup(p.inp.maps.meta, f), Lookup(Result(p).meta, f));
    } else {
      UnplannedStays(p, f);
      assert false;
    }
  }

  // ---- runs of timed passes --------------------------------------------------------------------------

  /** Each pass runs on the maps the one before left and holds what was recorded less than the grace ago. */
  ghost predicate TimedRun(s: Maps, at: map<LbFrontKey, int>, h: seq<TimedPass>, grace: nat)
    decreases |h|
  {
    h == [] ||
    (&& h[0].pass.Runs() && h[0].pass.inp.maps == s && h[0].pass.inp.keep == HeldAt(at, h[0].now, grace)
     && TimedRun(Result(h[0].pass), Recorded(at, h[0].Swapped(), h[0].now, grace), h[1..], grace))
  }

  /** The pass finds `f` as wanted, or leaves it alone. */
  predicate Steady(inp: Input, f: LbFrontKey) {
    Retains(inp, f) && (f in inp.desired ==> Unchanged(inp.maps, f, inp.desired[f]))
  }

  ghost predicate AllRun(h: seq<TimedPass>) {
    forall j :: 0 <= j < |h| ==> h[j].pass.Runs()
  }

  lemma {:induction false} TimedPassesRun(s: Maps, at: map<LbFrontKey, int>, h: seq<TimedPass>, grace: nat)
    requires TimedRun(s, at, h, grace)
    ensures AllRun(h)
    decreases |h|
  {
    if h != [] {
      TimedPassesRun(Result(h[0].pass), Recorded(at, h[0].Swapped(), h[0].now, grace), h[1..], grace);
      forall j | 0 <= j < |h| ensures h[j].pass.Runs() {
        assert j > 0 ==> h[j] == h[1..][j - 1];
      }
    }
  }

  /**
   * Time does not run backwards, no pass deletes `f`, and after a pass that swaps `f` the others
   * want nothing new of it and start within the grace of that pass's start.
   */
  ghost predicate OneSwapAtMost(h: seq<TimedPass>, f: LbFrontKey, grace: nat) {
    && (forall j :: 0 <= j < |h| ==> Retains(h[j].pass.inp, f))
    && (forall c, j :: 0 <= c < j < |h| ==> Apart(h[c], h[j], f, grace))
  }

  /** Of two passes, `b` comes after `a`, and if `a` swapped `f` then within the grace and without another swap. */
  ghost predicate Apart(a: TimedPass, b: TimedPass, f: LbFrontKey, grace: nat) {
    a.now <= b.now && (a.pass.Runs() && f in a.Swapped() ==> Steady(b.pass.inp, f) && b.now < a.now + grace)
  }

  /** The passes still to come hold `f`, recorded at `t`. */
  ghost predicate HeldThroughout(h: seq<TimedPass>, f: LbFrontKey, t: int, grace: nat) {
    forall j :: 0 <= j < |h| ==> t <= h[j].now < t + grace && Steady(h[j].pass.inp, f)
  }

  /** Once the generation has moved past the reader's, `f` is recorded and the passes to come hold it. */
  ghost predicate Covers(s: Maps, at: map<LbFrontKey, int>, h: seq<TimedPass>, f: LbFrontKey, v: FrontMeta, grace: nat) {
    f in s.meta && v.generation != s.meta[f].generation ==> f in at && HeldThroughout(h, f, at[f], grace)
  }

  /** The step of the induction: what a pass leaves is covered for the passes after it. */
  lemma CoversNext(s: Maps, at: map<LbFrontKey, int>, h: seq<TimedPass>, f: LbFrontKey, v: FrontMeta, grace: nat)
    requires h != [] && AllRun(h) && h[0].pass.inp.maps == s && OneSwapAtMost(h, f, grace) && f in s.meta
    requires Covers(s, at, h, f, v, grace)
    ensures Covers(Result(h[0].pass), Recorded(at, h[0].Swapped(), h[0].now, grace), h[1..], f, v, grace)
  {
    var s', at' := Result(h[0].pass), Recorded(at, h[0].Swapped(), h[0].now, grace);
    if f in s'.meta && v.generation != s'.meta[f].generation {
      if v.generation == s.meta[f].generation {
        MovesAreReported(h[0].pass, f);
        HeldAfterSwap(h, f, grace);
      } else {
        HeldAfterRecord(at, h, f, grace);
      }
    }
  }

  lemma HeldAfterSwap(h: seq<TimedPass>, f: LbFrontKey, grace: nat)
    requires h != [] && AllRun(h) && OneSwapAtMost(h, f, grace) && f in h[0].Swapped()
    ensures HeldThroughout(h[1..], f, h[0].now, grace)
  {
    forall j | 0 <= j < |h[1..]|
      ensures h[0].now <= h[1..][j].now < h[0].now + grace && Steady(h[1..][j].pass.inp, f)
    {
      var x := j + 1;
      assert h[1..][j] == h[x] && Apart(h[0], h[x], f, grace);
    }
  }

  lemma HeldAfterRecord(at: map<LbFrontKey, int>, h: seq<TimedPass>, f: LbFrontKey, grace: nat)
    requires h != [] && AllRun(h) && OneSwapAtMost(h, f, grace) && f in at && HeldThroughout(h, f, at[f], grace)
    ensures var at' := Recorded(at, h[0].Swapped(), h[0].now, grace); f in at' && HeldThroughout(h[1..], f, at'[f], grace)
  {
    var at' := Recorded(at, h[0].Swapped(), h[0].now, grace);
    assert Within(at[f], h[0].now, grace) && f in at';
    forall j | 0 <= j < |h[1..]|
      ensures at'[f] <= h[1..][j].now < at'[f] + grace && Steady(h[1..][j].pass.inp, f)
    {
      var x := j + 1;
      assert h[1..][j] == h[x] && Apart(h[0], h[x], f, grace);
    }
  }

  /** A pass does not take away what a reader covered by the record holds. */
  lemma CoveredPassKeeps(s: Maps, at: map<LbFrontKey, int>, h: seq<TimedPass>, f: LbFrontKey, v: FrontMeta, rows: seq<FrontEndpoint>,
                         grace: nat, i: nat, k: nat)
    requires h != [] && TimedRun(s, at, h, grace) && AllRun(h) && OneSwapAtMost(h, f, grace)
    requires InHand(s, f, v, rows) && Covers(s, at, h, f, v, grace)
    requires i <= |h[0].pass.plans| && (i < |h[0].pass.plans| ==> k <= |h[0].pass.plans[i].steps|)
    ensures InHand(StateAt(h[0].pass, i, k), f, v, rows)
  {
    if v.generation != s.meta[f].generation {
      assert Steady(h[0].pass.inp, f) && Within(at[f], h[0].now, grace);
    }
    PassKeeps(h[0].pass, i, k, f, v, rows);
  }

  lemma {:induction false} HeldAcross(s: Maps, at: map<LbFrontKey, int>, h: seq<TimedPass>, f: LbFrontKey, v: FrontMeta,
                                      rows: seq<FrontEndpoint>, grace: nat, i: nat, k: nat)
    requires h != [] && TimedRun(s, at, h, grace) && AllRun(h) && OneSwapAtMost(h, f, grace)
    requires InHand(s, f, v, rows) && Covers(s, at, h, f, v, grace)
    requires var last := h[|h| - 1].pass; i <= |last.plans| && (i < |last.plans| ==> k <= |last.plans[i].steps|)
    ensures Shows(StateAt(h[|h| - 1].pass, i, k), f, v, rows)
    decreases |h|
  {
    if |h| == 1 {
      CoveredPassKeeps(s, at, h, f, v, rows, grace, i, k);
    } else {
      CoveredPassKeeps(s, at, h, f, v, rows, grace, |h[0].pass.plans|, 0);
      CoversNext(s, at, h, f, v, grace);
      TailOneSwap(h, f, grace);
      HeldAcross(Result(h[0].pass), Recorded(at, h[0].Swapped(), h[0].now, grace), h[1..], f, v, rows, grace, i, k);
    }
  }

  lemma TailOneSwap(h: seq<TimedPass>, f: LbFrontKey, grace: nat)
    requires h != [] && AllRun(h) && OneSwapAtMost(h, f, grace)
    ensures AllRun(h[1..]) && OneSwapAtMost(h[1..], f, grace)
  {
    var t := h[1..];
    forall j | 0 <= j < |t| ensures t[j].pass.Runs() && Retains(t[j].pass.inp, f) {
      var x := j + 1;
      assert t[j] == h[x];
    }
    forall c, j | 0 <= c < j < |t| ensures Apart(t[c], t[j], f, grace) {
      var x, y := c + 1, j + 1;
      assert t[c] == h[x] && t[j] == h[y];
      assert Apart(h[x], h[y], f, grace);
    }
  }

  /** What a reader loads at a boundary of the first pass is covered for the passes after it. */
  lemma FirstLookupIsCovered(at: map<LbFrontKey, int>, h: seq<TimedPass>, f: LbFrontKey, grace: nat, i: nat, k: nat)
    requires h != [] && AllRun(h) && OneSwapAtMost(h, f, grace)
    requires i <= |h[0].pass.plans| && (i < |h[0].pass.plans| ==> k <= |h[0].pass.plans[i].steps|)
    requires WellFormed(h[0].pass.inp.maps) && f in StateAt(h[0].pass, i, k).meta
    ensures Covers(Result(h[0].pass), Recorded(at, h[0].Swapped(), h[0].now, grace), h[1..], f, StateAt(h[0].pass, i, k).meta[f], grace)
  {
    var p := h[0].pass;
    var v, n := StateAt(p, i, k).meta[f], |p.plans|;
    if f in Result(p).meta && v.generation != Result(p).meta[f].generation {
      if !SameMeta(p.inp.maps, StateAt(p, i, k), f) {
        if i < n {
          CommittedIsDone(p, i, k, n, 0, f);
        }
        assert false;
      }
      MovesAreReported(p, f);
      HeldAfterSwap(h, f, grace);
    }
  }

  /**
   * Two lookups within the grace: a reader that loads `f`'s meta at any boundary of one pass finds at
   * any boundary of a later one every row the front served then, unchanged, as long as no pass
   * deletes the front, at most one swaps it or wants to, and after that swap passes start less than
   * `grace` after the start of the pass that made it.
   */
  lemma TwoLookupsWithinGrace(s: Maps, at: map<LbFrontKey, int>, h: seq<TimedPass>, f: LbFrontKey, grace: nat,
                              i: nat, k: nat, i2: nat, k2: nat)
    requires |h| > 1 && WellFormed(s) && TimedRun(s, at, h, grace) && OneSwapAtMost(h, f, grace)
    requires i <= |h[0].pass.plans| && (i < |h[0].pass.plans| ==> k <= |h[0].pass.plans[i].steps|)
    requires var last := h[|h| - 1].pass; i2 <= |last.plans| && (i2 < |last.plans| ==> k2 <= |last.plans[i2].steps|)
    requires f in StateAt(h[0].pass, i, k).meta
    ensures AllRun(h) && FrontOk(StateAt(h[0].pass, i, k), f)
    ensures Shows(StateAt(h[|h| - 1].pass, i2, k2), f, StateAt(h[0].pass, i, k).meta[f], Serving(StateAt(h[0].pass, i, k), f))
  {
    var p := h[0].pass;
    TimedPassesRun(s, at, h, grace);
    TwoLookupsInOnePass(p, i, k, |p.plans|, if i == |p.plans| then k else 0, f);
    FirstLookupIsCovered(at, h, f, grace, i, k);
    TailOneSwap(h, f, grace);
    HeldAcross(Result(p), Recorded(at, h[0].Swapped(), h[0].now, grace), h[1..], f, StateAt(p, i, k).meta[f],
               Serving(StateAt(p, i, k), f), grace, i2, k2);
  }

  /** So a new flow whose lookups are that far apart still reaches an endpoint the front served, local where that is preferred. */
  lemma SplitSteerWithinGrace(s: Maps, at: map<LbFrontKey, int>, h: seq<TimedPass>, f: LbFrontKey, grace: nat,
                              i: nat, k: nat, i2: nat, k2: nat, hash: u32)
    requires |h| > 1 && WellFormed(s) && TimedRun(s, at, h, grace) && OneSwapAtMost(h, f, grace)
    requires i <= |h[0].pass.plans| && (i < |h[0].pass.plans| ==> k <= |h[0].pass.plans[i].steps|)
    requires var last := h[|h| - 1].pass; i2 <= |last.plans| && (i2 < |last.plans| ==> k2 <= |last.plans[i2].steps|)
    requires f in StateAt(h[0].pass, i, k).meta && StateAt(h[0].pass, i, k).meta[f].count > 0
    ensures AllRun(h) && FrontOk(StateAt(h[0].pass, i, k), f)
    ensures var v, served := StateAt(h[0].pass, i, k).meta[f], Serving(StateAt(h[0].pass, i, k), f);
            exists x :: 0 <= x < |served|
                        && SendsTo(Steer(v, None, None, hash, f, StateAt(h[|h| - 1].pass, i2, k2).eps), served[x])
                        && (v.localCount > 0 ==> IsLocal(served[x]))
  {
    TwoLookupsWithinGrace(s, at, h, f, grace, i, k, i2, k2);
    var m := StateAt(h[0].pass, i, k);
    ServingIsLocal(m, f);
    SplitLookupsForward(StateAt(h[|h| - 1].pass, i2, k2), f, m.meta[f], Serving(m, f), hash);
  }

  // ---- the pass as it runs ---------------------------------------------------------------------------

  /** The plans for what was read, with what the kernel would answer to step `k` of plan `i`. */
  method PlanPass(inp: Input, cap: Capacity, ok: (nat, nat) -> bool) returns (p: Pass)
    requires inp.Valid()
    ensures p.Valid() && p.inp == inp
  {
    var plans := PlanFrontWrites(inp);
    var oks := seq(|plans|, i requires 0 <= i < |plans| => seq(|plans[i].steps|, (k: nat) => ok(i, k)));
    p := Pass(inp, plans, oks, cap);
  }

  lemma OneTimedPass(at: map<LbFrontKey, int>, now: int, p: Pass, grace: nat)
    requires p.Runs() && p.inp.keep == HeldAt(at, now, grace)
    ensures TimedRun(p.inp.maps, at, [TimedPass(now, p)], grace)
  {
    assert [TimedPass(now, p)][1..] == [];
  }

  /** The front maps and the record of recent swaps, as one controller keeps them. */
  class FrontMaps {
    const tables: FrontTables
    const swaps: RecentSwaps

    constructor (m: Maps)
      ensures fresh(tables) && fresh(swaps) && tables.Contents() == m && swaps.at == map[]
    {
      tables := new FrontTables(m);
      swaps := new RecentSwaps();
    }

    /** `apply_front_maps`; `ok` is whether the kernel accepts step `k` of plan `i`. */
    method ApplyFrontMaps(now: int, grace: nat, order: seq<FrontEndpointKey>, desired: map<LbFrontKey, DesiredFront>, prune: bool,
                          cap: Capacity, ok: (nat, nat) -> bool)
      returns (p: Pass, failures: seq<(LbFrontKey, Failure)>)
      requires Input(tables.Contents(), order, desired, prune, {}).Valid()
      modifies tables, swaps
      ensures p.Valid() && p.inp == Input(old(tables.Contents()), order, desired, prune, HeldAt(old(swaps.at), now, grace))
      ensures tables.Contents() == Result(p)
      ensures TimedRun(old(tables.Contents()), old(swaps.at), [TimedPass(now, p)], grace)
      ensures swaps.at == Recorded(old(swaps.at), TimedPass(now, p).Swapped(), now, grace)
      ensures failures == FailuresTo(p, |p.plans|)
    {
      var held := swaps.Held(now, grace);
      var inp := Input(tables.Contents(), order, desired, prune, held);
      p := PlanPass(inp, cap, ok);
      OneTimedPass(swaps.at, now, p, grace);
      var swapped;
      swapped, failures := tables.RunFrontPlans(p);
      swaps.Record(swapped, now, grace);
    }
  }
}
