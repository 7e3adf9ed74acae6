/** What a reader can see at every step boundary of the generation swap. */
module FrontSafety {
  import opened Types
  import opened FrontPlan
  import opened Steering

  ghost predicate SameRow(a: Maps, b: Maps, k: FrontEndpointKey) {
    (k in a.eps <==> k in b.eps) && (k in a.eps ==> a.eps[k] == b.eps[k])
  }

  ghost predicate SameMeta(a: Maps, b: Maps, f: LbFrontKey) {
    (f in a.meta <==> f in b.meta) && (f in a.meta ==> a.meta[f] == b.meta[f])
  }

  /** The two map pairs agree on everything that belongs to `f`. */
  ghost predicate SameOn(a: Maps, b: Maps, f: LbFrontKey) {
    SameMeta(a, b, f) && forall k: FrontEndpointKey :: k.front == f ==> SameRow(a, b, k)
  }

  ghost predicate SameElsewhere(a: Maps, b: Maps, f: LbFrontKey) {
    forall g :: g != f ==> SameOn(a, b, g)
  }

  lemma SameOnTransitive(a: Maps, b: Maps, c: Maps, f: LbFrontKey)
    requires SameOn(a, b, f) && SameOn(b, c, f)
    ensures SameOn(a, c, f)
  {
  }

  lemma SameOnJoin(a: Maps, b: Maps, c: Maps, f: LbFrontKey)
    requires SameOn(a, b, f) && SameOn(a, c, f)
    ensures SameOn(b, c, f)
  {
  }

  /** `f`'s meta, if any, points at rows that are all there, the local prefix flagged local. */
  ghost predicate FrontOk(m: Maps, f: LbFrontKey) {
    f in m.meta ==>
      var v := m.meta[f];
      && v.localCount <= v.count
      && forall i :: 0 <= i < v.count ==>
           && EndpointKey(f, v.generation, i) in m.eps
           && (i < v.localCount ==> IsLocal(m.eps[EndpointKey(f, v.generation, i)]))
  }

  ghost predicate WellFormed(m: Maps) {
    forall f :: FrontOk(m, f)
  }

  /** What every shape `ShapeFor` yields has in common. */
  ghost predicate GoodShape(m: Maps, f: LbFrontKey, sh: Shape) {
    && sh.Valid()
    && (forall k :: k in sh.doomed ==> k.front == f)
    && (sh.dropMeta ==> sh.puts == [] && sh.commit.None?)
    && (!sh.dropMeta && f in m.meta ==> forall k :: k in sh.doomed ==> k.generation != m.meta[f].generation)
    && (sh.commit.None? ==> sh.puts == [])
    && (sh.commit.Some? ==> Refresh(m, f, sh) || Swap(m, f, sh))
  }

  /** The commit only rewrites the flags of the live meta. */
  ghost predicate Refresh(m: Maps, f: LbFrontKey, sh: Shape) {
    && sh.commit.Some? && sh.puts == [] && f in m.meta
    && sh.commit.value == m.meta[f].(flags := sh.commit.value.flags)
  }

  /** The commit switches to a generation the plan has just written in full. */
  ghost predicate Swap(m: Maps, f: LbFrontKey, sh: Shape) {
    && sh.commit.Some?
    && (f in m.meta ==> sh.gen != m.meta[f].generation)
    && var c := sh.commit.value;
       && c.generation == sh.gen && c.count == |sh.puts| && c.localCount <= c.count
       && forall i :: 0 <= i < c.localCount ==> IsLocal(sh.puts[i])
  }

  lemma ShapeIsGood(inp: Input, f: LbFrontKey)
    requires f in inp.desired ==> inp.desired[f].Valid()
    ensures GoodShape(inp.maps, f, ShapeFor(inp, f))
  {
  }

  ghost predicate IsPut(f: LbFrontKey, sh: Shape, k: FrontEndpointKey) {
    k.front == f && k.generation == sh.gen && k.pad == 0 && k.slot < |sh.puts|
  }

  /** Where a plan stands after `k` of its steps, whichever writes failed. */
  ghost predicate Progress(m: Maps, f: LbFrontKey, sh: Shape, r: Run, k: nat) {
    && sh.Valid()
    && (r.halted ==> sh.dropMeta)
    && SameElsewhere(m, r.maps, f)
    && (forall x: FrontEndpointKey :: x.front == f && x !in sh.doomed && !IsPut(f, sh, x) ==> SameRow(m, r.maps, x))
    && (!r.blocked ==> forall j :: 0 <= j < |sh.puts| && j < k - sh.D() ==>
          Lookup(r.maps.eps, EndpointKey(f, sh.gen, j)) == Some(sh.puts[j]))
    && (sh.dropMeta && k > 0 ==>
          if r.halted then r.maps == m else f !in r.maps.meta)
    && (!sh.dropMeta ==>
          || SameMeta(m, r.maps, f)
          || (k == sh.Total() && !r.blocked && sh.commit.Some? && Lookup(r.maps.meta, f) == sh.commit))
    && (k == 0 ==> r.maps == m)
  }

  lemma StepProgress(m: Maps, f: LbFrontKey, sh: Shape, r: Run, ok: bool, live: Option<FrontMeta>, k: nat)
    requires GoodShape(m, f, sh) && k < sh.Total()
    requires sh.dropMeta ==> f in m.meta
    requires Progress(m, f, sh, r, k)
    ensures Progress(m, f, sh, Step(r, sh.StepAt(f, k), ok, live), k + 1)
  {
    var w := sh.StepAt(f, k);
    var r' := Step(r, w, ok, live);
    if r'.maps != r.maps {
      assert r'.maps == Write(r.maps, w);
      forall g | g != f ensures SameOn(m, r'.maps, g) {
        assert SameOn(m, r.maps, g);
      }
    }
  }

  /** The induction over the steps of one plan. */
  lemma {:induction false} PlanProgress(m: Maps, f: LbFrontKey, sh: Shape, used: Usage, ok: seq<bool>,
                                        live: Option<FrontMeta>, k: nat)
    requires GoodShape(m, f, sh) && |ok| == sh.Total() && k <= sh.Total()
    requires sh.dropMeta ==> f in m.meta
    ensures Progress(m, f, sh, ExecTo(Start(m, used), sh.Steps(f), ok, live, k), k)
  {
    if k > 0 {
      PlanProgress(m, f, sh, used, ok, live, k - 1);
      StepProgress(m, f, sh, ExecTo(Start(m, used), sh.Steps(f), ok, live, k - 1), ok[k - 1], live, k - 1);
    }
  }

  /** No step of any plan, done or failed, breaks a front. */
  lemma ProgressIsSafe(m: Maps, f: LbFrontKey, sh: Shape, r: Run, k: nat)
    requires GoodShape(m, f, sh) && Progress(m, f, sh, r, k) && WellFormed(m)
    ensures WellFormed(r.maps)
  {
    forall g ensures FrontOk(r.maps, g) {
      assert FrontOk(m, g);
      assert g != f ==> SameOn(m, r.maps, g);
    }
  }

  // ---- a whole pass ---------------------------------------------------------------------------

  lemma {:induction false} SameOnChain(p: Pass, j: nat, i: nat, f: LbFrontKey)
    requires p.Sized() && j <= i <= |p.plans|
    requires forall x :: j <= x < i ==> SameOn(PassTo(p, x).maps, PassTo(p, x + 1).maps, f)
    ensures SameOn(PassTo(p, j).maps, PassTo(p, i).maps, f)
    decreases i
  {
    if j < i {
      SameOnChain(p, j, i - 1, f);
      assert SameOn(PassTo(p, i - 1).maps, PassTo(p, (i - 1) + 1).maps, f);
      SameOnTransitive(PassTo(p, j).maps, PassTo(p, i - 1).maps, PassTo(p, i).maps, f);
    }
  }

  /** A front is only touched by its own plan. */
  lemma UntouchedBetween(p: Pass, j: nat, i: nat, f: LbFrontKey)
    requires p.Runs() && j <= i <= |p.plans|
    requires forall x :: j <= x < i ==> p.plans[x].front != f
    ensures SameOn(PassTo(p, j).maps, PassTo(p, i).maps, f)
    decreases i, 0
  {
    forall x | j <= x < i ensures SameOn(PassTo(p, x).maps, PassTo(p, x + 1).maps, f) {
      PlanLeavesOthers(p, x, f);
    }
    SameOnChain(p, j, i, f);
  }

  lemma PlanLeavesOthers(p: Pass, i: nat, f: LbFrontKey)
    requires p.Runs() && i < |p.plans| && p.plans[i].front != f
    ensures SameOn(PassTo(p, i).maps, PassTo(p, i + 1).maps, f)
    decreases i, 2
  {
    BoundaryProgress(p, i, |p.plans[i].steps|);
  }

  /** Every boundary inside plan `i` of a pass is a progress state of that plan. */
  lemma {:induction false} BoundaryProgress(p: Pass, i: nat, k: nat)
    requires p.Runs() && i < |p.plans| && k <= |p.plans[i].steps|
    ensures var f := p.plans[i].front;
            && GoodShape(PassTo(p, i).maps, f, ShapeFor(p.inp, f))
            && Progress(PassTo(p, i).maps, f, ShapeFor(p.inp, f), Boundary(p, i, k), k)
            && SameOn(p.inp.maps, PassTo(p, i).maps, f)
    decreases i, 1
  {
    var f, s := p.plans[i].front, PassTo(p, i);
    UntouchedBetween(p, 0, i, f);
    ShapeIsGood(p.inp, f);
    PlanProgress(s.maps, f, ShapeFor(p.inp, f), s.used, p.oks[i], p.Live(i), k);
  }

  /** Every state a crash or a reader can meet during the pass: `i` plans done, `k` steps of the next. */
  function StateAt(p: Pass, i: nat, k: nat): Maps
    requires p.Sized() && i <= |p.plans| && (i < |p.plans| ==> k <= |p.plans[i].steps|)
  {
    if i == |p.plans| || Shortfall(p.plans[i], p.Live(i).Some?, PassTo(p, i).used, p.cap) then PassTo(p, i).maps
    else Boundary(p, i, k).maps
  }

  lemma PlanIsSafe(p: Pass, i: nat, k: nat)
    requires p.Runs() && i < |p.plans| && k <= |p.plans[i].steps| && WellFormed(PassTo(p, i).maps)
    ensures WellFormed(Boundary(p, i, k).maps)
  {
    BoundaryProgress(p, i, k);
    ProgressIsSafe(PassTo(p, i).maps, p.plans[i].front, ShapeFor(p.inp, p.plans[i].front), Boundary(p, i, k), k);
  }

  lemma {:induction false} PassIsSafe(p: Pass, i: nat)
    requires p.Runs() && i <= |p.plans| && WellFormed(p.inp.maps)
    ensures WellFormed(PassTo(p, i).maps)
  {
    if i > 0 {
      PassIsSafe(p, i - 1);
      PlanIsSafe(p, i - 1, |p.plans[i - 1].steps|);
    }
  }

  // ---- every sequence of passes ---------------------------------------------------------------

  /** A pass that stopped at some boundary: it finished, or the process died there. */
  datatype Event = Event(pass: Pass, i: nat, k: nat) {
    predicate InBounds() {
      pass.Runs() && i <= |pass.plans| && (i < |pass.plans| ==> k <= |pass.plans[i].steps|)
    }

    function After(): Maps
      requires InBounds()
    {
      StateAt(pass, i, k)
    }
  }

  /** Each pass reads the maps the one before it left. */
  ghost predicate History(s: Maps, h: seq<Event>)
    decreases |h|
  {
    h == [] || (h[0].InBounds() && h[0].pass.inp.maps == s && History(h[0].After(), h[1..]))
  }

  ghost function Final(s: Maps, h: seq<Event>): Maps
    requires History(s, h)
    decreases |h|
  {
    if h == [] then s else Final(h[0].After(), h[1..])
  }

  lemma EventIsSafe(e: Event)
    requires e.InBounds() && WellFormed(e.pass.inp.maps)
    ensures WellFormed(e.After())
  {
    PassIsSafe(e.pass, e.i);
    if e.i < |e.pass.plans| {
      PlanIsSafe(e.pass, e.i, e.k);
    }
  }

  /** Reader safety: at every boundary of every sequence of passes, whichever writes fail. */
  lemma {:induction false} ReaderSafety(s: Maps, h: seq<Event>)
    requires WellFormed(s) && History(s, h)
    ensures WellFormed(Final(s, h))
    decreases |h|
  {
    if h != [] {
      EventIsSafe(h[0]);
      ReaderSafety(h[0].After(), h[1..]);
    }
  }

  // ---- old set or new set ---------------------------------------------------------------------

  /** The endpoints a reader of `m` can be sent to on `f`, in slot order. */
  ghost predicate Serves(m: Maps, f: LbFrontKey, eps: seq<FrontEndpoint>) {
    && f in m.meta && m.meta[f].count == |eps|
    && forall i :: 0 <= i < |eps| ==> Lookup(m.eps, EndpointKey(f, m.meta[f].generation, i)) == Some(eps[i])
  }

  ghost function Serving(m: Maps, f: LbFrontKey): (eps: seq<FrontEndpoint>)
    requires FrontOk(m, f) && f in m.meta
    ensures Serves(m, f, eps)
  {
    var v := m.meta[f];
    seq(v.count, i requires 0 <= i < v.count => m.eps[EndpointKey(f, v.generation, i)])
  }

  /** `f` serves what it served before the pass, or what the pass wants, or the pass removes it. */
  ghost predicate OldOrNew(inp: Input, f: LbFrontKey, s: Maps)
    requires FrontOk(inp.maps, f)
  {
    if f in s.meta then
      || (f in inp.maps.meta && Serves(s, f, Serving(inp.maps, f)))
      || (f in inp.desired && Serves(s, f, inp.desired[f].endpoints))
    else f !in inp.maps.meta || (f !in inp.desired && inp.prune)
  }

  lemma ProgressOldOrNew(inp: Input, m: Maps, f: LbFrontKey, r: Run, k: nat)
    requires f in inp.desired ==> inp.desired[f].Valid()
    requires FrontOk(inp.maps, f) && SameOn(inp.maps, m, f)
    requires GoodShape(m, f, ShapeFor(inp, f)) && Progress(m, f, ShapeFor(inp, f), r, k)
    ensures OldOrNew(inp, f, r.maps)
  {
    var sh := ShapeFor(inp, f);
    if f in inp.maps.meta {
      var v := inp.maps.meta[f];
      forall i | 0 <= i < v.count && !sh.dropMeta
        ensures Lookup(r.maps.eps, EndpointKey(f, v.generation, i)) == Some(Serving(inp.maps, f)[i])
      {
        var x := EndpointKey(f, v.generation, i);
        assert x !in sh.doomed && !IsPut(f, sh, x);
        assert SameRow(m, r.maps, x) && SameRow(inp.maps, m, x);
      }
    }
  }

  lemma SameOnOldOrNew(inp: Input, f: LbFrontKey, a: Maps, b: Maps)
    requires FrontOk(inp.maps, f) && SameOn(a, b, f) && OldOrNew(inp, f, a)
    ensures OldOrNew(inp, f, b)
  {
    forall g: u32, i: u16 ensures SameRow(a, b, EndpointKey(f, g, i)) {
    }
  }

  lemma PlanOldOrNew(p: Pass, i: nat, k: nat, f: LbFrontKey)
    requires p.Runs() && i < |p.plans| && k <= |p.plans[i].steps|
    requires f in p.inp.desired ==> p.inp.desired[f].Valid()
    requires FrontOk(p.inp.maps, f) && OldOrNew(p.inp, f, PassTo(p, i).maps)
    ensures OldOrNew(p.inp, f, Boundary(p, i, k).maps)
  {
    BoundaryProgress(p, i, k);
    if p.plans[i].front == f {
      ProgressOldOrNew(p.inp, PassTo(p, i).maps, f, Boundary(p, i, k), k);
    } else {
      SameOnOldOrNew(p.inp, f, PassTo(p, i).maps, Boundary(p, i, k).maps);
    }
  }

  lemma {:induction false} PassOldOrNew(p: Pass, i: nat, f: LbFrontKey)
    requires p.Runs() && i <= |p.plans| && FrontOk(p.inp.maps, f)
    requires f in p.inp.desired ==> p.inp.desired[f].Valid()
    ensures OldOrNew(p.inp, f, PassTo(p, i).maps)
  {
    if i > 0 {
      PassOldOrNew(p, i - 1, f);
      NextOldOrNew(p, i - 1, f);
    } else {
      assert PassTo(p, 0).maps == p.inp.maps;
    }
  }

  lemma NextOldOrNew(p: Pass, i: nat, f: LbFrontKey)
    requires p.Runs() && i < |p.plans| && FrontOk(p.inp.maps, f) && OldOrNew(p.inp, f, PassTo(p, i).maps)
    requires f in p.inp.desired ==> p.inp.desired[f].Valid()
    ensures OldOrNew(p.inp, f, PassTo(p, i + 1).maps)
  {
    PlanOldOrNew(p, i, |p.plans[i].steps|, f);
    assert PassTo(p, i + 1).maps == PassTo(p, i).maps
        || PassTo(p, i + 1).maps == Boundary(p, i, |p.plans[i].steps|).maps;
  }

  /** The pass switches each front at once: no boundary shows a mix of two endpoint sets. */
  lemma AtomicSwitch(p: Pass, i: nat, k: nat, f: LbFrontKey)
    requires p.Runs() && i <= |p.plans| && (i < |p.plans| ==> k <= |p.plans[i].steps|)
    requires f in p.inp.desired ==> p.inp.desired[f].Valid()
    requires FrontOk(p.inp.maps, f)
    ensures OldOrNew(p.inp, f, StateAt(p, i, k))
  {
    PassOldOrNew(p, i, f);
    if i < |p.plans| {
      PlanOldOrNew(p, i, k, f);
    }
  }

  /** A new flow is never dropped by a front with endpoints, and local pods win where any is preferred. */
  lemma NewFlowIsForwarded(m: Maps, f: LbFrontKey, hash: u32)
    requires FrontOk(m, f) && f in m.meta && m.meta[f].count > 0
    ensures exists i :: 0 <= i < m.meta[f].count
                        && SendsTo(Steer(m.meta[f], None, None, hash, f, m.eps), Serving(m, f)[i])
                        && (m.meta[f].localCount > 0 ==> IsLocal(Serving(m, f)[i]))
  {
    var v := m.meta[f];
    var slot := SelectEndpointSlot(hash, v.count, v.localCount).value;
    assert Serving(m, f)[slot] == m.eps[EndpointKey(f, v.generation, slot)];
  }

  /** Endpoint `s` of the preferred ones gets the new flows of its share of the hashes, and no others if it is listed once. */
  lemma EachEndpointHasItsShare(m: Maps, f: LbFrontKey, s: nat)
    requires FrontOk(m, f) && f in m.meta && s < Range(m.meta[f].count, m.meta[f].localCount)
    ensures var n := Range(m.meta[f].count, m.meta[f].localCount);
            && (forall hash: u32 :: InShare(hash, s, n) ==> SendsTo(Steer(m.meta[f], None, None, hash, f, m.eps), Serving(m, f)[s]))
            && (ListedOnce(m, f, s) ==>
                  forall hash: u32 :: SendsTo(Steer(m.meta[f], None, None, hash, f, m.eps), Serving(m, f)[s]) ==> InShare(hash, s, n))
            && var size := FirstHash(s + 1, n) - FirstHash(s, n);
               size == TWO32 / n || (size == TWO32 / n + 1 && TWO32 % n != 0)
  {
    var v, n := m.meta[f], Range(m.meta[f].count, m.meta[f].localCount);
    SelectsByShare(v.count, v.localCount, s);
    forall hash: u32 | InShare(hash, s, n) ensures SendsTo(Steer(v, None, None, hash, f, m.eps), Serving(m, f)[s]) {
      assert SelectEndpointSlot(hash, v.count, v.localCount) == Some(s);
    }
    forall hash: u32 | ListedOnce(m, f, s) && SendsTo(Steer(v, None, None, hash, f, m.eps), Serving(m, f)[s])
      ensures InShare(hash, s, n)
    {
      var slot := SelectEndpointSlot(hash, v.count, v.localCount).value;
      assert SendsTo(Steer(v, None, None, hash, f, m.eps), Serving(m, f)[slot]);
    }
  }

  /** No other slot of `f` has the backend and port of slot `s`. */
  ghost predicate ListedOnce(m: Maps, f: LbFrontKey, s: nat)
    requires FrontOk(m, f) && f in m.meta && s < m.meta[f].count
  {
    forall j :: 0 <= j < m.meta[f].count && j != s ==>
      Serving(m, f)[j].backend != Serving(m, f)[s].backend || Serving(m, f)[j].targetPort != Serving(m, f)[s].targetPort
  }

  /** Reader safety, end to end: at any boundary the flow reaches the old or the wanted set. */
  lemma SteersToOldOrNew(p: Pass, i: nat, k: nat, f: LbFrontKey, hash: u32)
    requires p.Runs() && i <= |p.plans| && (i < |p.plans| ==> k <= |p.plans[i].steps|)
    requires f in p.inp.desired ==> p.inp.desired[f].Valid()
    requires WellFormed(p.inp.maps)
    requires f in StateAt(p, i, k).meta && StateAt(p, i, k).meta[f].count > 0
    ensures var s := StateAt(p, i, k);
            exists ep :: SendsTo(Steer(s.meta[f], None, None, hash, f, s.eps), ep)
                         && ((f in p.inp.maps.meta && FrontOk(p.inp.maps, f) && ep in Serving(p.inp.maps, f))
                             || (f in p.inp.desired && ep in p.inp.desired[f].endpoints))
  {
    var s := StateAt(p, i, k);
    EventIsSafe(Event(p, i, k));
    assert FrontOk(s, f) && FrontOk(p.inp.maps, f);
    AtomicSwitch(p, i, k, f);
    NewFlowIsForwarded(s, f, hash);
    var x :| 0 <= x < s.meta[f].count && SendsTo(Steer(s.meta[f], None, None, hash, f, s.eps), Serving(s, f)[x]);
    ServesUnique(s, f, x);
  }

  lemma ServesUnique(s: Maps, f: LbFrontKey, x: nat)
    requires FrontOk(s, f) && f in s.meta && x < s.meta[f].count
    ensures forall eps :: Serves(s, f, eps) ==> Serving(s, f)[x] in eps
  {
    var key := EndpointKey(f, s.meta[f].generation, x);
    forall eps | Serves(s, f, eps) ensures Serving(s, f)[x] in eps {
      assert Lookup(s.eps, key) == Some(eps[x]);
    }
  }
}
