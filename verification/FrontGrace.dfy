/** A reader does two lookups; the generation it read from the first must outlive the second. */
module FrontGrace {
  import opened Types
  import opened FrontPlan
  import opened FrontSafety
  import opened Steering

  /** Every slot of the generation a reader loaded as `v` can still be looked up. */
  ghost predicate Readable(m: Maps, f: LbFrontKey, v: FrontMeta) {
    forall i :: 0 <= i < v.count ==> EndpointKey(f, v.generation, i) in m.eps
  }

  /** `v` is of the live generation, or of the one before it: at most one commit behind. */
  ghost predicate AtMostOneBehind(m: Maps, f: LbFrontKey, v: FrontMeta) {
    && f in m.meta
    && (v.generation == m.meta[f].generation || v.generation == WrappingSub1(m.meta[f].generation))
  }

  /** Slot by slot, the generation a reader loaded as `v` still holds `rows`. */
  ghost predicate Shows(m: Maps, f: LbFrontKey, v: FrontMeta, rows: seq<FrontEndpoint>) {
    |rows| == v.count && forall i :: 0 <= i < |rows| ==> Lookup(m.eps, EndpointKey(f, v.generation, i)) == Some(rows[i])
  }

  ghost predicate InHand(m: Maps, f: LbFrontKey, v: FrontMeta, rows: seq<FrontEndpoint>) {
    Shows(m, f, v, rows) && AtMostOneBehind(m, f, v)
  }

  /** The pass may not delete `f`. */
  predicate Retains(inp: Input, f: LbFrontKey) {
    if f in inp.desired then inp.desired[f].Valid() else !inp.prune
  }

  /** The pass leaves both the live generation of `f` and the one before it alone. */
  predicate Holds(inp: Input, f: LbFrontKey) {
    Retains(inp, f) && (f in inp.desired ==> f in inp.keep && Unchanged(inp.maps, f, inp.desired[f]))
  }

  lemma ProgressKeeps(inp: Input, m: Maps, f: LbFrontKey, v: FrontMeta, rows: seq<FrontEndpoint>, r: Run, k: nat)
    requires Retains(inp, f) && SameOn(inp.maps, m, f) && InHand(inp.maps, f, v, rows)
    requires v.generation == inp.maps.meta[f].generation || Holds(inp, f)
    requires Progress(m, f, ShapeFor(inp, f), r, k)
    ensures InHand(r.maps, f, v, rows)
  {
    var sh := ShapeFor(inp, f);
    forall i | 0 <= i < |rows| ensures Lookup(r.maps.eps, EndpointKey(f, v.generation, i)) == Some(rows[i]) {
      var x := EndpointKey(f, v.generation, i);
      assert x !in sh.doomed && !IsPut(f, sh, x);
      assert SameRow(inp.maps, m, x) && SameRow(m, r.maps, x);
    }
  }

  lemma SameOnInHand(a: Maps, b: Maps, f: LbFrontKey, v: FrontMeta, rows: seq<FrontEndpoint>)
    requires SameOn(a, b, f) && InHand(a, f, v, rows)
    ensures InHand(b, f, v, rows)
  {
    forall i | 0 <= i < |rows| ensures Lookup(b.eps, EndpointKey(f, v.generation, i)) == Some(rows[i]) {
      assert SameRow(a, b, EndpointKey(f, v.generation, i));
    }
  }

  lemma PlanKeeps(p: Pass, i: nat, k: nat, f: LbFrontKey, v: FrontMeta, rows: seq<FrontEndpoint>)
    requires p.Runs() && i < |p.plans| && k <= |p.plans[i].steps|
    requires Retains(p.inp, f) && InHand(p.inp.maps, f, v, rows) && InHand(PassTo(p, i).maps, f, v, rows)
    requires v.generation == p.inp.maps.meta[f].generation || Holds(p.inp, f)
    ensures InHand(Boundary(p, i, k).maps, f, v, rows)
  {
    BoundaryProgress(p, i, k);
    if p.plans[i].front == f {
      ProgressKeeps(p.inp, PassTo(p, i).maps, f, v, rows, Boundary(p, i, k), k);
    } else {
      SameOnInHand(PassTo(p, i).maps, Boundary(p, i, k).maps, f, v, rows);
    }
  }

  lemma {:induction false} DonePlansKeep(p: Pass, i: nat, f: LbFrontKey, v: FrontMeta, rows: seq<FrontEndpoint>)
    requires p.Runs() && i <= |p.plans| && Retains(p.inp, f) && InHand(p.inp.maps, f, v, rows)
    requires v.generation == p.inp.maps.meta[f].generation || Holds(p.inp, f)
    ensures InHand(PassTo(p, i).maps, f, v, rows)
  {
    if i > 0 {
      DonePlansKeep(p, i - 1, f, v, rows);
      PlanKeeps(p, i - 1, |p.plans[i - 1].steps|, f, v, rows);
    }
  }

  /** What a reader held when the pass began is still there at every boundary of the pass. */
  lemma PassKeeps(p: Pass, i: nat, k: nat, f: LbFrontKey, v: FrontMeta, rows: seq<FrontEndpoint>)
    requires p.Runs() && i <= |p.plans| && (i < |p.plans| ==> k <= |p.plans[i].steps|)
    requires Retains(p.inp, f) && InHand(p.inp.maps, f, v, rows)
    requires v.generation == p.inp.maps.meta[f].generation || Holds(p.inp, f)
    ensures InHand(StateAt(p, i, k), f, v, rows)
  {
    DonePlansKeep(p, i, f, v, rows);
    if i < |p.plans| {
      PlanKeeps(p, i, k, f, v, rows);
    }
  }

  // ---- a reader that loads its meta in the middle of a pass -------------------------------------

  ghost predicate NotAfter(i: nat, k: nat, i2: nat, k2: nat) {
    i < i2 || (i == i2 && k <= k2)
  }

  /** No plan from `j` on is `f`'s: `f` is the same at every boundary from there. */
  lemma DoneFrom(p: Pass, j: nat, i: nat, k: nat, f: LbFrontKey)
    requires p.Runs() && j <= i <= |p.plans| && (i < |p.plans| ==> k <= |p.plans[i].steps|)
    requires forall x :: j <= x < |p.plans| ==> p.plans[x].front != f
    ensures SameOn(PassTo(p, j).maps, StateAt(p, i, k), f)
  {
    UntouchedBetween(p, j, i, f);
    if i < |p.plans| {
      BoundaryProgress(p, i, k);
      SameOnTransitive(PassTo(p, j).maps, PassTo(p, i).maps, StateAt(p, i, k), f);
    }
  }

  /** `f`'s plan runs at `j`; before its last step the meta is the snapshot's. */
  lemma ShowsOldUntilLast(p: Pass, j: nat, i: nat, k: nat, f: LbFrontKey)
    requires p.Runs() && i <= j < |p.plans| && p.plans[j].front == f && k <= |p.plans[i].steps|
    requires f in StateAt(p, i, k).meta && !SameMeta(p.inp.maps, StateAt(p, i, k), f)
    ensures i == j && k == |p.plans[i].steps| && StateAt(p, i, k) == PassTo(p, i + 1).maps
  {
    UntouchedBetween(p, 0, i, f);
    BoundaryProgress(p, i, k);
    if i < j {
      assert p.plans[i].front != f;
      assert SameOn(PassTo(p, i).maps, StateAt(p, i, k), f);
      SameOnTransitive(p.inp.maps, PassTo(p, i).maps, StateAt(p, i, k), f);
    }
  }

  /** Once `f`'s plan `j` is over, nothing touches `f`. */
  lemma DoneSince(p: Pass, j: nat, i: nat, k: nat)
    requires p.Runs() && j < i <= |p.plans| && (i < |p.plans| ==> k <= |p.plans[i].steps|)
    ensures SameOn(PassTo(p, j + 1).maps, StateAt(p, i, k), p.plans[j].front)
  {
    DoneFrom(p, j + 1, i, k, p.plans[j].front);
  }

  lemma DoneAfterPlan(p: Pass, j: nat, i: nat, k: nat, i2: nat, k2: nat, f: LbFrontKey)
    requires p.Runs() && j < i <= i2 <= |p.plans| && p.plans[j].front == f
    requires (i < |p.plans| ==> k <= |p.plans[i].steps|) && (i2 < |p.plans| ==> k2 <= |p.plans[i2].steps|)
    ensures SameOn(StateAt(p, i, k), StateAt(p, i2, k2), f)
  {
    DoneSince(p, j, i, k);
    DoneSince(p, j, i2, k2);
    SameOnJoin(PassTo(p, j + 1).maps, StateAt(p, i, k), StateAt(p, i2, k2), f);
  }

  /** Once a front shows a meta it did not have before the pass, the pass is done with it. */
  lemma CommittedIsDone(p: Pass, i: nat, k: nat, i2: nat, k2: nat, f: LbFrontKey)
    requires p.Runs() && i <= i2 <= |p.plans| && NotAfter(i, k, i2, k2)
    requires (i < |p.plans| ==> k <= |p.plans[i].steps|) && (i2 < |p.plans| ==> k2 <= |p.plans[i2].steps|)
    requires !SameMeta(p.inp.maps, StateAt(p, i, k), f) && f in StateAt(p, i, k).meta
    ensures SameOn(StateAt(p, i, k), StateAt(p, i2, k2), f)
  {
    if j :| 0 <= j < |p.plans| && p.plans[j].front == f {
      if j < i {
        DoneAfterPlan(p, j, i, k, i2, k2, f);
      } else {
        ShowsOldUntilLast(p, j, i, k, f);
        if i < i2 {
          DoneFrom(p, i + 1, i2, k2, f);
        }
      }
    } else {
      DoneFrom(p, 0, i, k, f);
      assert false;
    }
  }

  /** Two lookups in one pass: the second finds, slot by slot, what the front served at the first. */
  lemma TwoLookupsInOnePass(p: Pass, i: nat, k: nat, i2: nat, k2: nat, f: LbFrontKey)
    requires p.Runs() && i <= i2 <= |p.plans| && NotAfter(i, k, i2, k2)
    requires (i < |p.plans| ==> k <= |p.plans[i].steps|) && (i2 < |p.plans| ==> k2 <= |p.plans[i2].steps|)
    requires WellFormed(p.inp.maps) && Retains(p.inp, f) && f in StateAt(p, i, k).meta
    ensures FrontOk(StateAt(p, i, k), f)
    ensures InHand(StateAt(p, i2, k2), f, StateAt(p, i, k).meta[f], Serving(StateAt(p, i, k), f))
  {
    var v := StateAt(p, i, k).meta[f];
    EventIsSafe(Event(p, i, k));
    assert FrontOk(p.inp.maps, f) && FrontOk(StateAt(p, i, k), f);
    var rows := Serving(StateAt(p, i, k), f);
    if SameMeta(p.inp.maps, StateAt(p, i, k), f) {
      PassKeeps(p, i, k, f, v, Serving(p.inp.maps, f));
      ShownOnce(StateAt(p, i, k), f, v, rows, Serving(p.inp.maps, f));
      PassKeeps(p, i2, k2, f, v, rows);
    } else {
      CommittedIsDone(p, i, k, i2, k2, f);
      SameOnInHand(StateAt(p, i, k), StateAt(p, i2, k2), f, v, rows);
    }
  }

  /** A generation holds one list of rows. */
  lemma ShownOnce(m: Maps, f: LbFrontKey, v: FrontMeta, a: seq<FrontEndpoint>, b: seq<FrontEndpoint>)
    requires Shows(m, f, v, a) && Shows(m, f, v, b)
    ensures a == b
  {
    forall i | 0 <= i < |a| ensures a[i] == b[i] {
      assert Lookup(m.eps, EndpointKey(f, v.generation, i)) == Some(b[i]);
    }
  }

  // ---- and in the passes that follow ------------------------------------------------------------

  /** Passes that keep `f`, and that are held for it once one commit lies between. */
  ghost predicate HeldHistory(s: Maps, h: seq<Event>, f: LbFrontKey, v: FrontMeta)
    requires History(s, h)
    decreases |h|
  {
    h == [] ||
    (&& Retains(h[0].pass.inp, f)
     && (f in s.meta && v.generation != s.meta[f].generation ==> Holds(h[0].pass.inp, f))
     && HeldHistory(h[0].After(), h[1..], f, v))
  }

  lemma {:induction false} TwoLookupsAcrossPasses(s: Maps, h: seq<Event>, f: LbFrontKey, v: FrontMeta, rows: seq<FrontEndpoint>)
    requires History(s, h) && InHand(s, f, v, rows) && HeldHistory(s, h, f, v)
    ensures Shows(Final(s, h), f, v, rows)
    decreases |h|
  {
    if h != [] {
      PassKeeps(h[0].pass, h[0].i, h[0].k, f, v, rows);
      TwoLookupsAcrossPasses(h[0].After(), h[1..], f, v, rows);
    }
  }

  // ---- what the two lookups make of a new flow ----------------------------------------------------

  /** A new flow with meta `v` from one moment and rows from another reaches one of the rows, a local one if `v` prefers local. */
  lemma SplitLookupsForward(m: Maps, f: LbFrontKey, v: FrontMeta, rows: seq<FrontEndpoint>, hash: u32)
    requires Shows(m, f, v, rows) && v.count > 0 && v.localCount <= v.count
    requires forall i :: 0 <= i < v.localCount ==> IsLocal(rows[i])
    ensures exists i :: 0 <= i < |rows| && SendsTo(Steer(v, None, None, hash, f, m.eps), rows[i])
                        && (v.localCount > 0 ==> IsLocal(rows[i]))
  {
    var slot := SelectEndpointSlot(hash, v.count, v.localCount).value;
    assert Lookup(m.eps, EndpointKey(f, v.generation, slot)) == Some(rows[slot]);
  }

  lemma ServingIsLocal(m: Maps, f: LbFrontKey)
    requires FrontOk(m, f) && f in m.meta
    ensures var v := m.meta[f];
            v.localCount <= v.count && forall i :: 0 <= i < v.localCount ==> IsLocal(Serving(m, f)[i])
  {
    var v := m.meta[f];
    forall i | 0 <= i < v.localCount ensures IsLocal(Serving(m, f)[i]) {
      assert Lookup(m.eps, EndpointKey(f, v.generation, i)) == Some(Serving(m, f)[i]);
    }
  }

  /** What a front serves at a boundary of a pass is its old set or the wanted one. */
  lemma ServesOldOrNew(p: Pass, i: nat, k: nat, f: LbFrontKey, ep: FrontEndpoint)
    requires p.Runs() && i <= |p.plans| && (i < |p.plans| ==> k <= |p.plans[i].steps|)
    requires f in p.inp.desired ==> p.inp.desired[f].Valid()
    requires WellFormed(p.inp.maps) && f in StateAt(p, i, k).meta
    requires FrontOk(StateAt(p, i, k), f) && ep in Serving(StateAt(p, i, k), f)
    ensures FrontOk(p.inp.maps, f)
    ensures (f in p.inp.maps.meta && ep in Serving(p.inp.maps, f)) || (f in p.inp.desired && ep in p.inp.desired[f].endpoints)
  {
    assert FrontOk(p.inp.maps, f);
    AtomicSwitch(p, i, k, f);
    var rows := Serving(StateAt(p, i, k), f);
    var x :| 0 <= x < |rows| && rows[x] == ep;
    ServesUnique(StateAt(p, i, k), f, x);
  }

  /**
   * A new flow whose meta lookup falls on one boundary of a pass and whose endpoint lookup on a
   * later one is never dropped by a front with endpoints: it reaches an endpoint of the old or of
   * the wanted set, a local one if the meta it read prefers local.
   */
  lemma SplitSteerInOnePass(p: Pass, i: nat, k: nat, i2: nat, k2: nat, f: LbFrontKey, hash: u32)
    requires p.Runs() && i <= i2 <= |p.plans| && NotAfter(i, k, i2, k2)
    requires (i < |p.plans| ==> k <= |p.plans[i].steps|) && (i2 < |p.plans| ==> k2 <= |p.plans[i2].steps|)
    requires WellFormed(p.inp.maps) && Retains(p.inp, f)
    requires f in StateAt(p, i, k).meta && StateAt(p, i, k).meta[f].count > 0
    ensures FrontOk(p.inp.maps, f)
    ensures var v := StateAt(p, i, k).meta[f];
            exists ep :: SendsTo(Steer(v, None, None, hash, f, StateAt(p, i2, k2).eps), ep) && (v.localCount > 0 ==> IsLocal(ep))
                         && ((f in p.inp.maps.meta && ep in Serving(p.inp.maps, f))
                             || (f in p.inp.desired && ep in p.inp.desired[f].endpoints))
  {
    var v := StateAt(p, i, k).meta[f];
    TwoLookupsInOnePass(p, i, k, i2, k2, f);
    var rows := Serving(StateAt(p, i, k), f);
    ServingIsLocal(StateAt(p, i, k), f);
    SplitLookupsForward(StateAt(p, i2, k2), f, v, rows, hash);
    var x :| 0 <= x < |rows| && SendsTo(Steer(v, None, None, hash, f, StateAt(p, i2, k2).eps), rows[x])
             && (v.localCount > 0 ==> IsLocal(rows[x]));
    ServesOldOrNew(p, i, k, f, rows[x]);
  }
}
