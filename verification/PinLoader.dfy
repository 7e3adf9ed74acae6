/** A whole start over the pinned front maps, written as the loader performs it. */
module PinLoader {
  import opened Types
  import opened RawEntries
  import opened RestorePlan
  import opened RestorePlanner
  import opened PinMachine
  import opened PinSafety

  // ---- joining runs of the machine ----

  lemma {:induction false} AfterAppend(w: Want, sys: System, a: seq<Event>, b: seq<Event>)
    ensures After(w, sys, a + b) == After(w, After(w, sys, a), b)
  {
    if b == [] {
      assert a + b == a;
    } else {
      AfterAppend(w, sys, a, b[..|b| - 1]);
      assert (a + b)[..|a + b| - 1] == a + b[..|b| - 1];
    }
  }

  lemma Join(w: Want, sys: System, events: seq<Event>, between: System, more: seq<Event>)
    requires After(w, sys, events) == between
    ensures After(w, sys, events + more) == After(w, between, more)
  {
    AfterAppend(w, sys, events, more);
  }

  lemma JoinOn(w: Want, sys: System, history: seq<Event>, events: seq<Event>, between: System, more: seq<Event>)
    requires After(w, sys, history + events) == between
    ensures After(w, sys, history + (events + more)) == After(w, between, more)
  {
    Join(w, sys, history + events, between, more);
    assert history + (events + more) == history + events + more;
  }

  lemma OneTick(w: Want, sys: System, choice: bool)
    ensures After(w, sys, [Tick(choice)]) == Step(w, sys, choice)
  {
    assert [Tick(choice)][..0] == [];
    assert After(w, sys, []) == sys;
  }

  /** Going on by one step. */
  lemma OneMore(w: Want, sys: System, events: seq<Event>, choice: bool)
    ensures After(w, sys, events + [Tick(choice)]) == Step(w, After(w, sys, events), choice)
  {
    AfterAppend(w, sys, events, [Tick(choice)]);
    OneTick(w, After(w, sys, events), choice);
  }

  // ---- reading a map ----

  function Without(m: Contents, rest: set<Bytes>): Contents {
    map k | k in m && k !in rest :: m[k]
  }

  /** Every entry of a map, in key order. */
  method TakeSnapshot(m: Contents) returns (s: seq<Entry>)
    ensures s == Listing(m)
  {
    s := [];
    var rest := m.Keys;
    while rest != {}
      invariant rest <= m.Keys
      invariant Lists(s, Without(m, rest))
      decreases rest
    {
      var k :| k in rest;
      InsertIs(s, Entry(k, m[k]));
      s := Insert(s, Entry(k, m[k]));
      rest := rest - {k};
    }
    assert Without(m, {}) == m;
    ListingIs(s, m);
  }

  // ---- preparing ----

  /** Parks, drops or leaves one map's pins; `twice` says it took two pin operations. */
  method PrepareMap(p: Pins, from: Option<(Source, Fate)>, fate: Fate, wanted: MapShape) returns (q: Pins, twice: bool)
    ensures if twice then !Prepare(p, from, fate, wanted).1 && Prepare(Prepare(p, from, fate, wanted).0, from, fate, wanted) == (q, true)
            else Prepare(p, from, fate, wanted) == (q, true)
    ensures twice ==> !fate.Migrate?
  {
    q, twice := p, false;
    if from.None? || fate.Keep? {
      return;
    }
    match (from.value.0, fate.Migrate?)
    case (Plain, true) => q := Pins(None, p.plain);
    case (Plain, false) => q := p.(plain := None);
    case (Migrating, true) =>
      if p.plain.Some? && !Matches(p.plain.value.shape, wanted) {
        q := p.(plain := None);
      }
    case (Migrating, false) =>
      twice := p.parked.Some?;
      q := Pins(None, None);
  }

  function PrepareTicks(twice: bool): seq<Event> {
    if twice then [Tick(true)] + [Tick(true)] else [Tick(true)]
  }

  lemma PrepareMetaRuns(w: Want, s: State, st: Start, q: Pins, twice: bool)
    requires var first := Prepare(s.meta, st.metaFrom, st.fate, w.meta);
             if twice then !first.1 && Prepare(first.0, st.metaFrom, st.fate, w.meta) == (q, true) else first == (q, true)
    requires twice ==> !st.fate.Migrate?
    ensures After(w, System(s, PreparingMeta(st)), PrepareTicks(twice))
            == System(s.(meta := q), PreparingEp(st.(metaSnap := Snapshot(s.meta, st.metaFrom, st.fate))))
  {
    OneTick(w, System(s, PreparingMeta(st)), true);
    if twice {
      OneMore(w, System(s, PreparingMeta(st)), [Tick(true)], true);
    }
  }

  lemma PrepareEpRuns(w: Want, s: State, st: Start, q: Pins, twice: bool)
    requires var first := Prepare(s.ep, st.epFrom, st.fate, w.ep);
             if twice then !first.1 && Prepare(first.0, st.epFrom, st.fate, w.ep) == (q, true) else first == (q, true)
    requires twice ==> !st.fate.Migrate?
    ensures After(w, System(s, PreparingEp(st)), PrepareTicks(twice))
            == System(s.(ep := q), Loading(st.(epSnap := Snapshot(s.ep, st.epFrom, st.fate))))
  {
    OneTick(w, System(s, PreparingEp(st)), true);
    if twice {
      OneMore(w, System(s, PreparingEp(st)), [Tick(true)], true);
    }
  }

  // ---- writing ----

  lemma RowTick(w: Want, s: State, fronts: seq<FrontCopy>, flags: seq<bool>, e: Entry, lands: bool)
    requires |flags| < |AllRows(fronts)| && AllRows(fronts)[|flags|] == e
    ensures Step(w, System(s, WritingRows(fronts, flags)), lands)
            == System(s.(ep := Put(s.ep, e, lands)), WritingRows(fronts, flags + [Landed(s.ep, e, lands)]))
  {
  }

  lemma RowsDone(w: Want, sys: System, events: seq<Event>, s: State, fronts: seq<FrontCopy>, flags: seq<bool>)
    requires After(w, sys, events) == System(s, WritingRows(fronts, flags)) && |flags| == RowStart(fronts, |fronts|)
    ensures After(w, sys, events + [Tick(true)]) == System(s, WritingMetas(fronts, flags, 0, false in flags))
  {
    assert fronts[..|fronts|] == fronts;
    OneMore(w, sys, events, true);
  }

  lemma RowStartGrows(fronts: seq<FrontCopy>, f: nat)
    requires f < |fronts|
    ensures RowStart(fronts, f + 1) == RowStart(fronts, f) + |fronts[f].rows|
  {
    assert fronts[..f + 1][..f] == fronts[..f];
  }

  /** Of each of the first `n` fronts, whether all its rows landed. */
  ghost function FrontFlags(fronts: seq<FrontCopy>, n: nat, flags: seq<bool>): (r: seq<bool>)
    requires n <= |fronts|
    ensures |r| == n && forall f :: 0 <= f < n ==> r[f] == RowsLanded(fronts, f, flags)
  {
    seq(n, f requires 0 <= f < n => RowsLanded(fronts, f, flags))
  }

  lemma {:induction false} RowStartOrder(fronts: seq<FrontCopy>, f: nat, g: nat)
    requires f < g <= |fronts|
    ensures RowStart(fronts, f) + |fronts[f].rows| <= RowStart(fronts, g)
  {
    RowStartGrows(fronts, g - 1);
    if f < g - 1 {
      RowStartOrder(fronts, f, g - 1);
    }
  }

  /** One front's results settle its own flag and leave the earlier ones. */
  lemma NextFrontFlag(fronts: seq<FrontCopy>, n: nat, flags: seq<bool>, results: seq<bool>)
    requires n < |fronts| && |flags| == RowStart(fronts, n) && |results| == |fronts[n].rows|
    ensures FrontFlags(fronts, n + 1, flags + results) == FrontFlags(fronts, n, flags) + [false !in results]
  {
    forall f | 0 <= f < n ensures RowsLanded(fronts, f, flags) == RowsLanded(fronts, f, flags + results) {
      RowStartOrder(fronts, f, n);
      var start, k := RowStart(fronts, f), |fronts[f].rows|;
      assert (flags + results)[start..start + k] == flags[start..start + k];
    }
    assert (flags + results)[|flags|..|flags| + |results|] == results;
  }

  class PinnedMaps {
    var meta: Pins
    var ep: Pins

    function Now(): State
      reads this
    {
      State(meta, ep)
    }

    constructor (s: State)
      ensures Now() == s
    {
      meta, ep := s.meta, s.ep;
    }

    /** `recreate_mismatched_pins`, for the two front maps. */
    method RecreateMismatched(w: Want) returns (st: Start, ghost events: seq<Event>)
      modifies this
      ensures After(w, System(old(Now()), Down), events) == System(Now(), Loading(st))
    {
      ghost var sys := System(Now(), Down);
      var metaFrom, epFrom := PinSource(meta, w.meta), PinSource(ep, w.ep);
      var fate := CoupleFrontFates(FateOf(metaFrom), FateOf(epFrom));
      st := Start(fate, metaFrom, epFrom, map[], map[]);
      OneTick(w, sys, true);
      events := [Tick(true)];

      var q, twice := PrepareMap(meta, metaFrom, fate, w.meta);
      PrepareMetaRuns(w, Now(), st, q, twice);
      AfterAppend(w, sys, events, PrepareTicks(twice));
      st := st.(metaSnap := Snapshot(meta, metaFrom, fate));
      meta := q;
      events := events + PrepareTicks(twice);

      q, twice := PrepareMap(ep, epFrom, fate, w.ep);
      PrepareEpRuns(w, Now(), st, q, twice);
      AfterAppend(w, sys, events, PrepareTicks(twice));
      st := st.(epSnap := Snapshot(ep, epFrom, fate));
      ep := q;
      events := events + PrepareTicks(twice);
    }

    /** The load creates every map that has no pin, in either order. */
    method CreateMissing(w: Want, st: Start, metaFirst: bool) returns (ghost events: seq<Event>)
      modifies this
      ensures After(w, System(old(Now()), Loading(st)), events)
              == System(Now(), if st.fate.Migrate? then WritingRows(FrontsOf(w, st), []) else Up)
    {
      ghost var sys := System(Now(), Loading(st));
      events := [];
      assert After(w, sys, events) == sys;
      while meta.plain.None? || ep.plain.None?
        invariant After(w, sys, events) == System(Now(), Loading(st))
        decreases Missing(meta.plain) + Missing(ep.plain)
      {
        OneMore(w, sys, events, metaFirst);
        if meta.plain.None? && (metaFirst || ep.plain.Some?) {
          meta := Create(meta, w.meta);
        } else {
          ep := Create(ep, w.ep);
        }
        events := events + [Tick(metaFirst)];
      }
      OneMore(w, sys, events, metaFirst);
      events := events + [Tick(metaFirst)];
    }

    /** Writes one entry into the endpoint map if its key is free. */
    method WriteEndpoint(e: Entry, lands: bool) returns (landed: bool)
      modifies this`ep
      ensures ep == Put(old(ep), e, lands) && landed == Landed(old(ep), e, lands)
    {
      landed := lands || (ep.plain.Some? && e.key in ep.plain.value.contents);
      if ep.plain.Some? && e.key !in ep.plain.value.contents && lands {
        var m := ep.plain.value;
        ep := ep.(plain := Some(m.(contents := m.contents[e.key := e.value])));
      }
    }

    method WriteMetaEntry(e: Entry, lands: bool) returns (landed: bool)
      modifies this`meta
      ensures meta == Put(old(meta), e, lands) && landed == Landed(old(meta), e, lands)
    {
      landed := lands || (meta.plain.Some? && e.key in meta.plain.value.contents);
      if meta.plain.Some? && e.key !in meta.plain.value.contents && lands {
        var m := meta.plain.value;
        meta := meta.(plain := Some(m.(contents := m.contents[e.key := e.value])));
      }
    }

    /** `write_all` for the rows of one front: a flag each. `n` numbers the rows over all fronts. */
    method WriteRowsOf(w: Want, fronts: seq<FrontCopy>, f: nat, n: nat, lands: nat -> bool, ghost flags: seq<bool>)
      returns (results: seq<bool>, ghost events: seq<Event>)
      requires f < |fronts| && |flags| == n == RowStart(fronts, f)
      modifies this`ep
      ensures After(w, System(old(Now()), WritingRows(fronts, flags)), events)
              == System(Now(), WritingRows(fronts, flags + results))
      ensures |results| == |fronts[f].rows|
    {
      ghost var sys := System(Now(), WritingRows(fronts, flags));
      results, events := [], [];
      assert After(w, sys, events) == sys && flags + results == flags;
      while |results| < |fronts[f].rows|
        invariant |results| <= |fronts[f].rows|
        invariant After(w, sys, events) == System(Now(), WritingRows(fronts, flags + results))
      {
        var r := |results|;
        RowAt(fronts, f, r);
        OneMore(w, sys, events, lands(n + r));
        RowTick(w, Now(), fronts, flags + results, fronts[f].rows[r], lands(n + r));
        events := events + [Tick(lands(n + r))];
        var landed := WriteEndpoint(fronts[f].rows[r], lands(n + r));
        assert flags + results + [landed] == flags + (results + [landed]);
        results := results + [landed];
      }
    }

    /** The endpoint rows of every front, one flag a front. */
    method WriteRows(w: Want, fronts: seq<FrontCopy>, lands: nat -> bool)
      returns (landed: seq<bool>, failed: bool, ghost flags: seq<bool>, ghost events: seq<Event>)
      modifies this`ep
      ensures After(w, System(old(Now()), WritingRows(fronts, [])), events) == System(Now(), WritingRows(fronts, flags))
      ensures |flags| == RowStart(fronts, |fronts|) && landed == FrontFlags(fronts, |fronts|, flags)
      ensures failed == (false in flags)
    {
      ghost var sys := System(Now(), WritingRows(fronts, []));
      landed, failed, flags, events := [], false, [], [];
      assert After(w, sys, events) == sys;
      var f, n := 0, 0;
      while f < |fronts|
        invariant 0 <= f <= |fronts| && |flags| == n == RowStart(fronts, f)
        invariant After(w, sys, events) == System(Now(), WritingRows(fronts, flags))
        invariant landed == FrontFlags(fronts, f, flags) && failed == (false in flags)
      {
        ghost var between := System(Now(), WritingRows(fronts, flags));
        var results;
        ghost var more;
        results, more := WriteRowsOf(w, fronts, f, n, lands, flags);
        Join(w, sys, events, between, more);
        NextFrontFlag(fronts, f, flags, results);
        RowStartGrows(fronts, f);
        flags, events := flags + results, events + more;
        landed, failed := landed + [false !in results], failed || false in results;
        f, n := f + 1, n + |results|;
      }
    }

    /** The meta rows of the fronts whose rows all landed; whether everything is in place. */
    method WriteMetas(w: Want, fronts: seq<FrontCopy>, landed: seq<bool>, failed: bool, lands: nat -> bool, ghost flags: seq<bool>)
      returns (ok: bool, ghost events: seq<Event>)
      requires landed == FrontFlags(fronts, |fronts|, flags)
      modifies this`meta
      ensures After(w, System(old(Now()), WritingMetas(fronts, flags, 0, failed)), events)
              == System(Now(), if ok then UnparkingMeta else Down)
    {
      ghost var sys := System(Now(), WritingMetas(fronts, flags, 0, failed));
      ok, events := !failed, [];
      assert After(w, sys, events) == sys;
      var f := 0;
      while f < |fronts|
        invariant 0 <= f <= |fronts|
        invariant After(w, sys, events) == System(Now(), WritingMetas(fronts, flags, f, !ok))
      {
        OneMore(w, sys, events, lands(f));
        events := events + [Tick(lands(f))];
        if landed[f] {
          var put := WriteMetaEntry(fronts[f].meta, lands(f));
          ok := ok && put;
        }
        f := f + 1;
      }
      OneMore(w, sys, events, true);
      events := events + [Tick(true)];
    }

    /** `apply_plan`: rows first, then the metas of the fronts whose rows all landed. */
    method ApplyPlan(w: Want, fronts: seq<FrontCopy>, rowLands: nat -> bool, metaLands: nat -> bool)
      returns (ok: bool, ghost events: seq<Event>)
      modifies this
      ensures After(w, System(old(Now()), WritingRows(fronts, [])), events)
              == System(Now(), if ok then UnparkingMeta else Down)
    {
      ghost var sys := System(Now(), WritingRows(fronts, []));
      var landed, failed;
      ghost var flags;
      landed, failed, flags, events := WriteRows(w, fronts, rowLands);
      RowsDone(w, sys, events, Now(), fronts, flags);
      events := events + [Tick(true)];
      ghost var between := System(Now(), WritingMetas(fronts, flags, 0, failed));
      ghost var more;
      ok, more := WriteMetas(w, fronts, landed, failed, metaLands, flags);
      Join(w, sys, events, between, more);
      events := events + more;
    }

    /** Drops the parked pins, the meta map's first. */
    method UnparkMigrated(w: Want) returns (ghost events: seq<Event>)
      modifies this
      ensures After(w, System(old(Now()), UnparkingMeta), events) == System(Now(), Up)
    {
      ghost var sys := System(Now(), UnparkingMeta);
      OneTick(w, sys, true);
      meta := meta.(parked := None);
      OneMore(w, sys, [Tick(true)], true);
      ep := ep.(parked := None);
      events := [Tick(true)] + [Tick(true)];
    }

    /** `restore_migrated` and `unpark_migrated`, from the snapshots taken. */
    method Restore(w: Want, st: Start, rowLands: nat -> bool, metaLands: nat -> bool)
      returns (ok: bool, ghost events: seq<Event>)
      modifies this
      ensures After(w, System(old(Now()), WritingRows(FrontsOf(w, st), [])), events)
              == System(Now(), if ok then Up else Down)
    {
      ghost var sys := System(Now(), WritingRows(FrontsOf(w, st), []));
      var metas := TakeSnapshot(st.metaSnap);
      var endpoints := TakeSnapshot(st.epSnap);
      var fronts, dropped := PlanRestore(metas, endpoints, Caps(w.meta.maxEntries, w.ep.maxEntries));
      assert fronts == FrontsOf(w, st);
      ok, events := ApplyPlan(w, fronts, rowLands, metaLands);
      if ok {
        ghost var between := System(Now(), UnparkingMeta);
        ghost var more := UnparkMigrated(w);
        Join(w, sys, events, between, more);
        events := events + more;
      }
    }

    /**
     * The pin steps of `load_ebpf`. They are a run of the machine, so after any history
     * of earlier starts a successful one leaves the outcome of the first pins.
     */
    method LoadEbpf(w: Want, metaFirst: bool, rowLands: nat -> bool, metaLands: nat -> bool,
                    ghost init: State, ghost history: seq<Event>)
      returns (ok: bool, ghost events: seq<Event>)
      requires Untouched(init) && After(w, System(init, Down), history) == System(Now(), Down)
      modifies this
      ensures After(w, System(init, Down), history + events) == System(Now(), if ok then Up else Down)
      ensures ok ==> Now() == Outcome(w, init)
    {
      ghost var sys, from := System(init, Down), System(Now(), Down);
      var st;
      st, events := RecreateMismatched(w);
      Join(w, sys, history, from, events);
      ghost var between := System(Now(), Loading(st));
      ghost var more := CreateMissing(w, st, metaFirst);
      JoinOn(w, sys, history, events, between, more);
      events := events + more;
      ok := true;
      if st.fate.Migrate? {
        between := System(Now(), WritingRows(FrontsOf(w, st), []));
        ok, more := Restore(w, st, rowLands, metaLands);
        JoinOn(w, sys, history, events, between, more);
        events := events + more;
      }
      if ok {
        CompletedIsOutcome(w, init, history + events);
      }
    }
  }
}
