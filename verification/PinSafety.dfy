/** What every step of every start keeps, and so what any run of starts ends with. */
module PinSafety {
  import opened Types
  import opened RawEntries
  import opened RestorePlan
  import opened PinMachine

  // ---- keeping: both maps match already ----

  ghost predicate Keeps(w: Want, init: State) {
    Untouched(init) && BothPinned(init) && SharedFate(w, init).Keep?
  }

  ghost predicate KeepInv(w: Want, init: State, sys: System) {
    sys.pins == init &&
    match sys.proc
    case Down => true
    case PreparingMeta(st) => st.fate.Keep?
    case PreparingEp(st) => st.fate.Keep?
    case Loading(st) => st.fate.Keep?
    case Up => true
    case _ => false
  }

  lemma KeepStep(w: Want, init: State, sys: System, choice: bool)
    requires Keeps(w, init) && KeepInv(w, init, sys)
    ensures KeepInv(w, init, Step(w, sys, choice))
  {
  }

  // ---- starting empty: a map is missing or its layout changed ----

  ghost predicate Resets(w: Want, init: State) {
    Untouched(init) && (!BothPinned(init) || SharedFate(w, init).RecreateEmpty?)
  }

  function Empty(shape: MapShape): Option<PinMap> {
    Some(PinMap(shape, map[]))
  }

  predicate GoneOrEmpty(p: Pins, shape: MapShape) {
    p.plain.None? || p.plain == Empty(shape)
  }

  /** The meta map goes first and comes back only once the old endpoint map is gone. */
  ghost predicate ResetPins(w: Want, init: State, s: State) {
    Untouched(s) &&
    (s == init || (s.meta.plain.None? && s.ep == init.ep) || (GoneOrEmpty(s.meta, w.meta) && GoneOrEmpty(s.ep, w.ep)))
  }

  ghost predicate ResetInv(w: Want, init: State, sys: System) {
    var s := sys.pins;
    ResetPins(w, init, s) &&
    match sys.proc
    case Down => true
    case PreparingMeta(st) => st == Begin(w, s)
    case PreparingEp(st) =>
      st.epFrom == PinSource(s.ep, w.ep) &&
      (if st.fate.Keep? then GoneOrEmpty(s.meta, w.meta) && GoneOrEmpty(s.ep, w.ep)
       else st.fate.RecreateEmpty? && s.meta.plain.None?)
    case Loading(st) => !st.fate.Migrate? && GoneOrEmpty(s.meta, w.meta) && GoneOrEmpty(s.ep, w.ep)
    case Up => s.meta.plain == Empty(w.meta) && s.ep.plain == Empty(w.ep)
    case _ => false
  }

  lemma ResetFate(w: Want, init: State, s: State)
    requires Resets(w, init) && ResetPins(w, init, s)
    ensures SharedFate(w, s).RecreateEmpty? || (SharedFate(w, s).Keep? && GoneOrEmpty(s.meta, w.meta) && GoneOrEmpty(s.ep, w.ep))
  {
  }

  lemma ResetStep(w: Want, init: State, sys: System, choice: bool)
    requires Resets(w, init) && ResetInv(w, init, sys)
    ensures ResetInv(w, init, Step(w, sys, choice))
  {
    ResetFate(w, init, sys.pins);
  }

  // ---- migrating ----

  ghost predicate Migrates(w: Want, init: State) {
    Untouched(init) && BothPinned(init) && SharedFate(w, init).Migrate?
  }

  /** A parked meta map the plan can be made from: the old one, or one that was already filled. */
  ghost predicate SourceMetas(w: Want, init: State, m: PinMap)
    requires BothPinned(init)
  {
    m == init.meta.plain.value || m == PinMap(w.meta, CarriedMetas(w, init))
  }

  /** `part` holds some of the entries of `whole`. */
  ghost predicate Part(part: Contents, whole: Contents) {
    forall k :: k in part ==> k in whole && part[k] == whole[k]
  }

  /** Not created yet, or the new map holding some of the entries to carry. */
  ghost predicate Filling(m: Option<PinMap>, shape: MapShape, whole: Contents) {
    m.Some? ==> m.value.shape == shape && Part(m.value.contents, whole)
  }

  function Held(m: Option<PinMap>): Contents {
    if m.Some? then m.value.contents else map[]
  }

  /** Every carried meta row that is visible has all its endpoint rows. */
  ghost predicate Backed(fronts: seq<FrontCopy>, metas: Contents, rows: Contents) {
    forall c, e :: c in fronts && c.meta.key in metas && e in c.rows ==> e.key in rows
  }

  /** The old meta map is parked, the endpoint map not yet. */
  ghost predicate MetaParked(init: State, s: State) {
    s.meta == Pins(None, init.meta.plain) && s.ep == init.ep
  }

  /** Both sources are parked; the new maps are missing, empty or partly filled. */
  ghost predicate Copying(w: Want, init: State, s: State)
    requires BothPinned(init)
  {
    s.ep.parked == init.ep.plain &&
    s.meta.parked.Some? && SourceMetas(w, init, s.meta.parked.value) &&
    Filling(s.meta.plain, w.meta, CarriedMetas(w, init)) && Filling(s.ep.plain, w.ep, CarriedRows(w, init)) &&
    Backed(Carried(w, init), Held(s.meta.plain), Held(s.ep.plain))
  }

  /** The new meta map is unparked and both new maps are full. */
  ghost predicate MetaLive(w: Want, init: State, s: State)
    requires BothPinned(init)
  {
    s.meta == Pins(Some(PinMap(w.meta, CarriedMetas(w, init))), None) &&
    s.ep == Pins(Some(PinMap(w.ep, CarriedRows(w, init))), init.ep.plain)
  }

  ghost predicate Finished(w: Want, init: State, s: State)
    requires BothPinned(init)
  {
    s == Unparked(PinMap(w.meta, CarriedMetas(w, init)), PinMap(w.ep, CarriedRows(w, init)))
  }

  ghost predicate MigratePins(w: Want, init: State, s: State)
    requires BothPinned(init)
  {
    s == init || MetaParked(init, s) || Copying(w, init, s) || MetaLive(w, init, s) || Finished(w, init, s)
  }

  /** The entries flagged as landed are in `m`. */
  ghost predicate InPlace(entries: seq<Entry>, flags: seq<bool>, m: Contents) {
    |flags| <= |entries| && forall i :: 0 <= i < |flags| && flags[i] ==> entries[i].key in m
  }

  /** The first `n` entries are in `m`. */
  ghost predicate FirstIn(entries: seq<Entry>, n: nat, m: Contents) {
    n <= |entries| && forall i :: 0 <= i < n ==> entries[i].key in m
  }

  /** Both new maps exist. */
  ghost predicate Writing(w: Want, init: State, s: State)
    requires BothPinned(init)
  {
    Copying(w, init, s) && s.meta.plain.Some? && s.ep.plain.Some?
  }

  /** The snapshots are those of the parked maps. */
  ghost predicate Snapshots(s: State, st: Start) {
    st.metaSnap == Held(s.meta.parked) && st.epSnap == Held(s.ep.parked)
  }

  ghost predicate MigrateInv(w: Want, init: State, sys: System)
    requires BothPinned(init)
  {
    var s := sys.pins;
    match sys.proc
    case Down => MigratePins(w, init, s)
    case PreparingMeta(st) => MigratePins(w, init, s) && st == Begin(w, s)
    case PreparingEp(st) =>
      st.epFrom == PinSource(s.ep, w.ep) &&
      if st.fate.Keep? then Finished(w, init, s)
      else st.fate.Migrate? && (MetaParked(init, s) || Copying(w, init, s)) && st.metaSnap == Held(s.meta.parked)
    case Loading(st) =>
      if st.fate.Keep? then Finished(w, init, s)
      else st.fate.Migrate? && Copying(w, init, s) && Snapshots(s, st)
    case WritingRows(fronts, flags) =>
      Writing(w, init, s) && fronts == Carried(w, init) && InPlace(AllRows(fronts), flags, Held(s.ep.plain))
    case WritingMetas(fronts, flags, n, failed) =>
      Writing(w, init, s) && fronts == Carried(w, init) &&
      |flags| == |AllRows(fronts)| && InPlace(AllRows(fronts), flags, Held(s.ep.plain)) &&
      n <= |fronts| && (!failed ==> false !in flags && FirstIn(CopiedMetas(fronts), n, Held(s.meta.plain)))
    case UnparkingMeta =>
      Copying(w, init, s) && s.meta.plain == Some(PinMap(w.meta, CarriedMetas(w, init))) &&
      s.ep.plain == Some(PinMap(w.ep, CarriedRows(w, init)))
    case UnparkingEp => MetaLive(w, init, s)
    case Up => Finished(w, init, s)
  }

  /** Unless the migration is over, every start decides to migrate. */
  lemma MigrateFate(w: Want, init: State, s: State)
    requires Migrates(w, init) && MigratePins(w, init, s)
    ensures SharedFate(w, s).Migrate? || (SharedFate(w, s).Keep? && Finished(w, init, s))
    ensures PinSource(s.meta, w.meta).Some? && PinSource(s.ep, w.ep).Some?
    ensures s == init ==> SharedFate(w, s).Migrate?
  {
  }

  /** Whichever meta map is parked, the plan is the same. */
  lemma SamePlan(w: Want, init: State, s: State, st: Start)
    requires BothPinned(init) && Copying(w, init, s) && Snapshots(s, st)
    ensures FrontsOf(w, st) == Carried(w, init)
  {
    PlanMapsAgain(init.meta.plain.value.contents, init.ep.plain.value.contents, Caps(w.meta.maxEntries, w.ep.maxEntries));
  }

  lemma PrepareMetaStep(w: Want, init: State, s: State)
    requires Migrates(w, init) && MigratePins(w, init, s)
    ensures MigrateInv(w, init, PrepareMeta(w, s, Begin(w, s)))
  {
    MigrateFate(w, init, s);
  }

  lemma PrepareEpStep(w: Want, init: State, s: State, st: Start)
    requires Migrates(w, init) && MigrateInv(w, init, System(s, PreparingEp(st)))
    ensures MigrateInv(w, init, PrepareEp(w, s, st))
  {
  }

  lemma LoadStep(w: Want, init: State, s: State, st: Start, metaFirst: bool)
    requires Migrates(w, init) && MigrateInv(w, init, System(s, Loading(st)))
    ensures MigrateInv(w, init, Load(w, s, st, metaFirst))
  {
    if st.fate.Migrate? {
      SamePlan(w, init, s, st);
    }
  }

  /** Every planned entry is one of those to carry. */
  lemma CarriedAre(w: Want, init: State)
    requires BothPinned(init)
    ensures forall e :: e in AllRows(Carried(w, init)) ==>
              e.key in CarriedRows(w, init) && CarriedRows(w, init)[e.key] == e.value
    ensures forall m :: m in CopiedMetas(Carried(w, init)) ==>
              m.key in CarriedMetas(w, init) && CarriedMetas(w, init)[m.key] == m.value
  {
    PlanComesFrom(init.meta.plain.value.contents, init.ep.plain.value.contents, Caps(w.meta.maxEntries, w.ep.maxEntries));
  }

  /** A write keeps the map a part of what it should hold, and loses nothing. */
  lemma PutFills(p: Pins, e: Entry, lands: bool, shape: MapShape, whole: Contents)
    requires p.plain.Some? && Filling(p.plain, shape, whole) && e.key in whole && whole[e.key] == e.value
    ensures var q := Put(p, e, lands);
            q.plain.Some? && q.parked == p.parked && Filling(q.plain, shape, whole) &&
            Held(p.plain).Keys <= Held(q.plain).Keys && (Landed(p, e, lands) ==> e.key in Held(q.plain)) &&
            (!lands ==> q == p)
  {
  }

  lemma InPlaceNext(entries: seq<Entry>, flags: seq<bool>, landed: bool, m: Contents, m': Contents)
    requires InPlace(entries, flags, m) && |flags| < |entries| && m.Keys <= m'.Keys
    requires landed ==> entries[|flags|].key in m'
    ensures InPlace(entries, flags + [landed], m')
  {
  }

  lemma BackedByMore(fronts: seq<FrontCopy>, metas: Contents, rows: Contents, rows': Contents)
    requires Backed(fronts, metas, rows) && rows.Keys <= rows'.Keys
    ensures Backed(fronts, metas, rows')
  {
  }

  lemma WriteRowStep(w: Want, init: State, s: State, flags: seq<bool>, lands: bool)
    requires Migrates(w, init) && MigrateInv(w, init, System(s, WritingRows(Carried(w, init), flags)))
    ensures MigrateInv(w, init, WriteRow(s, Carried(w, init), flags, lands))
  {
    CarriedAre(w, init);
    var rows := AllRows(Carried(w, init));
    if |flags| < |rows| {
      var e := rows[|flags|];
      assert e in rows;
      var q := Put(s.ep, e, lands);
      PutFills(s.ep, e, lands, w.ep, CarriedRows(w, init));
      InPlaceNext(rows, flags, Landed(s.ep, e, lands), Held(s.ep.plain), Held(q.plain));
      BackedByMore(Carried(w, init), Held(s.meta.plain), Held(s.ep.plain), Held(q.plain));
    }
  }

  /** The rows of front `n` are written one after the other. */
  lemma {:induction false} RowAt(fronts: seq<FrontCopy>, n: nat, r: nat)
    requires n < |fronts| && r < |fronts[n].rows|
    ensures RowStart(fronts, n) + r < |AllRows(fronts)|
    ensures AllRows(fronts)[RowStart(fronts, n) + r] == fronts[n].rows[r]
    decreases |fronts|
  {
    var init := fronts[..|fronts| - 1];
    if n < |init| {
      RowAt(init, n, r);
      assert init[..n] == fronts[..n];
    }
  }

  /** A front whose rows all landed has them in the new endpoint map. */
  lemma RowsThere(fronts: seq<FrontCopy>, n: nat, flags: seq<bool>, m: Contents)
    requires InPlace(AllRows(fronts), flags, m) && n < |fronts| && RowsLanded(fronts, n, flags)
    ensures forall e :: e in fronts[n].rows ==> e.key in m
  {
    forall e | e in fronts[n].rows ensures e.key in m {
      var r :| 0 <= r < |fronts[n].rows| && fronts[n].rows[r] == e;
      RowThere(fronts, n, r, flags, m);
    }
  }

  lemma RowThere(fronts: seq<FrontCopy>, n: nat, r: nat, flags: seq<bool>, m: Contents)
    requires InPlace(AllRows(fronts), flags, m) && n < |fronts| && RowsLanded(fronts, n, flags) && r < |fronts[n].rows|
    ensures fronts[n].rows[r].key in m
  {
    var start, k := RowStart(fronts, n), |fronts[n].rows|;
    var mine := flags[start..start + k];
    assert mine[r] in mine;
    assert flags[start + r] == mine[r];
    RowAt(fronts, n, r);
  }

  /** No two copied fronts have the same meta key. */
  lemma OneFrontPerKey(w: Want, init: State, i: nat, j: nat)
    requires BothPinned(init) && i < |Carried(w, init)| && j < |Carried(w, init)|
    requires Carried(w, init)[i].meta.key == Carried(w, init)[j].meta.key
    ensures i == j
  {
    var ms, es := Listing(init.meta.plain.value.contents), Listing(init.ep.plain.value.contents);
    var caps := Caps(w.meta.maxEntries, w.ep.maxEntries);
    SortedMetasSorted(ms);
    CopiedMetasSorted(SortedMetas(ms), es, caps);
    SameKeySamePlace(CopiedMetas(Carried(w, init)), i, j);
  }

  lemma BackedAfterPut(w: Want, init: State, n: nat, metas: Contents, rows: Contents, value: Bytes)
    requires BothPinned(init) && n < |Carried(w, init)| && Backed(Carried(w, init), metas, rows)
    requires forall e :: e in Carried(w, init)[n].rows ==> e.key in rows
    ensures Backed(Carried(w, init), metas[Carried(w, init)[n].meta.key := value], rows)
  {
    var fronts := Carried(w, init);
    forall c, e | c in fronts && c.meta.key in metas[fronts[n].meta.key := value] && e in c.rows ensures e.key in rows {
      var i :| 0 <= i < |fronts| && fronts[i] == c;
      if c.meta.key == fronts[n].meta.key {
        OneFrontPerKey(w, init, i, n);
      }
    }
  }

  lemma PutMetaKeepsWriting(w: Want, init: State, s: State, n: nat, choice: bool)
    requires BothPinned(init) && Writing(w, init, s) && n < |Carried(w, init)|
    requires forall e :: e in Carried(w, init)[n].rows ==> e.key in Held(s.ep.plain)
    ensures var m := Carried(w, init)[n].meta;
            var q := Put(s.meta, m, choice);
            Writing(w, init, s.(meta := q)) && Held(s.meta.plain).Keys <= Held(q.plain).Keys &&
            (Landed(s.meta, m, choice) ==> m.key in Held(q.plain))
  {
    var fronts := Carried(w, init);
    var m := fronts[n].meta;
    CarriedAre(w, init);
    assert CopiedMetas(fronts)[n] in CopiedMetas(fronts);
    BackedAfterPut(w, init, n, Held(s.meta.plain), Held(s.ep.plain), m.value);
    PutFills(s.meta, m, choice, w.meta, CarriedMetas(w, init));
  }

  lemma SomeMissed(fronts: seq<FrontCopy>, n: nat, flags: seq<bool>)
    requires n < |fronts| && |flags| == |AllRows(fronts)| && !RowsLanded(fronts, n, flags)
    ensures false in flags
  {
    var k := |fronts[n].rows|;
    if k > 0 {
      RowAt(fronts, n, k - 1);
    } else {
      RowStartBound(fronts, n);
    }
  }

  lemma {:induction false} RowStartBound(fronts: seq<FrontCopy>, n: nat)
    requires n <= |fronts|
    ensures RowStart(fronts, n) <= |AllRows(fronts)|
    decreases |fronts|
  {
    if n == |fronts| {
      assert fronts[..n] == fronts;
    } else {
      RowStartBound(fronts[..|fronts| - 1], n);
      assert fronts[..|fronts| - 1][..n] == fronts[..n];
    }
  }

  lemma FirstInNext(entries: seq<Entry>, n: nat, m: Contents, m': Contents)
    requires FirstIn(entries, n, m) && n < |entries| && m.Keys <= m'.Keys && entries[n].key in m'
    ensures FirstIn(entries, n + 1, m')
  {
  }

  /** The case of a front whose rows all landed. */
  lemma WriteMetaLanded(w: Want, init: State, s: State, flags: seq<bool>, n: nat, failed: bool, lands: bool)
    requires Migrates(w, init) && n < |Carried(w, init)| && RowsLanded(Carried(w, init), n, flags)
    requires MigrateInv(w, init, System(s, WritingMetas(Carried(w, init), flags, n, failed)))
    ensures var m := Carried(w, init)[n].meta;
            MigrateInv(w, init, System(s.(meta := Put(s.meta, m, lands)),
                                       WritingMetas(Carried(w, init), flags, n + 1, failed || !Landed(s.meta, m, lands))))
  {
    var fronts := Carried(w, init);
    var m := fronts[n].meta;
    RowsThere(fronts, n, flags, Held(s.ep.plain));
    PutMetaKeepsWriting(w, init, s, n, lands);
    if !failed && Landed(s.meta, m, lands) {
      FirstInNext(CopiedMetas(fronts), n, Held(s.meta.plain), Held(Put(s.meta, m, lands).plain));
    }
  }

  lemma WriteMetaStep(w: Want, init: State, s: State, flags: seq<bool>, n: nat, failed: bool, lands: bool)
    requires Migrates(w, init) && n < |Carried(w, init)|
    requires MigrateInv(w, init, System(s, WritingMetas(Carried(w, init), flags, n, failed)))
    ensures MigrateInv(w, init, WriteMeta(s, Carried(w, init), flags, n, failed, lands))
  {
    if RowsLanded(Carried(w, init), n, flags) {
      WriteMetaLanded(w, init, s, flags, n, failed, lands);
    } else {
      SomeMissed(Carried(w, init), n, flags);
    }
  }

  /** A part that has every key is the whole. */
  lemma FullPart(part: Contents, m: Contents, entries: seq<Entry>)
    requires Part(part, Picked(m, entries)) && FirstIn(entries, |entries|, part)
    ensures part == Picked(m, entries)
  {
    forall k | k in Picked(m, entries) ensures k in part {
      var i :| 0 <= i < |entries| && entries[i] == Entry(k, m[k]);
      assert entries[i].key in part;
    }
  }

  lemma WrittenStep(w: Want, init: State, s: State, flags: seq<bool>, failed: bool, lands: bool)
    requires Migrates(w, init) && MigrateInv(w, init, System(s, WritingMetas(Carried(w, init), flags, |Carried(w, init)|, failed)))
    ensures MigrateInv(w, init, WriteMeta(s, Carried(w, init), flags, |Carried(w, init)|, failed, lands))
  {
    if !failed {
      var fronts := Carried(w, init);
      FullPart(Held(s.meta.plain), init.meta.plain.value.contents, CopiedMetas(fronts));
      assert forall i :: 0 <= i < |flags| ==> flags[i];
      FullPart(Held(s.ep.plain), init.ep.plain.value.contents, AllRows(fronts));
    }
  }

  /** The same, for every step of writing the meta rows. */
  lemma MetaPhaseStep(w: Want, init: State, s: State, flags: seq<bool>, n: nat, failed: bool, lands: bool)
    requires Migrates(w, init) && MigrateInv(w, init, System(s, WritingMetas(Carried(w, init), flags, n, failed)))
    ensures MigrateInv(w, init, WriteMeta(s, Carried(w, init), flags, n, failed, lands))
  {
    if n < |Carried(w, init)| {
      WriteMetaStep(w, init, s, flags, n, failed, lands);
    } else {
      WrittenStep(w, init, s, flags, failed, lands);
    }
  }

  lemma UnparkStep(w: Want, init: State, sys: System, choice: bool)
    requires Migrates(w, init) && MigrateInv(w, init, sys)
    requires sys.proc.UnparkingMeta? || sys.proc.UnparkingEp? || sys.proc.Up? || sys.proc.Down?
    ensures MigrateInv(w, init, Step(w, sys, choice))
  {
  }

  lemma MigrateStep(w: Want, init: State, sys: System, choice: bool)
    requires Migrates(w, init) && MigrateInv(w, init, sys)
    ensures MigrateInv(w, init, Step(w, sys, choice))
  {
    match sys.proc
    case PreparingMeta(st) => PrepareMetaStep(w, init, sys.pins);
    case PreparingEp(st) => PrepareEpStep(w, init, sys.pins, st);
    case Loading(st) => LoadStep(w, init, sys.pins, st, choice);
    case WritingRows(_, flags) => WriteRowStep(w, init, sys.pins, flags, choice);
    case WritingMetas(_, flags, n, failed) => MetaPhaseStep(w, init, sys.pins, flags, n, failed, choice);
    case _ => UnparkStep(w, init, sys, choice);
  }

  /** Wherever a start dies, the pins are ones the next start can go on from. */
  lemma MigrateCrash(w: Want, init: State, sys: System)
    requires Migrates(w, init) && MigrateInv(w, init, sys)
    ensures MigrateInv(w, init, System(sys.pins, Down))
  {
  }

  // ---- every run ----

  ghost predicate Inv(w: Want, init: State, sys: System) {
    (Keeps(w, init) ==> KeepInv(w, init, sys)) &&
    (Resets(w, init) ==> ResetInv(w, init, sys)) &&
    (Migrates(w, init) ==> MigrateInv(w, init, sys))
  }

  lemma {:induction false} InvHolds(w: Want, init: State, events: seq<Event>)
    requires Untouched(init)
    ensures Inv(w, init, After(w, System(init, Down), events))
  {
    if events != [] {
      InvHolds(w, init, events[..|events| - 1]);
      var before := After(w, System(init, Down), events[..|events| - 1]);
      match events[|events| - 1]
      case Tick(choice) =>
        if Keeps(w, init) {
          KeepStep(w, init, before, choice);
        }
        if Resets(w, init) {
          ResetStep(w, init, before, choice);
        }
        if Migrates(w, init) {
          MigrateStep(w, init, before, choice);
        }
      case Crash =>
        if Migrates(w, init) {
          MigrateCrash(w, init, before);
        }
    }
  }

  /**
   * However often starts died or failed before, a start that completes leaves exactly
   * what a single undisturbed start would have left.
   */
  lemma CompletedIsOutcome(w: Want, init: State, events: seq<Event>)
    requires Untouched(init) && After(w, System(init, Down), events).proc.Up?
    ensures After(w, System(init, Down), events).pins == Outcome(w, init)
  {
    InvHolds(w, init, events);
  }

  /** The row a reader looks up for a slot of a visible front is there. */
  predicate FindsRow(rows: Contents, front: LbFrontKey, generation: u32, slot: u16) {
    |front.ip| == 16 && EncodeEndpointKey(EndpointKey(front, generation, slot)) in rows
  }

  ghost predicate EveryFrontFindsItsRows(metas: Contents, rows: Contents) {
    forall k, slot: u16 :: k in metas && DecodeFront(k).Some? && DecodeMeta(metas[k]).Some? &&
                           slot < DecodeMeta(metas[k]).value.count ==>
      FindsRow(rows, DecodeFront(k).value, DecodeMeta(metas[k]).value.generation, slot)
  }

  /** What a carried meta row needs is among the rows copied with it. */
  lemma CarriedFrontFindsItsRows(w: Want, init: State, k: Bytes, rows: Contents, slot: u16)
    requires BothPinned(init) && ZeroPads(Listing(init.ep.plain.value.contents))
    requires k in CarriedMetas(w, init) && DecodeFront(k).Some? && DecodeMeta(CarriedMetas(w, init)[k]).Some?
    requires slot < DecodeMeta(CarriedMetas(w, init)[k]).value.count
    requires forall c, e :: c in Carried(w, init) && c.meta.key == k && e in c.rows ==> e.key in rows
    ensures FindsRow(rows, DecodeFront(k).value, DecodeMeta(CarriedMetas(w, init)[k]).value.generation, slot)
  {
    var m := Entry(k, CarriedMetas(w, init)[k]);
    var fronts := Carried(w, init);
    var es := Listing(init.ep.plain.value.contents);
    var i :| 0 <= i < |fronts| && fronts[i].meta == m;
    CopiesAreCopies(SortedMetas(Listing(init.meta.plain.value.contents)), es, Caps(w.meta.maxEntries, w.ep.maxEntries));
    assert fronts[i] in fronts;
    ListingDistinct(init.ep.plain.value.contents);
    ExactSlots(es, m);
    var row := fronts[i].rows[slot];
    assert row in fronts[i].rows;
    EncodingOf(row.key, EndpointKey(DecodeFront(k).value, DecodeMeta(m.value).value.generation, slot));
  }

  /** A row found at first for a carried front is among those copied with it. */
  lemma CarriedFrontKeepsItsRow(w: Want, init: State, k: Bytes, rows: Contents, slot: u16)
    requires BothPinned(init)
    requires k in CarriedMetas(w, init) && DecodeFront(k).Some? && DecodeMeta(CarriedMetas(w, init)[k]).Some?
    requires slot < DecodeMeta(CarriedMetas(w, init)[k]).value.count
    requires forall c, e :: c in Carried(w, init) && c.meta.key == k && e in c.rows ==> e.key in rows
    requires FindsRow(Held(init.ep.plain), DecodeFront(k).value, DecodeMeta(CarriedMetas(w, init)[k]).value.generation, slot)
    ensures FindsRow(rows, DecodeFront(k).value, DecodeMeta(CarriedMetas(w, init)[k]).value.generation, slot)
  {
    var m, all := Entry(k, CarriedMetas(w, init)[k]), init.ep.plain.value.contents;
    var fronts, es := Carried(w, init), Listing(all);
    var i :| 0 <= i < |fronts| && fronts[i].meta == m;
    CopiesAreCopies(SortedMetas(Listing(init.meta.plain.value.contents)), es, Caps(w.meta.maxEntries, w.ep.maxEntries));
    assert fronts[i] in fronts;
    var key := EndpointKey(DecodeFront(k).value, DecodeMeta(m.value).value.generation, slot);
    RowOfIsLive(all, m, key);
    var e := Entry(EncodeEndpointKey(key), all[EncodeEndpointKey(key)]);
    assert e in fronts[i].rows;
  }

  lemma RowOfIsLive(all: Contents, m: Entry, key: FrontEndpointKey)
    requires DecodeFront(m.key).Some? && DecodeMeta(m.value).Some? && |key.front.ip| == 16 && EncodeEndpointKey(key) in all
    requires key.front == DecodeFront(m.key).value && key.generation == DecodeMeta(m.value).value.generation
    requires key.slot < DecodeMeta(m.value).value.count
    ensures Entry(EncodeEndpointKey(key), all[EncodeEndpointKey(key)]) in CopyOf(Listing(all), m).rows
  {
    var e := Entry(EncodeEndpointKey(key), all[EncodeEndpointKey(key)]);
    ListingLists(all);
    EndpointKeyRoundTrip(key);
    LiveRowsAre(Listing(all), m);
    var rows := LiveRows(Listing(all), m);
    assert Row(key.slot, e) in rows;
    var x :| 0 <= x < |rows| && rows[x] == Row(key.slot, e);
    assert CopyOf(Listing(all), m).rows[x] == e;
  }

  /** The visible meta row `k` is one found at first, and finds exactly the slots it found then. */
  ghost predicate FindsAsAtFirst(init: State, s: State, k: Bytes)
    requires s.meta.plain.Some? && k in s.meta.plain.value.contents
  {
    var value := s.meta.plain.value.contents[k];
    && BothPinned(init) && k in Held(init.meta.plain) && Held(init.meta.plain)[k] == value
    && forall slot: u16 :: DecodeFront(k).Some? && DecodeMeta(value).Some? && slot < DecodeMeta(value).value.count ==>
         (FindsRow(Held(s.ep.plain), DecodeFront(k).value, DecodeMeta(value).value.generation, slot)
          <==> FindsRow(Held(init.ep.plain), DecodeFront(k).value, DecodeMeta(value).value.generation, slot))
  }

  lemma CarriedIsFound(w: Want, init: State)
    requires BothPinned(init)
    ensures Part(CarriedMetas(w, init), Held(init.meta.plain)) && Part(CarriedRows(w, init), Held(init.ep.plain))
  {
  }

  lemma VisibleFindsAsAtFirst(w: Want, init: State, s: State, k: Bytes)
    requires BothPinned(init) && MigratePins(w, init, s) && s != init
    requires s.meta.plain.Some? && k in s.meta.plain.value.contents
    ensures FindsAsAtFirst(init, s, k)
  {
    VisibleIsBacked(w, init, s);
    CarriedIsFound(w, init);
    var value := s.meta.plain.value.contents[k];
    assert k in CarriedMetas(w, init) && CarriedMetas(w, init)[k] == value;
    forall slot: u16 | DecodeFront(k).Some? && DecodeMeta(value).Some? && slot < DecodeMeta(value).value.count &&
                       FindsRow(Held(init.ep.plain), DecodeFront(k).value, DecodeMeta(value).value.generation, slot)
      ensures FindsRow(Held(s.ep.plain), DecodeFront(k).value, DecodeMeta(value).value.generation, slot)
    {
      CarriedFrontKeepsItsRow(w, init, k, Held(s.ep.plain), slot);
    }
  }

  /**
   * No meta without its rows: at every moment of every run the pins are still the ones found at
   * first, or every visible meta row is one of those and finds a slot's row exactly if it did then.
   */
  lemma NoMetaWithoutRows(w: Want, init: State, events: seq<Event>)
    requires Untouched(init)
    ensures var s := After(w, System(init, Down), events).pins;
            s == init || forall k :: k in Held(s.meta.plain) ==> FindsAsAtFirst(init, s, k)
  {
    InvHolds(w, init, events);
    var s := After(w, System(init, Down), events).pins;
    if Migrates(w, init) && s != init {
      forall k | k in Held(s.meta.plain) ensures FindsAsAtFirst(init, s, k) {
        VisibleFindsAsAtFirst(w, init, s, k);
      }
    }
  }

  /** With zeroed padding a visible meta row finds every slot, whether all were there at first or not. */
  lemma ZeroPaddedFrontsFindTheirRows(w: Want, init: State, events: seq<Event>)
    requires Untouched(init) && (BothPinned(init) ==> ZeroPads(Listing(init.ep.plain.value.contents)))
    ensures var s := After(w, System(init, Down), events).pins;
            s == init || EveryFrontFindsItsRows(Held(s.meta.plain), Held(s.ep.plain))
  {
    InvHolds(w, init, events);
    var s := After(w, System(init, Down), events).pins;
    if Migrates(w, init) && s != init {
      VisibleIsBacked(w, init, s);
      var metas, rows := Held(s.meta.plain), Held(s.ep.plain);
      forall k, slot: u16 | k in metas && DecodeFront(k).Some? && DecodeMeta(metas[k]).Some? &&
                            slot < DecodeMeta(metas[k]).value.count
        ensures FindsRow(rows, DecodeFront(k).value, DecodeMeta(metas[k]).value.generation, slot)
      {
        CarriedFrontFindsItsRows(w, init, k, rows, slot);
      }
    }
  }

  lemma VisibleIsBacked(w: Want, init: State, s: State)
    requires BothPinned(init) && MigratePins(w, init, s) && s != init
    ensures Part(Held(s.meta.plain), CarriedMetas(w, init))
    ensures s.meta.plain.Some? ==> Part(Held(s.ep.plain), CarriedRows(w, init))
    ensures Backed(Carried(w, init), Held(s.meta.plain), Held(s.ep.plain))
  {
    CarriedAre(w, init);
    AllRowsAre(Carried(w, init));
    if MetaLive(w, init, s) || Finished(w, init, s) {
      var fronts := Carried(w, init);
      forall c, e | c in fronts && e in c.rows ensures e.key in CarriedRows(w, init) {
        var i :| 0 <= i < |fronts| && fronts[i] == c;
        assert e in AllRows(fronts);
      }
    }
  }

  // ---- an undisturbed start completes ----

  /** No write of this start has failed so far. */
  predicate Clean(proc: Proc) {
    match proc
    case WritingRows(_, flags) => false !in flags
    case WritingMetas(_, flags, _, failed) => false !in flags && !failed
    case _ => true
  }

  function PhasesLeft(proc: Proc): nat {
    match proc
    case Down => 8
    case PreparingMeta(_) => 7
    case PreparingEp(_) => 6
    case Loading(_) => 5
    case WritingRows(_, _) => 4
    case WritingMetas(_, _, _, _) => 3
    case UnparkingMeta => 2
    case UnparkingEp => 1
    case Up => 0
  }

  function Missing(m: Option<PinMap>): nat {
    if m.None? then 1 else 0
  }

  ghost function StepsLeftInPhase(sys: System): nat {
    var s := sys.pins;
    match sys.proc
    case PreparingMeta(_) => 1 - Missing(s.meta.parked)
    case PreparingEp(_) => 1 - Missing(s.ep.parked)
    case Loading(_) => Missing(s.meta.plain) + Missing(s.ep.plain)
    case WritingRows(fronts, flags) => var left := |AllRows(fronts)| - |flags|; if left < 0 then 0 else left
    case WritingMetas(fronts, _, n, _) => var left := |fronts| - n; if left < 0 then 0 else left
    case _ => 0
  }

  /** `next` is a clean state nearer to the end of the start. */
  ghost predicate Nearer(w: Want, next: System, sys: System) {
    Clean(next.proc) && (PhasesLeft(next.proc) < PhasesLeft(sys.proc) ||
    (PhasesLeft(next.proc) == PhasesLeft(sys.proc) && StepsLeftInPhase(next) < StepsLeftInPhase(sys)))
  }

  lemma CleanStep(w: Want, sys: System)
    requires Clean(sys.proc) && !sys.proc.Up?
    ensures Nearer(w, Step(w, sys, true), sys)
  {
  }

  ghost function Ticks(w: Want, sys: System, n: nat): System
    decreases n
  {
    if n == 0 then sys else Ticks(w, Step(w, sys, true), n - 1)
  }

  lemma {:induction false} StartCompletes(w: Want, sys: System) returns (n: nat)
    requires Clean(sys.proc)
    ensures Ticks(w, sys, n).proc.Up?
    decreases PhasesLeft(sys.proc), StepsLeftInPhase(sys)
  {
    if sys.proc.Up? {
      n := 0;
    } else {
      CleanStep(w, sys);
      var rest := StartCompletes(w, Step(w, sys, true));
      n := rest + 1;
    }
  }

  ghost function Undisturbed(n: nat): seq<Event> {
    seq(n, i => Tick(true))
  }

  lemma AfterTick(w: Want, sys: System, events: seq<Event>)
    ensures After(w, sys, events + [Tick(true)]) == Step(w, After(w, sys, events), true)
  {
    var all := events + [Tick(true)];
    assert all[..|all| - 1] == events;
  }

  lemma {:induction false} AfterUndisturbed(w: Want, sys: System, events: seq<Event>, n: nat)
    ensures After(w, sys, events + Undisturbed(n)) == Ticks(w, After(w, sys, events), n)
    decreases n
  {
    if n == 0 {
      assert events + Undisturbed(0) == events;
    } else {
      AfterTick(w, sys, events);
      AfterUndisturbed(w, sys, events + [Tick(true)], n - 1);
      assert events + [Tick(true)] + Undisturbed(n - 1) == events + Undisturbed(n);
    }
  }

  /** After any history of dead and failed starts, one more start left alone reaches the outcome. */
  lemma Recovers(w: Want, init: State, events: seq<Event>) returns (n: nat)
    requires Untouched(init)
    ensures After(w, System(init, Down), events + [Crash] + Undisturbed(n)) == System(Outcome(w, init), Up)
  {
    var crashed := events + [Crash];
    assert crashed[..|crashed| - 1] == events;
    n := StartCompletes(w, After(w, System(init, Down), crashed));
    AfterUndisturbed(w, System(init, Down), crashed, n);
    CompletedIsOutcome(w, init, crashed + Undisturbed(n));
  }
}
