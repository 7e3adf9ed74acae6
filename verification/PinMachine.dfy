/**
 * Starts of the loader over the pinned front maps. A start reads the pins, parks or
 * drops the ones that do not match, creates the missing maps, copies the entries
 * over and unparks. It may die between any two steps and any write may fail.
 */
module PinMachine {
  import opened Types
  import opened RawEntries
  import opened RestorePlan

  datatype MapShape = MapShape(mapType: u32, keySize: u32, valueSize: u32, maxEntries: u32, mapFlags: u32)

  datatype Fate = Keep | Migrate | RecreateEmpty

  datatype Source = Plain | Migrating

  /** A pinned map. */
  datatype PinMap = PinMap(shape: MapShape, contents: Contents)

  /** The two names a map can be pinned under: its own and the `_migrating` one. */
  datatype Pins = Pins(plain: Option<PinMap>, parked: Option<PinMap>)

  datatype State = State(meta: Pins, ep: Pins)

  /** The shapes the load asks for, at every start. */
  datatype Want = Want(meta: MapShape, ep: MapShape)

  // ---- what a start decides ----

  /** Only the no-preallocation flag, bit 0, is compared. */
  predicate Matches(existing: MapShape, wanted: MapShape) {
    existing.mapType == wanted.mapType && existing.keySize == wanted.keySize &&
    existing.valueSize == wanted.valueSize && existing.maxEntries == wanted.maxEntries &&
    existing.mapFlags % 2 == wanted.mapFlags % 2
  }

  /** HASH and LRU_HASH. */
  predicate Restorable(mapType: u32) {
    mapType == 1 || mapType == 9
  }

  function PinFate(existing: MapShape, wanted: MapShape): Fate {
    if Matches(existing, wanted) then Keep
    else if existing.mapType == wanted.mapType && existing.keySize == wanted.keySize &&
            existing.valueSize == wanted.valueSize && Restorable(wanted.mapType) then Migrate
    else RecreateEmpty
  }

  /** Which pin holds the entries to carry over, and what becomes of them. */
  function PinSource(p: Pins, wanted: MapShape): Option<(Source, Fate)> {
    if p.parked.Some? then
      var fate := PinFate(p.parked.value.shape, wanted);
      Some((Migrating, if fate.Keep? then Migrate else fate))
    else if p.plain.Some? then Some((Plain, PinFate(p.plain.value.shape, wanted)))
    else None
  }

  function FateOf(source: Option<(Source, Fate)>): Option<Fate> {
    if source.Some? then Some(source.value.1) else None
  }

  function CoupleFrontFates(meta: Option<Fate>, ep: Option<Fate>): Fate {
    match (meta, ep)
    case (Some(Keep), Some(Keep)) => Keep
    case (None, None) => Keep
    case (Some(m), Some(e)) => if m.RecreateEmpty? || e.RecreateEmpty? then RecreateEmpty else Migrate
    case _ => RecreateEmpty
  }

  function SharedFate(w: Want, s: State): Fate {
    CoupleFrontFates(FateOf(PinSource(s.meta, w.meta)), FateOf(PinSource(s.ep, w.ep)))
  }

  // ---- the steps of a start ----

  /** What a running start remembers: the decision, and the snapshots it took. */
  datatype Start = Start(fate: Fate, metaFrom: Option<(Source, Fate)>, epFrom: Option<(Source, Fate)>,
                         metaSnap: Contents, epSnap: Contents)

  /** Where the process is. `flags` says of each row written whether it landed; `failed` says some write did not. */
  datatype Proc =
    | Down
    | PreparingMeta(st: Start)
    | PreparingEp(st: Start)
    | Loading(st: Start)
    | WritingRows(fronts: seq<FrontCopy>, flags: seq<bool>)
    | WritingMetas(fronts: seq<FrontCopy>, flags: seq<bool>, next: nat, failed: bool)
    | UnparkingMeta
    | UnparkingEp
    | Up

  datatype System = System(pins: State, proc: Proc)

  /** One step, or the death of the process. `choice` is whether a write lands, or which map is created first. */
  datatype Event = Tick(choice: bool) | Crash

  /** One pin operation of preparing a map; the second part says whether preparing is over. */
  function Prepare(p: Pins, from: Option<(Source, Fate)>, fate: Fate, wanted: MapShape): (Pins, bool) {
    if from.None? || fate.Keep? then (p, true)
    else if from.value.0.Plain? then
      if fate.Migrate? then (Pins(None, p.plain), true) else (p.(plain := None), true)
    else if fate.Migrate? then
      if p.plain.Some? && !Matches(p.plain.value.shape, wanted) then (p.(plain := None), true) else (p, true)
    else if p.parked.Some? then (p.(parked := None), false)
    else (p.(plain := None), true)
  }

  /** What reading the source pin yields; only a migration reads it. */
  function Snapshot(p: Pins, from: Option<(Source, Fate)>, fate: Fate): Contents {
    var pin := if from.Some? && from.value.0.Migrating? then p.parked else p.plain;
    if fate.Migrate? && pin.Some? then pin.value.contents else map[]
  }

  /** The load creates a map only where no pin is. */
  function Create(p: Pins, wanted: MapShape): Pins {
    if p.plain.Some? then p else p.(plain := Some(PinMap(wanted, map[])))
  }

  predicate Landed(p: Pins, e: Entry, lands: bool) {
    lands || (p.plain.Some? && e.key in p.plain.value.contents)
  }

  /** A write that only fills a gap. */
  function Put(p: Pins, e: Entry, lands: bool): Pins {
    if p.plain.None? || e.key in p.plain.value.contents || !lands then p
    else p.(plain := Some(p.plain.value.(contents := p.plain.value.contents[e.key := e.value])))
  }

  ghost function FrontsOf(w: Want, st: Start): seq<FrontCopy> {
    PlanMaps(st.metaSnap, st.epSnap, Caps(w.meta.maxEntries, w.ep.maxEntries))
  }

  /** How many rows are written before those of front `n`. */
  ghost function RowStart(fronts: seq<FrontCopy>, n: nat): nat
    requires n <= |fronts|
  {
    |AllRows(fronts[..n])|
  }

  ghost predicate RowsLanded(fronts: seq<FrontCopy>, n: nat, flags: seq<bool>)
    requires n < |fronts|
  {
    var start := RowStart(fronts, n);
    start + |fronts[n].rows| <= |flags| && false !in flags[start..start + |fronts[n].rows|]
  }

  function Begin(w: Want, s: State): Start {
    Start(SharedFate(w, s), PinSource(s.meta, w.meta), PinSource(s.ep, w.ep), map[], map[])
  }

  function PrepareMeta(w: Want, s: State, st: Start): System {
    var (p, over) := Prepare(s.meta, st.metaFrom, st.fate, w.meta);
    System(s.(meta := p),
           if over then PreparingEp(st.(metaSnap := Snapshot(s.meta, st.metaFrom, st.fate))) else PreparingMeta(st))
  }

  function PrepareEp(w: Want, s: State, st: Start): System {
    var (p, over) := Prepare(s.ep, st.epFrom, st.fate, w.ep);
    System(s.(ep := p), if over then Loading(st.(epSnap := Snapshot(s.ep, st.epFrom, st.fate))) else PreparingEp(st))
  }

  /** Creates the missing maps one at a time; then the entries, if there are any, are written. */
  ghost function Load(w: Want, s: State, st: Start, metaFirst: bool): System {
    if s.meta.plain.None? && (metaFirst || s.ep.plain.Some?) then System(s.(meta := Create(s.meta, w.meta)), Loading(st))
    else if s.ep.plain.None? then System(s.(ep := Create(s.ep, w.ep)), Loading(st))
    else System(s, if st.fate.Migrate? then WritingRows(FrontsOf(w, st), []) else Up)
  }

  ghost function WriteRow(s: State, fronts: seq<FrontCopy>, flags: seq<bool>, lands: bool): System {
    var rows, n := AllRows(fronts), |flags|;
    if n < |rows| then
      System(s.(ep := Put(s.ep, rows[n], lands)), WritingRows(fronts, flags + [Landed(s.ep, rows[n], lands)]))
    else System(s, WritingMetas(fronts, flags, 0, false in flags))
  }

  /** Only fronts whose rows all landed get their meta row; a start with a failed write ends there. */
  ghost function WriteMeta(s: State, fronts: seq<FrontCopy>, flags: seq<bool>, n: nat, failed: bool, lands: bool): System {
    if n < |fronts| then
      if RowsLanded(fronts, n, flags) then
        System(s.(meta := Put(s.meta, fronts[n].meta, lands)),
               WritingMetas(fronts, flags, n + 1, failed || !Landed(s.meta, fronts[n].meta, lands)))
      else System(s, WritingMetas(fronts, flags, n + 1, failed))
    else System(s, if failed then Down else UnparkingMeta)
  }

  ghost function Step(w: Want, sys: System, choice: bool): System {
    var s := sys.pins;
    match sys.proc
    case Down => System(s, PreparingMeta(Begin(w, s)))
    case PreparingMeta(st) => PrepareMeta(w, s, st)
    case PreparingEp(st) => PrepareEp(w, s, st)
    case Loading(st) => Load(w, s, st, choice)
    case WritingRows(fronts, flags) => WriteRow(s, fronts, flags, choice)
    case WritingMetas(fronts, flags, n, failed) => WriteMeta(s, fronts, flags, n, failed, choice)
    case UnparkingMeta => System(s.(meta := s.meta.(parked := None)), UnparkingEp)
    case UnparkingEp => System(s.(ep := s.ep.(parked := None)), Up)
    case Up => sys
  }

  ghost function After(w: Want, sys: System, events: seq<Event>): System {
    if events == [] then sys
    else
      var before := After(w, sys, events[..|events| - 1]);
      match events[|events| - 1]
      case Tick(choice) => Step(w, before, choice)
      case Crash => System(before.pins, Down)
  }

  // ---- what the pins should end as ----

  /** The pins the first start finds: no migration is under way. */
  predicate Untouched(init: State) {
    init.meta.parked.None? && init.ep.parked.None?
  }

  predicate BothPinned(s: State) {
    s.meta.plain.Some? && s.ep.plain.Some?
  }

  /** The fronts an uninterrupted migration of `init` carries. */
  ghost function Carried(w: Want, init: State): seq<FrontCopy>
    requires BothPinned(init)
  {
    PlanMaps(init.meta.plain.value.contents, init.ep.plain.value.contents, Caps(w.meta.maxEntries, w.ep.maxEntries))
  }

  ghost function CarriedMetas(w: Want, init: State): Contents
    requires BothPinned(init)
  {
    Picked(init.meta.plain.value.contents, CopiedMetas(Carried(w, init)))
  }

  ghost function CarriedRows(w: Want, init: State): Contents
    requires BothPinned(init)
  {
    Picked(init.ep.plain.value.contents, AllRows(Carried(w, init)))
  }

  function Unparked(meta: PinMap, ep: PinMap): State {
    State(Pins(Some(meta), None), Pins(Some(ep), None))
  }

  /** The entries of one map mean the same in the other. */
  predicate SameLayout(a: MapShape, b: MapShape) {
    a.mapType == b.mapType && a.keySize == b.keySize && a.valueSize == b.valueSize
  }

  predicate SameSize(a: MapShape, b: MapShape) {
    a.maxEntries == b.maxEntries && (a.mapFlags % 2 == 1 <==> b.mapFlags % 2 == 1)
  }

  /** `a`'s entries can become those of a map shaped `b`: nothing changes, or a HASH or LRU_HASH map gets another size. */
  predicate CanBecome(a: MapShape, b: MapShape) {
    SameLayout(a, b) && (SameSize(a, b) || a.mapType in {1, 9})
  }

  /**
   * What the pins end as, told by their shapes alone: both stay if neither changes, both carry
   * their fronts over if the entries of both can, and anything else starts both empty.
   */
  ghost function Outcome(w: Want, init: State): State {
    if !BothPinned(init) then Unparked(PinMap(w.meta, map[]), PinMap(w.ep, map[]))
    else
      var meta, ep := init.meta.plain.value.shape, init.ep.plain.value.shape;
      if SameLayout(meta, w.meta) && SameSize(meta, w.meta) && SameLayout(ep, w.ep) && SameSize(ep, w.ep) then init
      else if CanBecome(meta, w.meta) && CanBecome(ep, w.ep)
      then Unparked(PinMap(w.meta, CarriedMetas(w, init)), PinMap(w.ep, CarriedRows(w, init)))
      else Unparked(PinMap(w.meta, map[]), PinMap(w.ep, map[]))
  }
}
