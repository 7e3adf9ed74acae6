/**
 * The same starts as seen by any other pinned map: its fate is its own, and a
 * migration carries its first entries in key order, up to the new cap.
 */
module SinglePin {
  import opened Types
  import opened RawEntries
  import opened RestorePlan
  import ByteOrder
  import PM = PinMachine
  import PS = PinSafety

  type MapShape = PM.MapShape
  type Pins = PM.Pins
  type Event = PM.Event

  datatype Proc =
    | Down
    | Preparing(from: Option<(PM.Source, PM.Fate)>)
    | Loading(snapshot: Option<Contents>)
    | Writing(entries: seq<Entry>, next: nat, failed: bool)
    | Unparking
    | Up

  datatype System = System(pins: Pins, proc: Proc)

  function FateOf(from: Option<(PM.Source, PM.Fate)>): PM.Fate {
    if from.Some? then from.value.1 else PM.Keep
  }

  /** The first `cap` entries in key order. */
  ghost function Truncated(m: Contents, cap: nat): seq<Entry> {
    var s := Listing(m);
    if |s| <= cap then s else s[..cap]
  }

  ghost function Step(w: MapShape, sys: System, choice: bool): System {
    var p := sys.pins;
    match sys.proc
    case Down => System(p, Preparing(PM.PinSource(p, w)))
    case Preparing(from) =>
      var fate := FateOf(from);
      var (q, over) := PM.Prepare(p, from, fate, w);
      System(q, if !over then sys.proc
                else Loading(if fate.Migrate? then Some(PM.Snapshot(p, from, fate)) else None))
    case Loading(snapshot) =>
      if p.plain.None? then System(PM.Create(p, w), sys.proc)
      else System(p, if snapshot.Some? then Writing(Truncated(snapshot.value, w.maxEntries), 0, false) else Up)
    case Writing(entries, n, failed) =>
      if n < |entries| then
        System(PM.Put(p, entries[n], choice), Writing(entries, n + 1, failed || !PM.Landed(p, entries[n], choice)))
      else System(p, if failed then Down else Unparking)
    case Unparking => System(p.(parked := None), Up)
    case Up => sys
  }

  ghost function After(w: MapShape, sys: System, events: seq<Event>): System {
    if events == [] then sys
    else
      var before := After(w, sys, events[..|events| - 1]);
      match events[|events| - 1]
      case Tick(choice) => Step(w, before, choice)
      case Crash => System(before.pins, Down)
  }

  function New(w: MapShape, contents: Contents): Pins {
    PM.Pins(Some(PM.PinMap(w, contents)), None)
  }

  ghost function Carried(w: MapShape, init: Pins): Contents
    requires init.plain.Some?
  {
    Picked(init.plain.value.contents, Truncated(init.plain.value.contents, w.maxEntries))
  }

  /** What an undisturbed start leaves, told by the shape found. */
  ghost function Outcome(w: MapShape, init: Pins): Pins {
    if init.plain.None? then New(w, map[])
    else
      var shape := init.plain.value.shape;
      if PM.SameLayout(shape, w) && PM.SameSize(shape, w) then init
      else if PM.CanBecome(shape, w) then New(w, Carried(w, init))
      else New(w, map[])
  }

  // ---- what every step keeps ----

  /** Parked, with the new map missing, empty or partly filled. */
  ghost predicate Copying(w: MapShape, init: Pins, p: Pins) {
    init.plain.Some? && PM.PinFate(init.plain.value.shape, w).Migrate? &&
    p.parked == init.plain && PS.Filling(p.plain, w, Carried(w, init))
  }

  /** Nothing parked: as found, finished, or between dropping a map and creating it empty. */
  ghost predicate Settled(w: MapShape, init: Pins, p: Pins) {
    p.parked.None? && (p == init || p == Outcome(w, init) || (p.plain.None? && Outcome(w, init) == New(w, map[])))
  }

  ghost predicate Inv(w: MapShape, init: Pins, sys: System) {
    var p := sys.pins;
    match sys.proc
    case Down => Settled(w, init, p) || Copying(w, init, p)
    case Preparing(from) => (Settled(w, init, p) || Copying(w, init, p)) && from == PM.PinSource(p, w)
    case Loading(snapshot) =>
      if snapshot.Some? then Copying(w, init, p) && snapshot.value == PS.Held(init.plain)
      else Settled(w, init, p) && (p.plain.Some? ==> p == Outcome(w, init))
    case Writing(entries, n, failed) =>
      Copying(w, init, p) && p.plain.Some? && entries == Truncated(PS.Held(init.plain), w.maxEntries) &&
      n <= |entries| && (!failed ==> PS.FirstIn(entries, n, PS.Held(p.plain)))
    case Unparking => Copying(w, init, p) && p.plain == Some(PM.PinMap(w, Carried(w, init)))
    case Up => p == Outcome(w, init)
  }

  lemma PrepareStep(w: MapShape, init: Pins, sys: System, choice: bool)
    requires init.parked.None? && Inv(w, init, sys) && sys.proc.Preparing?
    ensures Inv(w, init, Step(w, sys, choice))
  {
  }

  lemma TruncatedAre(m: Contents, cap: nat)
    ensures forall e :: e in Truncated(m, cap) ==> e.key in m && m[e.key] == e.value
  {
    ListingLists(m);
  }

  lemma WriteStep(w: MapShape, init: Pins, p: Pins, n: nat, failed: bool, choice: bool)
    requires init.plain.Some? && init.parked.None? && n < |Truncated(PS.Held(init.plain), w.maxEntries)|
    requires var entries := Truncated(PS.Held(init.plain), w.maxEntries); Inv(w, init, System(p, Writing(entries, n, failed)))
    ensures var entries := Truncated(PS.Held(init.plain), w.maxEntries);
            Inv(w, init, System(PM.Put(p, entries[n], choice), Writing(entries, n + 1, failed || !PM.Landed(p, entries[n], choice))))
  {
    var entries := Truncated(PS.Held(init.plain), w.maxEntries);
    TruncatedAre(PS.Held(init.plain), w.maxEntries);
    assert entries[n] in entries;
    PS.PutFills(p, entries[n], choice, w, Carried(w, init));
  }

  lemma WrittenAll(w: MapShape, init: Pins, p: Pins, entries: seq<Entry>)
    requires init.parked.None? && Inv(w, init, System(p, Writing(entries, |entries|, false)))
    ensures Inv(w, init, System(p, Unparking))
  {
    PS.FullPart(PS.Held(p.plain), init.plain.value.contents, entries);
  }

  lemma {:induction false} InvHolds(w: MapShape, init: Pins, events: seq<Event>)
    requires init.parked.None?
    ensures Inv(w, init, After(w, System(init, Down), events))
  {
    if events != [] {
      InvHolds(w, init, events[..|events| - 1]);
      var before := After(w, System(init, Down), events[..|events| - 1]);
      match events[|events| - 1]
      case Tick(choice) =>
        if before.proc.Preparing? {
          PrepareStep(w, init, before, choice);
        } else if before.proc.Writing? {
          if before.proc.next < |before.proc.entries| {
            WriteStep(w, init, before.pins, before.proc.next, before.proc.failed, choice);
          } else if !before.proc.failed {
            WrittenAll(w, init, before.pins, before.proc.entries);
          }
        }
      case Crash =>
    }
  }

  /** However often starts died or failed before, a completed one leaves exactly the outcome. */
  lemma CompletedIsOutcome(w: MapShape, init: Pins, events: seq<Event>)
    requires init.parked.None? && After(w, System(init, Down), events).proc.Up?
    ensures After(w, System(init, Down), events).pins == Outcome(w, init)
  {
    InvHolds(w, init, events);
  }

  /** What is carried are the smallest keys: as many as fit, and all of them if they all fit. */
  lemma CarriedAreTheFirst(w: MapShape, init: Pins)
    requires init.plain.Some?
    ensures var m, c := init.plain.value.contents, Carried(w, init);
            c.Keys <= m.Keys && |Truncated(m, w.maxEntries)| == |c| <= w.maxEntries &&
            (c.Keys < m.Keys ==> |c| == w.maxEntries) &&
            forall k, j :: k in c && j in m && j !in c ==> ByteOrder.Less(k, j)
  {
    var m := init.plain.value.contents;
    var s, t, c := Listing(m), Truncated(m, w.maxEntries), Carried(w, init);
    ListingLists(m);
    TruncatedAre(m, w.maxEntries);
    forall k, j | k in c && j in m && j !in c ensures ByteOrder.Less(k, j) {
      var a :| 0 <= a < |t| && t[a] == Entry(k, m[k]);
      assert Entry(j, m[j]) in s;
      var b :| 0 <= b < |s| && s[b] == Entry(j, m[j]);
      if b < |t| {
        EarlyIsKept(m, w.maxEntries, b);
        assert false;
      }
    }
    ListingDistinct(m);
    CountKeys(t, c);
    if |s| <= w.maxEntries {
      assert c == m;
    }
  }

  lemma EarlyIsKept(m: Contents, cap: nat, b: nat)
    requires b < |Truncated(m, cap)|
    ensures Listing(m)[b] in Truncated(m, cap)
  {
    assert Truncated(m, cap)[b] == Listing(m)[b];
  }

  lemma ListedIsNotEmpty(s: seq<Entry>, m: Contents, k: Bytes)
    requires k in m && forall e :: e in s <==> e.key in m && m[e.key] == e.value
    ensures s != []
  {
    assert Entry(k, m[k]) in s;
  }

  lemma {:induction false} CountKeys(s: seq<Entry>, m: Contents)
    requires DistinctKeys(s) && forall e :: e in s <==> e.key in m && m[e.key] == e.value
    ensures |s| == |m|
  {
    if s == [] {
      if m != map[] {
        var k :| k in m;
        ListedIsNotEmpty(s, m, k);
        assert false;
      }
    } else {
      var last := s[|s| - 1];
      var rest := map k | k in m && k != last.key :: m[k];
      assert s == s[..|s| - 1] + [last];
      CountKeys(s[..|s| - 1], rest);
      assert last in s;
      assert m.Keys == rest.Keys + {last.key};
      assert |m| == |m.Keys| && |rest| == |rest.Keys|;
    }
  }
}
