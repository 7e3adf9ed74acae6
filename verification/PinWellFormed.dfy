/** A migration hands the reconciler maps it can start from: read as records, they are well-formed if they were at first. */
module PinWellFormed {
  import opened Types
  import opened RawEntries
  import opened RestorePlan
  import opened PinMachine
  import opened PinSafety
  import FP = FrontPlan
  import FS = FrontSafety

  /** `r` is what the raw meta rows say. */
  ghost predicate MetasDecode(metas: Contents, r: map<LbFrontKey, FrontMeta>) {
    && (forall k {:trigger DecodeFront(k)} :: k in metas && DecodeFront(k).Some? && DecodeMeta(metas[k]).Some? ==>
          DecodeFront(k).value in r && r[DecodeFront(k).value] == DecodeMeta(metas[k]).value)
    && (forall f :: f in r ==> |f.ip| == 16 && EncodeFront(f) in metas && DecodeMeta(metas[EncodeFront(f)]) == Some(r[f]))
  }

  /** `r` is what the raw endpoint rows say. */
  ghost predicate RowsDecode(rows: Contents, r: map<FrontEndpointKey, FrontEndpoint>) {
    && (forall k {:trigger DecodeEndpointKey(k)} :: k in rows && DecodeEndpointKey(k).Some? && DecodeEndpoint(rows[k]).Some? ==>
          DecodeEndpointKey(k).value in r && r[DecodeEndpointKey(k).value] == DecodeEndpoint(rows[k]).value)
    && (forall x :: x in r ==> |x.front.ip| == 16 && EncodeEndpointKey(x) in rows && DecodeEndpoint(rows[EncodeEndpointKey(x)]) == Some(r[x]))
  }

  /** A reader of the plain pins sees `m`. */
  ghost predicate Reads(s: State, m: FP.Maps) {
    MetasDecode(Held(s.meta.plain), m.meta) && RowsDecode(Held(s.ep.plain), m.eps)
  }

  lemma FrontKeyRoundTrip(f: LbFrontKey)
    requires |f.ip| == 16
    ensures DecodeFront(EncodeFront(f)) == Some(f)
  {
    FrontRoundTrip(f, []);
    assert EncodeFront(f) + [] == EncodeFront(f);
  }

  lemma FrontEncodingOf(k: Bytes, f: LbFrontKey)
    requires DecodeFront(k) == Some(f)
    ensures |f.ip| == 16 && k == EncodeFront(f)
  {
    FrontKeyRoundTrip(f);
    DecodeFrontInjective(k, EncodeFront(f));
  }

  lemma {:induction false} MetasCanBeRead(metas: Contents) returns (r: map<LbFrontKey, FrontMeta>)
    ensures MetasDecode(metas, r)
    decreases metas.Keys
  {
    r := map[];
    if metas != map[] {
      var k :| k in metas;
      assert k !in Remove(metas, k) && Remove(metas, k).Keys <= metas.Keys;
      r := MetasCanBeRead(Remove(metas, k));
      if DecodeFront(k).Some? && DecodeMeta(metas[k]).Some? {
        var f := DecodeFront(k).value;
        FrontEncodingOf(k, f);
        forall x | x in metas && DecodeFront(x) == Some(f) ensures x == k {
          DecodeFrontInjective(x, k);
        }
        r := r[f := DecodeMeta(metas[k]).value];
      }
    }
  }

  lemma {:induction false} RowsCanBeRead(rows: Contents) returns (r: map<FrontEndpointKey, FrontEndpoint>)
    ensures RowsDecode(rows, r)
    decreases rows.Keys
  {
    r := map[];
    if rows != map[] {
      var k :| k in rows;
      assert k !in Remove(rows, k) && Remove(rows, k).Keys <= rows.Keys;
      r := RowsCanBeRead(Remove(rows, k));
      if DecodeEndpointKey(k).Some? && DecodeEndpoint(rows[k]).Some? {
        var x := DecodeEndpointKey(k).value;
        EncodingOf(k, x);
        forall y | y in rows && DecodeEndpointKey(y) == Some(x) ensures y == k {
          DecodeEndpointKeyInjective(y, k);
        }
        r := r[x := DecodeEndpoint(rows[k]).value];
      }
    }
  }

  /** Any pins can be read. */
  lemma PinsCanBeRead(s: State) returns (m: FP.Maps)
    ensures Reads(s, m)
  {
    var metas := MetasCanBeRead(Held(s.meta.plain));
    var rows := RowsCanBeRead(Held(s.ep.plain));
    m := FP.Maps(metas, rows);
  }

  /** A row of a visible front, as at first. */
  lemma RawRowStays(w: Want, init: State, s: State, k: Bytes, v: FrontMeta, key: FrontEndpointKey)
    requires BothPinned(init) && MigratePins(w, init, s) && s != init && k in Held(s.meta.plain)
    requires DecodeFront(k).Some? && DecodeMeta(Held(s.meta.plain)[k]) == Some(v) && key.slot < v.count
    requires key == EndpointKey(DecodeFront(k).value, v.generation, key.slot) && |key.front.ip| == 16
    requires EncodeEndpointKey(key) in Held(init.ep.plain)
    ensures EncodeEndpointKey(key) in Held(s.ep.plain)
    ensures Held(s.ep.plain)[EncodeEndpointKey(key)] == Held(init.ep.plain)[EncodeEndpointKey(key)]
  {
    VisibleFindsAsAtFirst(w, init, s, k);
    VisibleIsBacked(w, init, s);
    CarriedIsFound(w, init);
    assert FindsRow(Held(init.ep.plain), key.front, key.generation, key.slot);
  }

  lemma SameRawSameRow(a: Contents, ra: map<FrontEndpointKey, FrontEndpoint>, b: Contents, rb: map<FrontEndpointKey, FrontEndpoint>, key: FrontEndpointKey)
    requires RowsDecode(a, ra) && RowsDecode(b, rb) && key in ra && |key.front.ip| == 16
    requires EncodeEndpointKey(key) in b && b[EncodeEndpointKey(key)] == a[EncodeEndpointKey(key)]
    ensures Lookup(rb, key) == Lookup(ra, key)
  {
    EndpointKeyRoundTrip(key);
    assert DecodeEndpointKey(EncodeEndpointKey(key)).Some?;
  }

  /** `f` has the same meta and the same live rows in both. */
  ghost predicate SameFront(a: FP.Maps, b: FP.Maps, f: LbFrontKey) {
    && f in a.meta && f in b.meta && a.meta[f] == b.meta[f]
    && forall i: u16 :: i < a.meta[f].count && EndpointKey(f, a.meta[f].generation, i) in a.eps ==>
         Lookup(b.eps, EndpointKey(f, a.meta[f].generation, i)) == Lookup(a.eps, EndpointKey(f, a.meta[f].generation, i))
  }

  lemma SameFrontServes(a: FP.Maps, b: FP.Maps, f: LbFrontKey)
    requires SameFront(a, b, f) && FS.FrontOk(a, f)
    ensures FS.FrontOk(b, f) && FS.Serving(b, f) == FS.Serving(a, f)
  {
    var v := a.meta[f];
    forall i: u16 | i < v.count
      ensures EndpointKey(f, v.generation, i) in b.eps
      ensures b.eps[EndpointKey(f, v.generation, i)] == a.eps[EndpointKey(f, v.generation, i)]
    {
      assert EndpointKey(f, v.generation, i) in a.eps;
    }
  }

  lemma FrontAsAtFirst(w: Want, init: State, s: State, m0: FP.Maps, m: FP.Maps, f: LbFrontKey)
    requires BothPinned(init) && MigratePins(w, init, s) && s != init && Reads(init, m0) && Reads(s, m) && f in m.meta
    ensures SameFront(m0, m, f)
  {
    var k, v := EncodeFront(f), m.meta[f];
    FrontKeyRoundTrip(f);
    VisibleFindsAsAtFirst(w, init, s, k);
    assert DecodeFront(k).Some? && k in Held(init.meta.plain);
    forall i: u16 | i < v.count && EndpointKey(f, v.generation, i) in m0.eps
      ensures Lookup(m.eps, EndpointKey(f, v.generation, i)) == Lookup(m0.eps, EndpointKey(f, v.generation, i))
    {
      var key := EndpointKey(f, v.generation, i);
      RawRowStays(w, init, s, k, v, key);
      SameRawSameRow(Held(init.ep.plain), m0.eps, Held(s.ep.plain), m.eps, key);
    }
  }

  /** Every front of `b` is one of `a`'s, serving the same. */
  ghost predicate Inherits(a: FP.Maps, b: FP.Maps) {
    forall f :: f in b.meta ==> SameFront(a, b, f)
  }

  lemma InheritsWellFormed(a: FP.Maps, b: FP.Maps)
    requires Inherits(a, b) && FS.WellFormed(a)
    ensures FS.WellFormed(b)
    ensures forall f :: f in b.meta ==> f in a.meta && FS.Serving(b, f) == FS.Serving(a, f)
  {
    forall f | f in b.meta ensures FS.FrontOk(b, f) && f in a.meta && FS.Serving(b, f) == FS.Serving(a, f) {
      assert FS.FrontOk(a, f);
      SameFrontServes(a, b, f);
    }
    forall f ensures FS.FrontOk(b, f) {
      if f in b.meta {
        assert FS.FrontOk(b, f);
      }
    }
  }

  /** At every moment of every run, what a reader sees of the pins is inherited from those found at first. */
  lemma PinsInherit(w: Want, init: State, s: State, m0: FP.Maps, m: FP.Maps)
    requires Untouched(init) && RunPins(w, init, s) && s != init && Reads(init, m0) && Reads(s, m)
    ensures Inherits(m0, m)
  {
    forall f | f in m.meta ensures SameFront(m0, m, f) {
      if Migrates(w, init) {
        FrontAsAtFirst(w, init, s, m0, m, f);
      } else {
        assert EncodeFront(f) in Held(s.meta.plain);
        NothingVisible(w, init, s);
        assert false;
      }
    }
  }

  lemma NothingVisible(w: Want, init: State, s: State)
    requires ResetPins(w, init, s) && s != init
    ensures Held(s.meta.plain) == map[]
  {
  }

  /** The pins are ones a run from `init` can show. */
  ghost predicate RunPins(w: Want, init: State, s: State) {
    (Keeps(w, init) && s == init) || (Resets(w, init) && ResetPins(w, init, s)) || (Migrates(w, init) && MigratePins(w, init, s))
  }

  lemma RunShows(w: Want, init: State, events: seq<Event>)
    requires Untouched(init)
    ensures RunPins(w, init, After(w, System(init, Down), events).pins)
  {
    InvHolds(w, init, events);
  }

  /** What the same pins read as is the same. */
  lemma OneReading(s: State, a: FP.Maps, b: FP.Maps)
    requires Reads(s, a) && Reads(s, b)
    ensures Inherits(a, b)
  {
    forall f | f in b.meta ensures SameFront(a, b, f) {
      FrontKeyRoundTrip(f);
      assert DecodeFront(EncodeFront(f)).Some?;
      var v := b.meta[f];
      forall i: u16 | i < v.count && EndpointKey(f, v.generation, i) in a.eps
        ensures Lookup(b.eps, EndpointKey(f, v.generation, i)) == Lookup(a.eps, EndpointKey(f, v.generation, i))
      {
        SameRawSameRow(Held(s.ep.plain), a.eps, Held(s.ep.plain), b.eps, EndpointKey(f, v.generation, i));
      }
    }
  }

  lemma ReadingIsWellFormed(w: Want, init: State, events: seq<Event>, m0: FP.Maps, m: FP.Maps)
    requires Untouched(init) && Reads(init, m0) && FS.WellFormed(m0) && Reads(After(w, System(init, Down), events).pins, m)
    ensures FS.WellFormed(m) && SameServing(m0, m)
  {
    var s := After(w, System(init, Down), events).pins;
    RunShows(w, init, events);
    if s == init {
      OneReading(s, m0, m);
    } else {
      PinsInherit(w, init, s, m0, m);
    }
    InheritsWellFormed(m0, m);
  }

  /** Every front of `b` serves what it serves in `a`. */
  ghost predicate SameServing(a: FP.Maps, b: FP.Maps)
    requires FS.WellFormed(b)
  {
    forall f :: f in b.meta ==> f in a.meta && FS.FrontOk(a, f) && FS.FrontOk(b, f) && FS.Serving(b, f) == FS.Serving(a, f)
  }

  /**
   * From pins that read as well-formed maps, the pins read as well-formed maps at every moment of
   * every run, so the swap's theorems apply to whatever a start leaves; a front that is visible serves
   * what it served at first.
   */
  lemma MigrationKeepsWellFormed(w: Want, init: State, events: seq<Event>, m0: FP.Maps) returns (m: FP.Maps)
    requires Untouched(init) && Reads(init, m0) && FS.WellFormed(m0)
    ensures Reads(After(w, System(init, Down), events).pins, m)
    ensures forall x :: Reads(After(w, System(init, Down), events).pins, x) ==> FS.WellFormed(x) && SameServing(m0, x)
  {
    m := PinsCanBeRead(After(w, System(init, Down), events).pins);
    forall x | Reads(After(w, System(init, Down), events).pins, x) ensures FS.WellFormed(x) && SameServing(m0, x) {
      ReadingIsWellFormed(w, init, events, m0, x);
    }
  }
}
