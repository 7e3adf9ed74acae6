/** Map entries as raw bytes: how keys and values decode, and the order a whole map is read in. */
module RawEntries {
  import opened Types
  import opened ByteOrder
  import opened LittleEndian

  type Bytes = seq<byte>

  datatype Entry = Entry(key: Bytes, value: Bytes)

  // ---- decoding: little-endian records of a fixed size ----

  function FrontAt(b: Bytes): LbFrontKey
    requires 20 <= |b|
  {
    LbFrontKey(b[..16], U16At(b, 16), b[18], b[19])
  }

  function DecodeFront(b: Bytes): Option<LbFrontKey> {
    if |b| == 20 then Some(FrontAt(b)) else None
  }

  function DecodeMeta(b: Bytes): Option<FrontMeta> {
    if |b| == 12 then Some(FrontMeta(U32At(b, 0), U16At(b, 4), U16At(b, 6), U16At(b, 8))) else None
  }

  function DecodeEndpointKey(b: Bytes): Option<FrontEndpointKey> {
    if |b| == 28 then Some(FrontEndpointKey(FrontAt(b), U32At(b, 20), U16At(b, 24), U16At(b, 26))) else None
  }

  /** The value of an endpoint row: the two addresses, port, flags and four bytes of padding. */
  function DecodeEndpoint(b: Bytes): Option<FrontEndpoint> {
    if |b| == 40 then Some(FrontEndpoint(LbFrontBackend(b[..16], b[16..32]), U16At(b, 32), U16At(b, 34))) else None
  }

  lemma FrontAtInjective(a: Bytes, b: Bytes)
    requires 20 <= |a| && 20 <= |b| && FrontAt(a) == FrontAt(b)
    ensures a[..20] == b[..20]
  {
    forall i | 0 <= i < 20 ensures a[i] == b[i] {
      if i < 16 {
        assert a[..16][i] == b[..16][i];
      }
    }
  }

  /** No two raw keys are the same front. */
  lemma DecodeFrontInjective(a: Bytes, b: Bytes)
    requires DecodeFront(a).Some? && DecodeFront(a) == DecodeFront(b)
    ensures a == b
  {
    FrontAtInjective(a, b);
    assert a == a[..20] && b == b[..20];
  }

  /** No two raw keys are the same endpoint key, padding included. */
  lemma DecodeEndpointKeyInjective(a: Bytes, b: Bytes)
    requires DecodeEndpointKey(a).Some? && DecodeEndpointKey(a) == DecodeEndpointKey(b)
    ensures a == b
  {
    FrontAtInjective(a, b);
    U32AtInjective(a, b, 20);
    U16AtInjective(a, b, 24);
    U16AtInjective(a, b, 26);
    assert a[20..] == [a[20], a[21], a[22], a[23], a[24], a[25], a[26], a[27]];
    assert b[20..] == [b[20], b[21], b[22], b[23], b[24], b[25], b[26], b[27]];
    assert a == a[..20] + a[20..] && b == b[..20] + b[20..];
  }

  function EncodeFront(f: LbFrontKey): (b: Bytes)
    requires |f.ip| == 16
    ensures |b| == 20
  {
    f.ip + Bytes16(f.port) + [f.proto, f.pad]
  }

  /** The raw key of an endpoint slot. */
  function EncodeEndpointKey(k: FrontEndpointKey): (b: Bytes)
    requires |k.front.ip| == 16
    ensures |b| == 28
  {
    EncodeFront(k.front) + Bytes32(k.generation) + Bytes16(k.slot) + Bytes16(k.pad)
  }

  lemma FrontRoundTrip(f: LbFrontKey, rest: Bytes)
    requires |f.ip| == 16
    ensures FrontAt(EncodeFront(f) + rest) == f
  {
    var b := EncodeFront(f) + rest;
    assert b[..16] == f.ip;
    assert b[16] == Bytes16(f.port)[0] && b[17] == Bytes16(f.port)[1];
  }

  /** Decoding undoes encoding. */
  lemma EndpointKeyRoundTrip(k: FrontEndpointKey)
    requires |k.front.ip| == 16
    ensures DecodeEndpointKey(EncodeEndpointKey(k)) == Some(k)
  {
    var b, g, s, p := EncodeEndpointKey(k), Bytes32(k.generation), Bytes16(k.slot), Bytes16(k.pad);
    FrontRoundTrip(k.front, g + s + p);
    assert b == EncodeFront(k.front) + (g + s + p);
    assert b[20] == g[0] && b[21] == g[1] && b[22] == g[2] && b[23] == g[3];
    assert U32At(b, 20) == U32At(g, 0);
    assert U16At(b, 24) == U16At(s, 0) by {
      assert b[24] == s[0] && b[25] == s[1];
    }
    assert U16At(b, 26) == U16At(p, 0) by {
      assert b[26] == p[0] && b[27] == p[1];
    }
  }

  /** A meta row: the generation, the count, the flags, the local count and two bytes of padding. */
  function EncodeMeta(m: FrontMeta, pad: Bytes): (b: Bytes)
    requires |pad| == 2
    ensures |b| == 12
  {
    Bytes32(m.generation) + Bytes16(m.count) + Bytes16(m.flags) + Bytes16(m.localCount) + pad
  }

  function EncodeEndpoint(e: FrontEndpoint, pad: Bytes): (b: Bytes)
    requires |e.backend.backendNodeIp| == 16 && |e.backend.podIp| == 16 && |pad| == 4
    ensures |b| == 40
  {
    e.backend.backendNodeIp + e.backend.podIp + Bytes16(e.targetPort) + Bytes16(e.flags) + pad
  }

  /** Decoding undoes encoding, whatever the padding holds. */
  lemma MetaRoundTrip(m: FrontMeta, pad: Bytes)
    requires |pad| == 2
    ensures DecodeMeta(EncodeMeta(m, pad)) == Some(m)
  {
    var b, g := EncodeMeta(m, pad), Bytes32(m.generation);
    assert b[0] == g[0] && b[1] == g[1] && b[2] == g[2] && b[3] == g[3];
    assert U32At(b, 0) == U32At(g, 0);
    assert b[4] == Bytes16(m.count)[0] && b[5] == Bytes16(m.count)[1];
    assert b[6] == Bytes16(m.flags)[0] && b[7] == Bytes16(m.flags)[1];
    assert b[8] == Bytes16(m.localCount)[0] && b[9] == Bytes16(m.localCount)[1];
  }

  lemma EndpointRoundTrip(e: FrontEndpoint, pad: Bytes)
    requires |e.backend.backendNodeIp| == 16 && |e.backend.podIp| == 16 && |pad| == 4
    ensures DecodeEndpoint(EncodeEndpoint(e, pad)) == Some(e)
  {
    var b := EncodeEndpoint(e, pad);
    assert b[..16] == e.backend.backendNodeIp && b[16..32] == e.backend.podIp;
    assert b[32] == Bytes16(e.targetPort)[0] && b[33] == Bytes16(e.targetPort)[1];
    assert b[34] == Bytes16(e.flags)[0] && b[35] == Bytes16(e.flags)[1];
  }

  /** So a raw key that decodes to `k` is the encoding of `k`. */
  lemma EncodingOf(b: Bytes, k: FrontEndpointKey)
    requires DecodeEndpointKey(b) == Some(k)
    ensures |k.front.ip| == 16 && b == EncodeEndpointKey(k)
  {
    EndpointKeyRoundTrip(k);
    DecodeEndpointKeyInjective(b, EncodeEndpointKey(k));
  }

  // ---- key order ----

  ghost predicate Sorted(s: seq<Entry>) {
    forall i, j :: 0 <= i < j < |s| ==> Less(s[i].key, s[j].key)
  }

  /** Inserting into a map kept in key order: an equal key is overwritten. */
  function Insert(s: seq<Entry>, e: Entry): seq<Entry> {
    if s == [] then [e]
    else if s[0].key == e.key then [e] + s[1..]
    else if Less(e.key, s[0].key) then [e] + s
    else [s[0]] + Insert(s[1..], e)
  }

  lemma {:induction false} InsertIs(s: seq<Entry>, e: Entry)
    requires Sorted(s)
    ensures Sorted(Insert(s, e))
    ensures forall x :: x in Insert(s, e) <==> x == e || (x in s && x.key != e.key)
  {
    if s != [] {
      assert s == [s[0]] + s[1..];
      if s[0].key == e.key {
        SortedAround(s[1..], e);
      } else if Less(e.key, s[0].key) {
        forall i | 0 <= i < |s| ensures Less(e.key, s[i].key) {
          if i > 0 {
            LessTransitive(e.key, s[0].key, s[i].key);
          }
        }
        SortedAround(s, e);
      } else {
        LessTotal(e.key, s[0].key);
        InsertIs(s[1..], e);
        var r := Insert(s[1..], e);
        forall i | 0 <= i < |r| ensures Less(s[0].key, r[i].key) {
          assert r[i] in r;
        }
        SortedAround(r, s[0]);
      }
    }
  }

  /** An entry before all of a sorted list keeps it sorted, and is none of its keys. */
  lemma SortedAround(s: seq<Entry>, e: Entry)
    requires Sorted(s) && forall i :: 0 <= i < |s| ==> Less(e.key, s[i].key)
    ensures Sorted([e] + s)
    ensures forall x :: x in s ==> x.key != e.key
  {
    LessIrreflexive(e.key);
  }

  lemma {:induction false} OneSortedList(a: seq<Entry>, b: seq<Entry>)
    requires Sorted(a) && Sorted(b) && forall e :: e in a <==> e in b
    ensures a == b
  {
    var ka, kb := Keys(a), Keys(b);
    forall k ensures k in ka <==> k in kb {
      if k in ka {
        var i :| 0 <= i < |ka| && ka[i] == k;
        assert a[i] in b;
        var j :| 0 <= j < |b| && b[j] == a[i];
        assert kb[j] == k;
      }
      if k in kb {
        var i :| 0 <= i < |kb| && kb[i] == k;
        assert b[i] in a;
        var j :| 0 <= j < |a| && a[j] == b[i];
        assert ka[j] == k;
      }
    }
    OneIncreasingList(ka, kb);
    forall i | 0 <= i < |a| ensures a[i] == b[i] {
      assert a[i] in b;
      var j :| 0 <= j < |b| && b[j] == a[i];
      assert kb[i] == ka[i];
      SameKeySamePlace(b, i, j);
    }
  }

  function Keys(s: seq<Entry>): seq<Bytes> {
    seq(|s|, i requires 0 <= i < |s| => s[i].key)
  }

  lemma SameKeySamePlace(s: seq<Entry>, i: nat, j: nat)
    requires Sorted(s) && i < |s| && j < |s| && s[i].key == s[j].key
    ensures i == j
  {
    LessIrreflexive(s[i].key);
  }

  lemma {:induction false} InsertGrows(s: seq<Entry>, e: Entry)
    requires forall i :: 0 <= i < |s| ==> s[i].key != e.key
    ensures |Insert(s, e)| == |s| + 1
  {
    if s != [] && !Less(e.key, s[0].key) {
      InsertGrows(s[1..], e);
    }
  }

  ghost predicate DistinctKeys(s: seq<Entry>) {
    forall i, j :: 0 <= i < j < |s| ==> s[i].key != s[j].key
  }

  lemma LessNeverEqual(s: seq<Entry>)
    requires Sorted(s)
    ensures DistinctKeys(s)
  {
    forall i, j | 0 <= i < j < |s| ensures s[i].key != s[j].key {
      LessIrreflexive(s[i].key);
    }
  }

  // ---- snapshots of a map ----

  type Contents = map<Bytes, Bytes>

  /** `s` lists the entries of `m` in key order: what reading a whole map yields. */
  ghost predicate Lists(s: seq<Entry>, m: Contents) {
    Sorted(s) && forall e :: e in s <==> e.key in m && m[e.key] == e.value
  }

  ghost function Listing(m: Contents): seq<Entry>
    decreases m.Keys
  {
    if m == map[] then []
    else
      var k :| k in m;
      assert k !in Remove(m, k) && Remove(m, k).Keys <= m.Keys;
      Insert(Listing(Remove(m, k)), Entry(k, m[k]))
  }

  lemma {:induction false} ListingLists(m: Contents)
    ensures Lists(Listing(m), m)
    decreases m.Keys
  {
    if m != map[] {
      var k :| k in m && Listing(m) == Insert(Listing(Remove(m, k)), Entry(k, m[k]));
      assert k !in Remove(m, k) && Remove(m, k).Keys <= m.Keys;
      ListingLists(Remove(m, k));
      InsertIs(Listing(Remove(m, k)), Entry(k, m[k]));
    }
  }

  lemma ListingIs(s: seq<Entry>, m: Contents)
    requires Lists(s, m)
    ensures s == Listing(m)
  {
    ListingLists(m);
    OneSortedList(s, Listing(m));
  }

  lemma ListingDistinct(m: Contents)
    ensures DistinctKeys(Listing(m))
  {
    ListingLists(m);
    LessNeverEqual(Listing(m));
  }
}
