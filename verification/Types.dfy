/** The map keys and values shared by the dataplane and the controller. */
module Types {
  type byte = x: int | 0 <= x < 0x100
  type u16 = x: int | 0 <= x < 0x1_0000
  type u32 = x: int | 0 <= x < 0x1_0000_0000

  datatype Option<+T> = None | Some(value: T)

  /** `FRONT_META`'s key. */
  datatype LbFrontKey = LbFrontKey(ip: seq<byte>, port: u16, proto: byte, pad: byte)

  datatype LbFrontBackend = LbFrontBackend(backendNodeIp: seq<byte>, podIp: seq<byte>)

  /** `FRONT_META`'s value: the live generation of a front, and how many of its slots count. */
  datatype FrontMeta = FrontMeta(generation: u32, count: u16, flags: u16, localCount: u16)

  /** `FRONT_ENDPOINTS`' key: one slot of one generation of a front. */
  datatype FrontEndpointKey = FrontEndpointKey(front: LbFrontKey, generation: u32, slot: u16, pad: u16)

  /** `FRONT_ENDPOINTS`' value. */
  datatype FrontEndpoint = FrontEndpoint(backend: LbFrontBackend, targetPort: u16, flags: u16)

  /** `flags & ENDPOINT_FLAG_IS_LOCAL != 0`, with that flag being bit 0. */
  predicate IsLocal(ep: FrontEndpoint) {
    ep.flags % 2 == 1
  }

  /** The key a writer or a reader builds: the padding is always zero. */
  function EndpointKey(front: LbFrontKey, generation: u32, slot: u16): FrontEndpointKey {
    FrontEndpointKey(front, generation, slot, 0)
  }

  function WrappingAdd1(g: u32): u32 {
    (g + 1) % 0x1_0000_0000
  }

  function WrappingSub1(g: u32): u32 {
    (g - 1) % 0x1_0000_0000
  }

  function Lookup<K, V>(m: map<K, V>, k: K): Option<V> {
    if k in m then Some(m[k]) else None
  }

  function Remove<K, V>(m: map<K, V>, k: K): map<K, V> {
    map x | x in m && x != k :: m[x]
  }

  ghost predicate NoDuplicates<T>(s: seq<T>) {
    forall i, j :: 0 <= i < j < |s| ==> s[i] != s[j]
  }

  /** `s` lists the elements of `keys`, each once: what iterating a hash map yields. */
  ghost predicate Enumerates<T(!new)>(s: seq<T>, keys: set<T>) {
    NoDuplicates(s) && forall x :: x in s <==> x in keys
  }
}

/** Byte strings compare as slices do: the first difference decides, a prefix is smaller. */
module ByteOrder {
  import opened Types

  predicate Less(a: seq<byte>, b: seq<byte>) {
    if b == [] then false
    else if a == [] then true
    else a[0] < b[0] || (a[0] == b[0] && Less(a[1..], b[1..]))
  }

  /** `i` is the first place where the two differ, or where the shorter one ends. */
  ghost predicate PartAt(a: seq<byte>, b: seq<byte>, i: int) {
    0 <= i <= |a| && i <= |b| && a[..i] == b[..i]
  }

  /** The two are the same up to some place, and there `a` ends first or has the smaller byte. */
  lemma {:induction false} LessIff(a: seq<byte>, b: seq<byte>)
    ensures Less(a, b) <==> exists i :: PartAt(a, b, i) && i < |b| && (i == |a| || a[i] < b[i])
  {
    if b == [] {
    } else if a == [] {
      assert PartAt(a, b, 0);
    } else {
      LessIff(a[1..], b[1..]);
      if a[0] == b[0] {
        if i :| PartAt(a[1..], b[1..], i) && i < |b| - 1 && (i == |a| - 1 || a[1..][i] < b[1..][i]) {
          OneMore(a, b, i);
        }
        if i :| PartAt(a, b, i) && i < |b| && (i == |a| || a[i] < b[i]) {
          OneLess(a, b, i);
        }
      } else {
        assert PartAt(a, b, 0);
        forall i | 0 < i <= |a| && i <= |b| ensures !PartAt(a, b, i) {
          assert a[..i][0] == a[0] && b[..i][0] == b[0];
        }
      }
    }
  }

  lemma OneMore(a: seq<byte>, b: seq<byte>, i: nat)
    requires a != [] && b != [] && a[0] == b[0] && PartAt(a[1..], b[1..], i)
    ensures PartAt(a, b, i + 1)
  {
    assert a[..i + 1] == [a[0]] + a[1..][..i] && b[..i + 1] == [b[0]] + b[1..][..i];
  }

  lemma OneLess(a: seq<byte>, b: seq<byte>, i: nat)
    requires a != [] && b != [] && a[0] == b[0] && PartAt(a, b, i) && i < |b| && (i == |a| || a[i] < b[i])
    ensures i > 0 && PartAt(a[1..], b[1..], i - 1)
  {
    assert a[1..][..i - 1] == a[..i][1..] && b[1..][..i - 1] == b[..i][1..];
  }

  lemma {:induction false} LessIrreflexive(a: seq<byte>)
    ensures !Less(a, a)
  {
    if a != [] {
      LessIrreflexive(a[1..]);
    }
  }

  lemma {:induction false} LessTotal(a: seq<byte>, b: seq<byte>)
    ensures a == b || Less(a, b) || Less(b, a)
  {
    if a != [] && b != [] && a[0] == b[0] {
      LessTotal(a[1..], b[1..]);
      assert a == [a[0]] + a[1..] && b == [b[0]] + b[1..];
    }
  }

  lemma {:induction false} LessTransitive(a: seq<byte>, b: seq<byte>, c: seq<byte>)
    requires Less(a, b) && Less(b, c)
    ensures Less(a, c)
  {
    if a != [] && a[0] == b[0] == c[0] {
      LessTransitive(a[1..], b[1..], c[1..]);
    }
  }

  ghost predicate Increasing(keys: seq<seq<byte>>) {
    forall i, j :: 0 <= i < j < |keys| ==> Less(keys[i], keys[j])
  }

  lemma HeadIn(keys: seq<seq<byte>>)
    requires keys != []
    ensures keys[0] in keys
  {
  }

  /** There is only one increasing list of a set of byte strings. */
  lemma {:induction false} OneIncreasingList(a: seq<seq<byte>>, b: seq<seq<byte>>)
    requires Increasing(a) && Increasing(b) && forall ip :: ip in a <==> ip in b
    ensures a == b
  {
    if a == [] {
      if b != [] {
        HeadIn(b);
        assert false;
      }
    } else {
      HeadIn(a);
      assert a[0] in b;
      HeadIn(b);
      var i :| 0 <= i < |b| && b[i] == a[0];
      var j :| 0 <= j < |a| && a[j] == b[0];
      if i > 0 && j > 0 {
        LessTransitive(a[0], b[0], a[0]);
        LessIrreflexive(a[0]);
      }
      forall ip ensures ip in a[1..] <==> ip in b[1..] {
        LessIrreflexive(a[0]);
        assert ip in a <==> ip == a[0] || ip in a[1..];
        assert ip in b <==> ip == b[0] || ip in b[1..];
      }
      OneIncreasingList(a[1..], b[1..]);
    }
  }
}

/** Integers as the bytes the maps store: least significant first. */
module LittleEndian {
  import opened Types

  function U16At(b: seq<byte>, i: nat): u16
    requires i + 2 <= |b|
  {
    var lo: int, hi: int := b[i], b[i + 1];
    lo + 0x100 * hi
  }

  function U32At(b: seq<byte>, i: nat): u32
    requires i + 4 <= |b|
  {
    var lo: int, hi: int := U16At(b, i), U16At(b, i + 2);
    lo + 0x1_0000 * hi
  }

  lemma U16AtInjective(a: seq<byte>, b: seq<byte>, i: nat)
    requires i + 2 <= |a| && i + 2 <= |b| && U16At(a, i) == U16At(b, i)
    ensures a[i] == b[i] && a[i + 1] == b[i + 1]
  {
  }

  lemma U32AtInjective(a: seq<byte>, b: seq<byte>, i: nat)
    requires i + 4 <= |a| && i + 4 <= |b| && U32At(a, i) == U32At(b, i)
    ensures a[i] == b[i] && a[i + 1] == b[i + 1] && a[i + 2] == b[i + 2] && a[i + 3] == b[i + 3]
  {
    U16AtInjective(a, b, i);
    U16AtInjective(a, b, i + 2);
  }

  function Bytes16(x: u16): (b: seq<byte>)
    ensures |b| == 2 && U16At(b, 0) == x
  {
    [x % 0x100, x / 0x100]
  }

  function Bytes32(x: u32): (b: seq<byte>)
    ensures |b| == 4 && U32At(b, 0) == x
  {
    Bytes16(x % 0x1_0000) + Bytes16(x / 0x1_0000)
  }
}
