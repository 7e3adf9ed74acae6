/** The keyed mixer: every step is a bijection, so no single word of the flow is ever lost. */
module FlowHash {
  const INITIAL: bv32 := 0x811C_9DC5

  function XorShift13(h: bv32): bv32 { h ^ (h >> 13) }
  function XorShift15(h: bv32): bv32 { h ^ (h >> 15) }
  function XorShift16(h: bv32): bv32 { h ^ (h >> 16) }
  function MulMix(h: bv32): bv32 { h * 0x9E37_79B1 }
  function MulA(h: bv32): bv32 { h * 0x85EB_CA6B }
  function MulB(h: bv32): bv32 { h * 0xC2B2_AE35 }
  function Xor(h: bv32, w: bv32): bv32 { h ^ w }

  /** `mix32`. */
  function Mix(h: bv32, w: bv32): bv32 {
    XorShift15(MulMix(Xor(h, w)))
  }

  function Finalize(h: bv32): bv32 {
    XorShift16(MulB(XorShift13(MulA(XorShift16(h)))))
  }

  function MixAll(words: seq<bv32>, n: nat): bv32
    requires n <= |words|
  {
    if n == 0 then INITIAL else Mix(MixAll(words, n - 1), words[n - 1])
  }

  function Hash(words: seq<bv32>): bv32 {
    Finalize(MixAll(words, |words|))
  }

  /** The seed in two halves, the two addresses as four words each, two 16-bit ports, the protocol. */
  datatype Flow = Flow(seedLow: bv32, seedHigh: bv32, client: seq<bv32>, clientPort: bv32, front: seq<bv32>, frontPort: bv32, proto: bv32)
  {
    predicate Valid() {
      |client| == 4 && |front| == 4 && clientPort <= 0xFFFF && frontPort <= 0xFFFF && proto <= 0xFF
    }
  }

  /** The thirteen things that tell one flow from another. */
  function Fields(f: Flow): (s: seq<bv32>)
    requires f.Valid()
    ensures |s| == 13
  {
    [f.seedLow, f.seedHigh, f.client[0], f.client[1], f.client[2], f.client[3], f.front[0], f.front[1], f.front[2], f.front[3],
     f.clientPort, f.frontPort, f.proto]
  }

  function LowHalf(w: bv32): bv32 { w & 0xFFFF }
  function HighHalf(w: bv32): bv32 { w >> 16 }

  /** Both ports can be read back from their word. */
  function PortWord(clientPort: bv32, frontPort: bv32): (w: bv32)
    requires clientPort <= 0xFFFF && frontPort <= 0xFFFF
    ensures LowHalf(w) == clientPort && HighHalf(w) == frontPort
  {
    clientPort | (frontPort << 16)
  }

  /** The fields in the order they are mixed, the two addresses interleaved, the two ports in one word. */
  function Arranged<T>(s: seq<T>, ports: T): (w: seq<T>)
    requires |s| == 13
    ensures |w| == 12
  {
    [s[0], s[1], s[2], s[6], s[3], s[7], s[4], s[8], s[5], s[9], ports, s[12]]
  }

  /** What `flow_hash` mixes. */
  function Words(f: Flow): (w: seq<bv32>)
    requires f.Valid()
    ensures |w| == 12
  {
    Arranged(Fields(f), PortWord(f.clientPort, f.frontPort))
  }

  function HashOf(f: Flow): bv32
    requires f.Valid()
  {
    Hash(Words(f))
  }

  /** The loop over the accumulator. */
  method FlowHash(words: seq<bv32>) returns (h: bv32)
    ensures h == Hash(words)
  {
    h := INITIAL;
    for i := 0 to |words|
      invariant h == MixAll(words, i)
    {
      h := Mix(h, words[i]);
    }
    h := Finalize(h);
  }

  // ---- every step can be undone -------------------------------------------------------------------

  function Undo13(y: bv32): bv32 { y ^ (y >> 13) ^ (y >> 26) }
  function Undo15(y: bv32): bv32 { y ^ (y >> 15) ^ (y >> 30) }
  function Undo16(y: bv32): bv32 { y ^ (y >> 16) }
  function UndoMulMix(y: bv32): bv32 { y * 0x0E8B_2F51 }
  function UndoMulA(y: bv32): bv32 { y * 0xA5CB_9243 }
  function UndoMulB(y: bv32): bv32 { y * 0x7ED1_B41D }

  lemma Undo13Raw(h: bv32) ensures Undo13(h ^ (h >> 13)) == h {}
  lemma Undo15Raw(h: bv32) ensures Undo15(h ^ (h >> 15)) == h {}
  lemma Undo16Raw(h: bv32) ensures Undo16(h ^ (h >> 16)) == h {}
  lemma UndoMulMixRaw(h: bv32) ensures UndoMulMix(h * 0x9E37_79B1) == h {}
  lemma UndoMulARaw(h: bv32) ensures UndoMulA(h * 0x85EB_CA6B) == h {}
  lemma UndoMulBRaw(h: bv32) ensures UndoMulB(h * 0xC2B2_AE35) == h {}
  lemma UndoXorRaw(h: bv32, w: bv32) ensures Xor(h ^ w, w) == h && Xor(h ^ w, h) == w {}

  lemma Undoes(h: bv32)
    ensures Undo13(XorShift13(h)) == h && Undo15(XorShift15(h)) == h && Undo16(XorShift16(h)) == h
    ensures UndoMulMix(MulMix(h)) == h && UndoMulA(MulA(h)) == h && UndoMulB(MulB(h)) == h
  {
    Undo13Raw(h);
    Undo15Raw(h);
    Undo16Raw(h);
    UndoMulMixRaw(h);
    UndoMulARaw(h);
    UndoMulBRaw(h);
  }

  lemma UndoesXor(h: bv32, w: bv32) ensures Xor(Xor(h, w), w) == h && Xor(Xor(h, w), h) == w { UndoXorRaw(h, w); }

  /** The state before the finalizer, from the hash. */
  function UndoFinalize(y: bv32): bv32 {
    Undo16(UndoMulA(Undo13(UndoMulB(Undo16(y)))))
  }

  lemma FinalizeIsBijective(h: bv32)
    ensures UndoFinalize(Finalize(h)) == h
  {
    var a := XorShift16(h);
    var b := XorShift13(MulA(a));
    Undoes(h);
    Undoes(a);
    Undoes(MulA(a));
    Undoes(b);
    Undoes(MulB(b));
  }

  /** The two inputs combined, from the mixer's output. */
  function UndoMix(y: bv32): bv32 {
    UndoMulMix(Undo15(y))
  }

  lemma MixIsBijective(h: bv32, w: bv32)
    ensures Xor(UndoMix(Mix(h, w)), w) == h && Xor(UndoMix(Mix(h, w)), h) == w
  {
    var x := Xor(h, w);
    Undoes(MulMix(x));
    Undoes(x);
    UndoesXor(h, w);
  }

  // ---- so no single word is lost --------------------------------------------------------------------

  /** Word lists that differ at `i` alone are told apart from there on. */
  lemma {:induction false} MixAllDiffers(a: seq<bv32>, b: seq<bv32>, i: nat, n: nat)
    requires |a| == |b| && i < n <= |a| && a[i] != b[i]
    requires forall j :: 0 <= j < |a| && j != i ==> a[j] == b[j]
    ensures MixAll(a, n) != MixAll(b, n)
  {
    MixIsBijective(MixAll(a, n - 1), a[n - 1]);
    MixIsBijective(MixAll(b, n - 1), b[n - 1]);
    if n - 1 == i {
      MixAllSame(a, b, i);
    } else {
      MixAllDiffers(a, b, i, n - 1);
    }
  }

  lemma {:induction false} MixAllSame(a: seq<bv32>, b: seq<bv32>, n: nat)
    requires n <= |a| && n <= |b| && forall j :: 0 <= j < n ==> a[j] == b[j]
    ensures MixAll(a, n) == MixAll(b, n)
  {
    if n > 0 {
      MixAllSame(a, b, n - 1);
    }
  }

  /** `flow_hash` is injective in each hashed word. */
  lemma HashKeepsEachWord(a: seq<bv32>, b: seq<bv32>, i: nat)
    requires |a| == |b| && i < |a| && a[i] != b[i]
    requires forall j :: 0 <= j < |a| && j != i ==> a[j] == b[j]
    ensures Hash(a) != Hash(b)
  {
    MixAllDiffers(a, b, i, |a|);
    FinalizeIsBijective(MixAll(a, |a|));
    FinalizeIsBijective(MixAll(b, |b|));
  }

  // ---- the fields of a flow ---------------------------------------------------------------------------

  /** Where a field is mixed in. */
  function WordOf(i: nat): nat
    requires i < 13
  {
    if i < 2 then i else if i < 6 then 2 * i - 2 else if i < 10 then 2 * i - 9 else if i < 12 then 10 else 11
  }

  /** A field is told apart by its word, and no other word holds it. */
  lemma FieldIsAWord<T>(s: seq<T>, t: seq<T>, ports: T, ports': T, i: nat)
    requires |s| == |t| == 13 && i < 13 && s[i] != t[i] && forall j :: 0 <= j < 13 && j != i ==> s[j] == t[j]
    requires ports == ports' <==> s[10] == t[10] && s[11] == t[11]
    ensures Arranged(s, ports)[WordOf(i)] != Arranged(t, ports')[WordOf(i)]
    ensures forall j :: 0 <= j < 12 && j != WordOf(i) ==> Arranged(s, ports)[j] == Arranged(t, ports')[j]
  {
  }

  lemma OneFieldInWords(s: seq<bv32>, t: seq<bv32>, ports: bv32, ports': bv32, i: nat)
    requires |s| == |t| == 13 && i < 13 && s[i] != t[i] && forall j :: 0 <= j < 13 && j != i ==> s[j] == t[j]
    requires ports == ports' <==> s[10] == t[10] && s[11] == t[11]
    ensures Hash(Arranged(s, ports)) != Hash(Arranged(t, ports'))
  {
    FieldIsAWord(s, t, ports, ports', i);
    HashKeepsEachWord(Arranged(s, ports), Arranged(t, ports'), WordOf(i));
  }

  /**
   * Two flows that differ in one word of an address, one half of the seed, one port or the protocol
   * never share a hash.
   */
  lemma OneFieldChangesTheHash(a: Flow, b: Flow, i: nat)
    requires a.Valid() && b.Valid() && i < 13 && Fields(a)[i] != Fields(b)[i]
    requires forall j :: 0 <= j < 13 && j != i ==> Fields(a)[j] == Fields(b)[j]
    ensures HashOf(a) != HashOf(b)
  {
    OneFieldInWords(Fields(a), Fields(b), PortWord(a.clientPort, a.frontPort), PortWord(b.clientPort, b.frontPort), i);
  }

  // ---- client affinity ---------------------------------------------------------------------------------

  /** `front_flow_hash`: a front with client affinity leaves the client's port out. */
  function FrontFlowHash(f: Flow, affine: bool): bv32
    requires f.Valid()
  {
    HashOf(if affine then f.(clientPort := 0) else f)
  }

  lemma PortsNeverCollide(a: Flow, b: Flow)
    requires a.Valid() && b.Valid() && a.clientPort != b.clientPort && b == a.(clientPort := b.clientPort)
    ensures HashOf(a) != HashOf(b)
  {
    OneFieldChangesTheHash(a, b, 10);
  }

  /** With affinity every flow of a client to a front has one hash; without it no two of its ports share one. */
  lemma PortCountsUnlessAffine(a: Flow, b: Flow, affine: bool)
    requires a.Valid() && b.Valid() && a.clientPort != b.clientPort && b == a.(clientPort := b.clientPort)
    ensures FrontFlowHash(a, affine) == FrontFlowHash(b, affine) <==> affine
  {
    PortsNeverCollide(a, b);
  }
}
