/** Which endpoint a packet of a front is sent to. */
module Steering {
  import opened Types

  const TWO32: int := 0x1_0000_0000

  /** Multiply-shift: `(hash as u64 * n as u64) >> 32`. */
  function SlotInRange(hash: u32, n: u32): (slot: Option<u32>)
    ensures slot.None? <==> n == 0
    ensures slot.Some? ==> slot.value < n
  {
    if n == 0 then None
    else
      MulLess(hash, n);
      Some(hash * n / TWO32)
  }

  lemma MulLess(hash: u32, n: u32)
    requires n > 0
    ensures 0 <= hash * n < TWO32 * n
    ensures 0 <= hash * n / TWO32 < n
  {
    assert hash * n < TWO32 * n;
  }

  function SelectEndpointSlot(hash: u32, readyCount: u16, localCount: u16): (slot: Option<u16>)
    ensures slot.None? <==> localCount > readyCount || readyCount == 0
    ensures slot.Some? ==> slot.value < if localCount > 0 then localCount else readyCount
  {
    if localCount > readyCount then None
    else
      var s := SlotInRange(hash, if localCount > 0 then localCount else readyCount);
      if s.None? then None else Some(s.value)
  }

  datatype Pin = Pin(backend: LbFrontBackend, targetPort: u16)

  datatype IngressSteer = Drop | Forward(backend: LbFrontBackend, targetPort: u16)

  /**
   * `eps` is the map the packet's endpoint lookup reads; `meta` was read before, maybe earlier.
   * A flow that has a pin keeps its backend whatever the maps say, an established pin before a pending one.
   */
  function Steer(meta: FrontMeta, established: Option<Pin>, pending: Option<Pin>, hash: u32, front: LbFrontKey,
                 eps: map<FrontEndpointKey, FrontEndpoint>): (s: IngressSteer)
    ensures forall pin :: established == Some(pin) || (established.None? && pending == Some(pin)) ==>
              s == Forward(pin.backend, pin.targetPort)
  {
    var pin := if established.Some? then established else pending;
    if pin.Some? then Forward(pin.value.backend, pin.value.targetPort)
    else if meta.count == 0 then Drop
    else
      var slot := SelectEndpointSlot(hash, meta.count, meta.localCount);
      if slot.None? then Drop
      else
        var row := Lookup(eps, EndpointKey(front, meta.generation, slot.value));
        if row.Some? && (meta.localCount == 0 || IsLocal(row.value))
        then Forward(row.value.backend, row.value.targetPort)
        else Drop
  }

  predicate SendsTo(s: IngressSteer, ep: FrontEndpoint) {
    s == Forward(ep.backend, ep.targetPort)
  }

  // ---- how evenly the hashes spread -----------------------------------------------------------

  /** The first hash that lands on slot `s` or later: `ceil(s * 2^32 / n)`. */
  function FirstHash(s: nat, n: nat): nat
    requires n > 0
  {
    (s * TWO32 + n - 1) / n
  }

  /** The hashes of one slot form one interval. */
  lemma SlotInterval(hash: u32, n: u32, s: nat)
    requires n > 0 && s < n
    ensures SlotInRange(hash, n) == Some(s) <==> FirstHash(s, n) <= hash < FirstHash(s + 1, n)
  {
    CeilBound(s, n, hash);
    CeilBound(s + 1, n, hash);
    DivBound(hash * n, s);
    DivBound(hash * n, s + 1);
  }

  lemma CeilBound(s: nat, n: nat, h: nat)
    requires n > 0
    ensures FirstHash(s, n) <= h <==> s * TWO32 <= h * n
  {
    var a := s * TWO32 + n - 1;
    var q := a / n;
    assert a == n * q + a % n;
    if q <= h {
      assert n * q <= n * h;
    } else {
      assert n * (h + 1) <= n * q;
      assert n * (h + 1) == n * h + n;
    }
  }

  lemma DivBound(x: nat, s: nat)
    ensures x / TWO32 >= s <==> x >= s * TWO32
  {
  }

  /** Every slot receives `floor(2^32/n)` or `ceil(2^32/n)` of the 2^32 hashes. */
  lemma EvenSpread(n: u32, s: nat)
    requires n > 0 && s < n
    ensures forall h: u32 :: SlotInRange(h, n) == Some(s) <==> FirstHash(s, n) <= h < FirstHash(s + 1, n)
    ensures FirstHash(s + 1, n) <= TWO32
    ensures var size := FirstHash(s + 1, n) - FirstHash(s, n);
            size == TWO32 / n || (size == TWO32 / n + 1 && TWO32 % n != 0)
  {
    forall h: u32 ensures SlotInRange(h, n) == Some(s) <==> FirstHash(s, n) <= h < FirstHash(s + 1, n) {
      SlotInterval(h, n, s);
    }
    CeilBound(s + 1, n, TWO32);
    assert (s + 1) * TWO32 <= TWO32 * n;
    CeilStep(s * TWO32 + n - 1, n);
  }

  /** The slots a new flow may land on: the local ones if there are any. */
  function Range(count: u16, localCount: u16): u16 {
    if localCount > 0 then localCount else count
  }

  predicate InShare(hash: u32, s: nat, n: nat)
    requires n > 0
  {
    FirstHash(s, n) <= hash < FirstHash(s + 1, n)
  }

  /** The hash alone picks the slot, and every slot has its share of the hashes. */
  lemma SelectsByShare(count: u16, localCount: u16, s: nat)
    requires localCount <= count && s < Range(count, localCount)
    ensures var n := Range(count, localCount);
            && (forall hash: u32 :: SelectEndpointSlot(hash, count, localCount) == Some(s) <==> InShare(hash, s, n))
            && FirstHash(0, n) == 0 && FirstHash(n, n) == TWO32
            && var size := FirstHash(s + 1, n) - FirstHash(s, n);
               size == TWO32 / n || (size == TWO32 / n + 1 && TWO32 % n != 0)
  {
    var n := Range(count, localCount);
    EvenSpread(n, s);
    forall hash: u32 ensures SelectEndpointSlot(hash, count, localCount) == Some(s) <==> InShare(hash, s, n) {
      SlotInterval(hash, n, s);
    }
    ShareEnds(n);
  }

  lemma ShareEnds(n: nat)
    requires n > 0
    ensures FirstHash(0, n) == 0 && FirstHash(n, n) == TWO32
  {
    DivUnique(n - 1, n, 0, n - 1);
    DivUnique(n * TWO32 + n - 1, n, TWO32, n - 1);
  }

  /** Whatever the maps hold, a flow without a pin goes where the row of its share of the hashes says, or nowhere. */
  lemma SteerIff(meta: FrontMeta, hash: u32, front: LbFrontKey, eps: map<FrontEndpointKey, FrontEndpoint>, to: LbFrontBackend,
                 port: u16)
    ensures Steer(meta, None, None, hash, front, eps) == Forward(to, port) <==>
              meta.count > 0 && meta.localCount <= meta.count &&
              exists s :: 0 <= s < Range(meta.count, meta.localCount) && InShare(hash, s, Range(meta.count, meta.localCount))
                          && RowSends(meta, front, s, eps, to, port)
  {
    if meta.count > 0 && meta.localCount <= meta.count {
      var n := Range(meta.count, meta.localCount);
      var slot := SelectEndpointSlot(hash, meta.count, meta.localCount).value;
      forall s | 0 <= s < n ensures s == slot <==> InShare(hash, s, n) {
        SelectsByShare(meta.count, meta.localCount, s);
      }
      assert RowSends(meta, front, slot, eps, to, port) <==> Steer(meta, None, None, hash, front, eps) == Forward(to, port);
    }
  }

  /** The reader's row for slot `s` names this backend, a local one if local ones are preferred. */
  predicate RowSends(meta: FrontMeta, front: LbFrontKey, s: u16, eps: map<FrontEndpointKey, FrontEndpoint>, to: LbFrontBackend,
                     port: u16)
  {
    var k := EndpointKey(front, meta.generation, s);
    k in eps && eps[k].backend == to && eps[k].targetPort == port && (meta.localCount > 0 ==> eps[k].flags % 2 == 1)
  }

  /** Adding 2^32 to a number moves its quotient by `2^32/n`, or one more if there is a remainder. */
  lemma CeilStep(a: nat, n: nat)
    requires n > 0
    ensures var d := (a + TWO32) / n - a / n;
            d == TWO32 / n || (d == TWO32 / n + 1 && TWO32 % n != 0)
  {
    var q, r := a / n, a % n;
    var p, t := TWO32 / n, TWO32 % n;
    assert a == n * q + r && TWO32 == n * p + t;
    assert a + TWO32 == n * (q + p) + (r + t) by {
      assert n * (q + p) == n * q + n * p;
    }
    if r + t < n {
      DivUnique(a + TWO32, n, q + p, r + t);
    } else {
      assert n * (q + p + 1) == n * (q + p) + n;
      DivUnique(a + TWO32, n, q + p + 1, r + t - n);
    }
  }

  lemma DivUnique(a: int, n: int, q: int, r: int)
    requires n > 0 && a == n * q + r && 0 <= r < n
    ensures a / n == q
  {
    var d := a / n - q;
    assert n * d == r - a % n;
    assert d >= 1 ==> n * d >= n;
    assert d <= -1 ==> n * d <= -n;
  }
}
