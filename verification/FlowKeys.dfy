/** Flow-table keys: byte strings with the five-tuple, tagged with the role of the row. */
module FlowKeys {
  import opened Types
  import opened LittleEndian

  datatype FlowDirection = Forward | Reverse | PortMemo

  datatype Tuple = Tuple(clientIp: seq<byte>, clientPort: u16, otherIp: seq<byte>, otherPort: u16, proto: byte) {
    predicate Valid() {
      |clientIp| == 16 && |otherIp| == 16
    }
  }

  type FlowKey = k: seq<byte> | |k| == 38 witness seq(38, _ => 0)

  function Tag(d: FlowDirection): byte {
    match d case Forward => 0 case Reverse => 1 case PortMemo => 2
  }

  function Encode(t: Tuple, d: FlowDirection): FlowKey
    requires t.Valid()
  {
    t.clientIp + t.otherIp + Bytes16(t.clientPort) + Bytes16(t.otherPort) + [t.proto] + [Tag(d)]
  }

  function Decode(k: FlowKey): (t: Tuple)
    ensures t.Valid()
  {
    Tuple(k[0..16], U16At(k, 32), k[16..32], U16At(k, 34), k[36])
  }

  function Direction(k: FlowKey): Option<FlowDirection> {
    if k[37] == 0 then Some(Forward) else if k[37] == 1 then Some(Reverse)
    else if k[37] == 2 then Some(PortMemo) else None
  }

  function Proto(k: FlowKey): byte {
    k[36]
  }

  lemma DecodeEncode(t: Tuple, d: FlowDirection)
    requires t.Valid()
    ensures Decode(Encode(t, d)) == t && Direction(Encode(t, d)) == Some(d) && Proto(Encode(t, d)) == t.proto
  {
    var k := Encode(t, d);
    assert k[0..16] == t.clientIp && k[16..32] == t.otherIp;
    assert k[32] == t.clientPort % 0x100 && k[33] == t.clientPort / 0x100;
    assert k[34] == t.otherPort % 0x100 && k[35] == t.otherPort / 0x100;
  }

  lemma EncodeDecode(k: FlowKey)
    requires Direction(k).Some?
    ensures Encode(Decode(k), Direction(k).value) == k
  {
    var k' := Encode(Decode(k), Direction(k).value);
    assert forall i :: 0 <= i < 16 ==> k'[i] == k[i];
    assert forall i :: 16 <= i < 32 ==> k'[i] == k[i];
    assert k'[32] == k[32] && k'[33] == k[33] && k'[34] == k[34] && k'[35] == k[35];
    assert k'[36] == k[36] && k'[37] == k[37];
  }
}
