/** The idle sweep over the real table: forward and reverse rows, and the port memos that follow them. */
module FlowSweep {
  import opened Types
  import opened FlowRow
  import opened FlowKeys
  import opened IdleGc

  /** The union a row stores; the tag of its key says which arm is meaningful. */
  datatype FlowValue =
    | FwdValue(flags: FlowFlags)
    | RevValue(flags: FlowFlags, originalClientPort: u16)
    | MemoValue(backendSrcPort: u16)

  type Table = map<FlowKey, FlowValue>

  predicate TagMatches(k: FlowKey, v: FlowValue) {
    match Direction(k)
    case Some(Forward) => v.FwdValue?
    case Some(Reverse) => v.RevValue?
    case Some(PortMemo) => v.MemoValue?
    case None => true
  }

  predicate WellTagged(t: Table) {
    forall k :: k in t ==> TagMatches(k, t[k])
  }

  predicate IsRow(k: FlowKey) {
    Direction(k) == Some(Forward) || Direction(k) == Some(Reverse)
  }

  /** The `Reverse` key a memo points at. */
  function MemoTarget(k: FlowKey, port: u16): (r: FlowKey)
    ensures Direction(r) == Some(Reverse)
  {
    var t := Decode(k).(clientPort := port);
    DecodeEncode(t, Reverse);
    Encode(t, Reverse)
  }

  /** `row_swept` on a forward or reverse row of the table. */
  predicate SweptRow(t: Table, k: FlowKey, owner: byte, p: GcParity)
    requires k in t && IsRow(k) && TagMatches(k, t[k])
  {
    RowSwept(k, t[k].flags, owner, p)
  }

  /** Some surviving reverse row sits under the memo's port and records the memo's client port. */
  predicate MemoWanted(t: Table, k: FlowKey, owner: byte, p: GcParity)
    requires WellTagged(t) && k in t && Direction(k) == Some(PortMemo)
  {
    var r := MemoTarget(k, t[k].backendSrcPort);
    r in t && !SweptRow(t, r, owner, p) && t[r].originalClientPort == Decode(k).clientPort
  }

  /** The rows the sweep of `owner` is to delete. */
  predicate Doomed(t: Table, k: FlowKey, owner: byte, p: GcParity)
    requires WellTagged(t)
  {
    k in t &&
    match Direction(k)
    case Some(PortMemo) => !MemoWanted(t, k, owner, p)
    case Some(_) => SweptRow(t, k, owner, p)
    case None => false
  }

  /** The first pass: the rows to delete, and the reverse rows that stay with their client ports. */
  method SweptRows(t: Table, rows: seq<FlowKey>, owner: byte, p: GcParity)
    returns (doomed: seq<FlowKey>, surviving: map<FlowKey, u16>)
    requires WellTagged(t) && Enumerates(rows, t.Keys)
    ensures forall k :: k in doomed <==> k in t && IsRow(k) && SweptRow(t, k, owner, p)
    ensures forall k :: k in surviving <==> k in t && Direction(k) == Some(Reverse) && !SweptRow(t, k, owner, p)
    ensures forall k :: k in surviving ==> surviving[k] == t[k].originalClientPort
    ensures NoDuplicates(doomed)
  {
    doomed, surviving := [], map[];
    for i := 0 to |rows|
      invariant forall k :: k in doomed <==> k in rows[..i] && IsRow(k) && SweptRow(t, k, owner, p)
      invariant forall k :: k in surviving <==>
                  k in rows[..i] && Direction(k) == Some(Reverse) && !SweptRow(t, k, owner, p)
      invariant forall k :: k in surviving ==> surviving[k] == t[k].originalClientPort
      invariant NoDuplicates(doomed)
    {
      var k := rows[i];
      assert k !in rows[..i] && k in rows;
      assert rows[..i + 1] == rows[..i] + [k];
      if IsRow(k) {
        if RowSwept(k, t[k].flags, owner, p) {
          doomed := doomed + [k];
        } else if Direction(k) == Some(Reverse) {
          surviving := surviving[k := t[k].originalClientPort];
        }
      }
    }
    assert rows[..|rows|] == rows;
  }

  /** The second pass: the memos no surviving reverse row wants. */
  method UnwantedMemos(t: Table, rows: seq<FlowKey>, surviving: map<FlowKey, u16>, owner: byte, p: GcParity)
    returns (doomed: seq<FlowKey>)
    requires WellTagged(t) && Enumerates(rows, t.Keys)
    requires forall k :: k in surviving <==> k in t && Direction(k) == Some(Reverse) && !SweptRow(t, k, owner, p)
    requires forall k :: k in surviving ==> surviving[k] == t[k].originalClientPort
    ensures forall k :: k in doomed <==> k in t && Direction(k) == Some(PortMemo) && !MemoWanted(t, k, owner, p)
    ensures NoDuplicates(doomed)
  {
    doomed := [];
    for i := 0 to |rows|
      invariant forall k :: k in doomed <==>
                  k in rows[..i] && Direction(k) == Some(PortMemo) && !MemoWanted(t, k, owner, p)
      invariant NoDuplicates(doomed)
    {
      var k := rows[i];
      assert k !in rows[..i] && k in rows;
      assert rows[..i + 1] == rows[..i] + [k];
      if Direction(k) == Some(PortMemo) {
        var r := MemoTarget(k, t[k].backendSrcPort);
        var wanted := r in surviving && surviving[r] == Decode(k).clientPort;
        assert wanted == MemoWanted(t, k, owner, p);
        if !wanted {
          doomed := doomed + [k];
        }
      }
    }
    assert rows[..|rows|] == rows;
  }

  /** `idle_flow_keys`: one pass over the rows, one over the memos. */
  method IdleFlowKeys(t: Table, rows: seq<FlowKey>, owner: byte, p: GcParity) returns (doomed: seq<FlowKey>)
    requires WellTagged(t) && Enumerates(rows, t.Keys)
    ensures forall k :: k in doomed <==> Doomed(t, k, owner, p)
    ensures NoDuplicates(doomed)
  {
    var swept, surviving := SweptRows(t, rows, owner, p);
    var memos := UnwantedMemos(t, rows, surviving, owner, p);
    doomed := swept + memos;
    forall i, j | 0 <= i < j < |doomed| ensures doomed[i] != doomed[j] {
      if i < |swept| <= j {
        assert doomed[i] in swept && doomed[j] in memos;
      }
    }
  }

  /** `still_idle`: the decision taken again on the current table. */
  predicate StillIdle(t: Table, k: FlowKey, owner: byte, p: GcParity)
    requires WellTagged(t)
  {
    Doomed(t, k, owner, p)
  }

  ghost function Without(t: Table, gone: set<FlowKey>): Table {
    map k | k in t && k !in gone :: t[k]
  }

  /** Whatever doomed rows are already gone, the others are still found idle. */
  lemma RecheckAgrees(t: Table, gone: set<FlowKey>, k: FlowKey, owner: byte, p: GcParity)
    requires WellTagged(t) && (forall x :: x in gone ==> Doomed(t, x, owner, p)) && k !in gone
    ensures StillIdle(Without(t, gone), k, owner, p) <==> Doomed(t, k, owner, p)
  {
    if k in t && Direction(k) == Some(PortMemo) {
      var r := MemoTarget(k, t[k].backendSrcPort);
      assert r in gone ==> SweptRow(t, r, owner, p);
    }
  }

  /** `FLOW_TABLE`, swept in place. */
  class FlowTable {
    var rows: Table

    constructor (t: Table)
      ensures rows == t
    {
      rows := t;
    }

    /** One pass on a quiet table: snapshot, then delete in any order, rechecking each key. */
    method SweepIdleFlows(snapshot: seq<FlowKey>, owner: byte, p: GcParity) returns (deleted: nat)
      requires WellTagged(rows) && Enumerates(snapshot, rows.Keys)
      modifies this
      ensures rows == Swept(old(rows), owner, p)
      ensures forall k :: k in rows && Direction(k) == Some(PortMemo) ==> Follows(rows, k, old(rows)[k])
      ensures forall k :: k in old(rows) && Direction(k) == Some(PortMemo) && Follows(rows, k, old(rows)[k]) ==> k in rows
    {
      ghost var t := rows;
      var doomed := IdleFlowKeys(rows, snapshot, owner, p);
      deleted := 0;
      ghost var gone: set<FlowKey> := {};
      assert rows == Without(t, gone);
      for i := 0 to |doomed|
        invariant gone == set x | x in doomed[..i]
        invariant rows == Without(t, gone) && WellTagged(rows)
      {
        var k := doomed[i];
        assert k in doomed && k !in doomed[..i];
        RecheckAgrees(t, gone, k, owner, p);
        if StillIdle(rows, k, owner, p) {
          rows := Remove(rows, k);
          deleted := deleted + 1;
        }
        assert doomed[..i + 1] == doomed[..i] + [k];
        gone := gone + {k};
      }
      assert doomed[..|doomed|] == doomed;
      assert rows == Swept(t, owner, p);
      forall k | k in t && Direction(k) == Some(PortMemo) ensures k in rows <==> Follows(rows, k, t[k]) {
        MemoStaysIff(t, owner, p, k);
      }
    }
  }

  /** The memo `k`, holding `v`, points at a reverse row that is there and records the memo's client port. */
  predicate Follows(t: Table, k: FlowKey, v: FlowValue) {
    v.MemoValue? &&
    var r := MemoTarget(k, v.backendSrcPort);
    r in t && t[r].RevValue? && t[r].originalClientPort == Decode(k).clientPort
  }

  /** A memo survives the sweep exactly when the row it points at does. */
  lemma MemoStaysIff(t: Table, owner: byte, p: GcParity, k: FlowKey)
    requires WellTagged(t) && k in t && Direction(k) == Some(PortMemo)
    ensures k in Swept(t, owner, p) <==> Follows(Swept(t, owner, p), k, t[k])
  {
    var r := MemoTarget(k, t[k].backendSrcPort);
    assert r in t ==> TagMatches(r, t[r]);
  }

  function Swept(t: Table, owner: byte, p: GcParity): Table
    requires WellTagged(t)
  {
    map k | k in t && !Doomed(t, k, owner, p) :: t[k]
  }

  /** The memo of a flow finds the row of that flow: the key round trip. */
  lemma MemoFindsItsRow(t: Tuple, port: u16)
    requires t.Valid()
    ensures MemoTarget(Encode(t, PortMemo), port) == Encode(t.(clientPort := port), Reverse)
  {
    DecodeEncode(t, PortMemo);
  }
}
