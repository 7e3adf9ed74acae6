/** What a migration of the two front maps carries over, decided from raw snapshots. */
module RestorePlan {
  import opened Types
  import opened ByteOrder
  import opened LittleEndian
  import opened RawEntries

  /** A front that survives the copy: its meta entry and its live generation's rows. */
  datatype FrontCopy = FrontCopy(meta: Entry, rows: seq<Entry>)

  /** An endpoint entry, with the slot its key decoded to. */
  datatype Row = Row(slot: u16, entry: Entry)

  /** The fronts copied so far, the rows they use, and the fronts given up. */
  datatype Plan = Plan(fronts: seq<FrontCopy>, rowsUsed: nat, dropped: nat)

  datatype Caps = Caps(meta: nat, ep: nat)

  /** The meta entries whose value decodes, in key order. */
  function SortedMetas(metas: seq<Entry>): seq<Entry> {
    if metas == [] then []
    else
      var rest, e := SortedMetas(metas[..|metas| - 1]), metas[|metas| - 1];
      if DecodeMeta(e.value).Some? then Insert(rest, e) else rest
  }

  lemma {:induction false} SortedMetasSorted(metas: seq<Entry>)
    ensures Sorted(SortedMetas(metas))
    ensures forall e :: e in SortedMetas(metas) ==> e in metas && DecodeMeta(e.value).Some?
  {
    if metas != [] {
      var rest, e := metas[..|metas| - 1], metas[|metas| - 1];
      SortedMetasSorted(rest);
      InsertIs(SortedMetas(rest), e);
    }
  }

  lemma {:induction false} SortedMetasAll(metas: seq<Entry>)
    requires DistinctKeys(metas)
    ensures forall e :: e in metas && DecodeMeta(e.value).Some? ==> e in SortedMetas(metas)
  {
    if metas != [] {
      var rest, last := metas[..|metas| - 1], metas[|metas| - 1];
      SortedMetasAll(rest);
      SortedMetasSorted(rest);
      InsertIs(SortedMetas(rest), last);
      assert metas == rest + [last];
    }
  }

  function DecodableMetas(metas: seq<Entry>): nat {
    if metas == [] then 0
    else DecodableMetas(metas[..|metas| - 1]) + if DecodeMeta(metas[|metas| - 1].value).Some? then 1 else 0
  }

  lemma {:induction false} SortedMetasCount(metas: seq<Entry>)
    requires DistinctKeys(metas)
    ensures |SortedMetas(metas)| == DecodableMetas(metas)
  {
    if metas != [] {
      var rest, e := metas[..|metas| - 1], metas[|metas| - 1];
      SortedMetasCount(rest);
      SortedMetasSorted(rest);
      var s := SortedMetas(rest);
      forall i | 0 <= i < |s| ensures s[i].key != e.key {
        assert s[i] in s;
      }
      InsertGrows(s, e);
    }
  }

  // ---- the plan ----

  /** The rows of one generation of a front, in snapshot order. */
  function RowsFor(endpoints: seq<Entry>, front: LbFrontKey, generation: u32): seq<Row> {
    if endpoints == [] then []
    else
      var rest, e := RowsFor(endpoints[..|endpoints| - 1], front, generation), endpoints[|endpoints| - 1];
      match DecodeEndpointKey(e.key)
      case Some(k) => if k.front == front && k.generation == generation then rest + [Row(k.slot, e)] else rest
      case None => rest
  }

  function Below(rows: seq<Row>, count: u16): seq<Row> {
    if rows == [] then []
    else
      var rest, r := Below(rows[..|rows| - 1], count), rows[|rows| - 1];
      if r.slot < count then rest + [r] else rest
  }

  /** Stable insertion: after the rows whose slot is not larger. */
  function InsertRow(rows: seq<Row>, r: Row): seq<Row> {
    if rows == [] || rows[|rows| - 1].slot <= r.slot then rows + [r]
    else InsertRow(rows[..|rows| - 1], r) + [rows[|rows| - 1]]
  }

  function SortBySlot(rows: seq<Row>): seq<Row> {
    if rows == [] then [] else InsertRow(SortBySlot(rows[..|rows| - 1]), rows[|rows| - 1])
  }

  function RowEntries(rows: seq<Row>): (r: seq<Entry>)
    ensures |r| == |rows| && forall i :: 0 <= i < |rows| ==> r[i] == rows[i].entry
  {
    seq(|rows|, i requires 0 <= i < |rows| => rows[i].entry)
  }

  /** The in-range rows of the generation a meta entry names, as found in the snapshot. */
  function FoundRows(endpoints: seq<Entry>, m: Entry): seq<Row> {
    match (DecodeFront(m.key), DecodeMeta(m.value))
    case (Some(front), Some(meta)) => Below(RowsFor(endpoints, front, meta.generation), meta.count)
    case _ => []
  }

  function LiveRows(endpoints: seq<Entry>, m: Entry): seq<Row> {
    SortBySlot(FoundRows(endpoints, m))
  }

  /** The front's key and value decode and as many rows were found as the meta counts. */
  predicate Complete(endpoints: seq<Entry>, m: Entry) {
    DecodeFront(m.key).Some? && DecodeMeta(m.value).Some? &&
    |LiveRows(endpoints, m)| == DecodeMeta(m.value).value.count
  }

  /** There is still room for a front of `rows` rows. */
  predicate Fits(p: Plan, rows: nat, caps: Caps) {
    |p.fronts| < caps.meta && p.rowsUsed + rows <= caps.ep
  }

  function CopyOf(endpoints: seq<Entry>, m: Entry): FrontCopy {
    FrontCopy(m, RowEntries(LiveRows(endpoints, m)))
  }

  predicate Admitted(p: Plan, endpoints: seq<Entry>, m: Entry, caps: Caps) {
    Complete(endpoints, m) && Fits(p, |LiveRows(endpoints, m)|, caps)
  }

  /** The plan for the meta entries `sorted`, taken in that order. */
  function PlanFor(sorted: seq<Entry>, endpoints: seq<Entry>, caps: Caps): Plan {
    if sorted == [] then Plan([], 0, 0)
    else
      var p, m := PlanFor(sorted[..|sorted| - 1], endpoints, caps), sorted[|sorted| - 1];
      if Admitted(p, endpoints, m, caps)
      then Plan(p.fronts + [CopyOf(endpoints, m)], p.rowsUsed + |LiveRows(endpoints, m)|, p.dropped)
      else p.(dropped := p.dropped + 1)
  }

  /** The plan for two raw snapshots. */
  function PlanOf(metas: seq<Entry>, endpoints: seq<Entry>, caps: Caps): Plan {
    PlanFor(SortedMetas(metas), endpoints, caps)
  }

  function TotalRows(fronts: seq<FrontCopy>): nat {
    if fronts == [] then 0 else TotalRows(fronts[..|fronts| - 1]) + |fronts[|fronts| - 1].rows|
  }

  function CopiedMetas(fronts: seq<FrontCopy>): (r: seq<Entry>)
    ensures |r| == |fronts| && forall i :: 0 <= i < |fronts| ==> r[i] == fronts[i].meta
  {
    seq(|fronts|, i requires 0 <= i < |fronts| => fronts[i].meta)
  }

  // ---- what a plan keeps to ----

  /** Both caps hold, and every meta entry is either copied or counted as dropped. */
  lemma {:induction false} PlanRespectsCaps(sorted: seq<Entry>, endpoints: seq<Entry>, caps: Caps)
    ensures var p := PlanFor(sorted, endpoints, caps);
            |p.fronts| <= caps.meta && TotalRows(p.fronts) <= caps.ep && p.rowsUsed == TotalRows(p.fronts) &&
            |p.fronts| + p.dropped == |sorted|
  {
    if sorted != [] {
      var before, m := sorted[..|sorted| - 1], sorted[|sorted| - 1];
      PlanRespectsCaps(before, endpoints, caps);
      var p := PlanFor(before, endpoints, caps);
      assert (p.fronts + [CopyOf(endpoints, m)])[..|p.fronts|] == p.fronts;
    }
  }

  /** For a snapshot with distinct keys, every decodable meta is copied or counted as dropped. */
  lemma AccountsForEveryMeta(metas: seq<Entry>, endpoints: seq<Entry>, caps: Caps)
    requires DistinctKeys(metas)
    ensures var p := PlanOf(metas, endpoints, caps); |p.fronts| + p.dropped == DecodableMetas(metas)
  {
    PlanRespectsCaps(SortedMetas(metas), endpoints, caps);
    SortedMetasCount(metas);
  }

  /** Every copied front is one of the metas, with the rows found for it. */
  lemma {:induction false} CopiesAreCopies(sorted: seq<Entry>, endpoints: seq<Entry>, caps: Caps)
    ensures forall c :: c in PlanFor(sorted, endpoints, caps).fronts ==>
              c.meta in sorted && Complete(endpoints, c.meta) && c == CopyOf(endpoints, c.meta)
  {
    if sorted != [] {
      CopiesAreCopies(sorted[..|sorted| - 1], endpoints, caps);
    }
  }

  /** A front is copied exactly when it is complete and fits after the smaller keys. */
  lemma {:induction false} CopiedIff(sorted: seq<Entry>, n: nat, endpoints: seq<Entry>, caps: Caps)
    requires Sorted(sorted) && n < |sorted|
    ensures sorted[n] in CopiedMetas(PlanFor(sorted, endpoints, caps).fronts)
            <==> Admitted(PlanFor(sorted[..n], endpoints, caps), endpoints, sorted[n], caps)
    decreases |sorted|
  {
    var before, m := sorted[..|sorted| - 1], sorted[|sorted| - 1];
    var p := PlanFor(before, endpoints, caps);
    CopiedStep(sorted, endpoints, caps);
    if n == |sorted| - 1 {
      if m in CopiedMetas(p.fronts) {
        NotYet(sorted, endpoints, caps);
      }
    } else {
      CopiedIff(before, n, endpoints, caps);
      assert before[n] == sorted[n] && before[..n] == sorted[..n];
      if m == sorted[n] {
        SameKeySamePlace(sorted, n, |sorted| - 1);
      }
    }
  }

  lemma CopiedStep(sorted: seq<Entry>, endpoints: seq<Entry>, caps: Caps)
    requires sorted != []
    ensures var m, p := sorted[|sorted| - 1], PlanFor(sorted[..|sorted| - 1], endpoints, caps);
            CopiedMetas(PlanFor(sorted, endpoints, caps).fronts)
            == if Admitted(p, endpoints, m, caps) then CopiedMetas(p.fronts) + [m] else CopiedMetas(p.fronts)
  {
  }

  lemma NotYet(sorted: seq<Entry>, endpoints: seq<Entry>, caps: Caps)
    requires Sorted(sorted) && sorted != []
    ensures sorted[|sorted| - 1] !in CopiedMetas(PlanFor(sorted[..|sorted| - 1], endpoints, caps).fronts)
  {
    var before, m := sorted[..|sorted| - 1], sorted[|sorted| - 1];
    var fronts := PlanFor(before, endpoints, caps).fronts;
    CopiesAreCopies(before, endpoints, caps);
    if m in CopiedMetas(fronts) {
      var i :| 0 <= i < |fronts| && fronts[i].meta == m;
      assert fronts[i] in fronts;
      var j :| 0 <= j < |before| && before[j] == m;
      SameKeySamePlace(sorted, j, |sorted| - 1);
    }
  }

  // ---- sorting keeps the rows ----

  ghost predicate InSlotOrder(rows: seq<Row>) {
    forall i, j :: 0 <= i < j < |rows| ==> rows[i].slot <= rows[j].slot
  }

  ghost predicate DistinctSlots(rows: seq<Row>) {
    forall i, j :: 0 <= i < j < |rows| ==> rows[i].slot != rows[j].slot
  }

  lemma {:induction false} InsertRowMembers(rows: seq<Row>, r: Row)
    ensures |InsertRow(rows, r)| == |rows| + 1
    ensures forall x :: x in InsertRow(rows, r) <==> x in rows || x == r
  {
    if !(rows == [] || rows[|rows| - 1].slot <= r.slot) {
      var init, last := rows[..|rows| - 1], rows[|rows| - 1];
      assert rows == init + [last];
      InsertRowMembers(init, r);
    }
  }

  lemma {:induction false} InsertRowInOrder(rows: seq<Row>, r: Row)
    requires InSlotOrder(rows)
    ensures InSlotOrder(InsertRow(rows, r))
  {
    if !(rows == [] || rows[|rows| - 1].slot <= r.slot) {
      var init, last := rows[..|rows| - 1], rows[|rows| - 1];
      InsertRowInOrder(init, r);
      InsertRowMembers(init, r);
      var s := InsertRow(init, r);
      forall i | 0 <= i < |s| ensures s[i].slot <= last.slot {
        assert s[i] in s;
        if s[i] != r {
          var j :| 0 <= j < |init| && init[j] == s[i];
          assert rows[j].slot <= rows[|rows| - 1].slot;
        }
      }
    }
  }

  lemma {:induction false} SortBySlotIs(rows: seq<Row>)
    ensures InSlotOrder(SortBySlot(rows)) && |SortBySlot(rows)| == |rows|
    ensures forall x :: x in SortBySlot(rows) <==> x in rows
  {
    if rows != [] {
      var init, last := rows[..|rows| - 1], rows[|rows| - 1];
      assert rows == init + [last];
      SortBySlotIs(init);
      InsertRowMembers(SortBySlot(init), last);
      InsertRowInOrder(SortBySlot(init), last);
    }
  }

  // ---- a copied front's rows are its slots, in order ----

  function Slots(rows: seq<Row>): set<int> {
    set r | r in rows :: r.slot
  }

  lemma {:induction false} DistinctByCounting(rows: seq<Row>)
    ensures |Slots(rows)| <= |rows|
    ensures DistinctSlots(rows) <==> |Slots(rows)| == |rows|
  {
    if rows != [] {
      var init, last := rows[..|rows| - 1], rows[|rows| - 1];
      DistinctByCounting(init);
      assert rows == init + [last];
      assert Slots(rows) == Slots(init) + {last.slot};
      assert DistinctSlots(rows) <==> DistinctSlots(init) && last.slot !in Slots(init);
    }
  }

  lemma SortKeepsDistinct(rows: seq<Row>)
    ensures DistinctSlots(SortBySlot(rows)) <==> DistinctSlots(rows)
  {
    SortBySlotIs(rows);
    assert Slots(SortBySlot(rows)) == Slots(rows);
    DistinctByCounting(rows);
    DistinctByCounting(SortBySlot(rows));
  }

  lemma {:induction false} AtLeastItsIndex(rows: seq<Row>, i: nat)
    requires InSlotOrder(rows) && DistinctSlots(rows) && i < |rows|
    ensures rows[i].slot >= i
  {
    if i > 0 {
      AtLeastItsIndex(rows, i - 1);
    }
  }

  lemma {:induction false} AtMostItsIndex(rows: seq<Row>, i: nat)
    requires InSlotOrder(rows) && DistinctSlots(rows) && i < |rows|
    requires forall j :: 0 <= j < |rows| ==> rows[j].slot < |rows|
    ensures rows[i].slot <= i
    decreases |rows| - i
  {
    if i < |rows| - 1 {
      AtMostItsIndex(rows, i + 1);
    }
  }

  lemma {:induction false} BelowIs(rows: seq<Row>, count: u16)
    ensures forall x :: x in Below(rows, count) <==> x in rows && x.slot < count
    ensures DistinctSlots(rows) ==> DistinctSlots(Below(rows, count))
  {
    if rows != [] {
      var init, last := rows[..|rows| - 1], rows[|rows| - 1];
      assert rows == init + [last];
      BelowIs(init, count);
      if DistinctSlots(rows) && last.slot < count {
        forall i | 0 <= i < |Below(init, count)| ensures Below(init, count)[i].slot != last.slot {
          var x := Below(init, count)[i];
          assert x in init;
          var j :| 0 <= j < |init| && init[j] == x;
          assert rows[j].slot != rows[|rows| - 1].slot;
        }
      }
    }
  }

  /** A row's entry is in the snapshot and its key names that front, generation and slot. */
  predicate IsRowOf(x: Row, front: LbFrontKey, generation: u32) {
    match DecodeEndpointKey(x.entry.key)
    case Some(k) => k.front == front && k.generation == generation && k.slot == x.slot
    case None => false
  }

  lemma {:induction false} RowsForIs(endpoints: seq<Entry>, front: LbFrontKey, generation: u32)
    ensures forall x :: x in RowsFor(endpoints, front, generation)
                        <==> x.entry in endpoints && IsRowOf(x, front, generation)
  {
    if endpoints != [] {
      RowsForIs(endpoints[..|endpoints| - 1], front, generation);
      assert endpoints == endpoints[..|endpoints| - 1] + [endpoints[|endpoints| - 1]];
    }
  }

  lemma LiveRowsAre(endpoints: seq<Entry>, m: Entry)
    requires DecodeFront(m.key).Some? && DecodeMeta(m.value).Some?
    ensures var front, meta := DecodeFront(m.key).value, DecodeMeta(m.value).value;
            forall x :: x in LiveRows(endpoints, m)
                        <==> x.entry in endpoints && IsRowOf(x, front, meta.generation) && x.slot < meta.count
  {
    var front, meta := DecodeFront(m.key).value, DecodeMeta(m.value).value;
    var rows := RowsFor(endpoints, front, meta.generation);
    RowsForIs(endpoints, front, meta.generation);
    BelowIs(rows, meta.count);
    SortBySlotIs(Below(rows, meta.count));
  }

  /**
   * A complete front's rows are slots 0 up to its count, in order, exactly when
   * no two of the rows found for it share a slot.
   */
  lemma ExactSlotsIff(endpoints: seq<Entry>, m: Entry)
    requires Complete(endpoints, m)
    ensures (forall i :: 0 <= i < |LiveRows(endpoints, m)| ==> LiveRows(endpoints, m)[i].slot == i)
            <==> DistinctSlots(FoundRows(endpoints, m))
  {
    var rows := LiveRows(endpoints, m);
    SortBySlotIs(FoundRows(endpoints, m));
    SortKeepsDistinct(FoundRows(endpoints, m));
    if DistinctSlots(rows) {
      LiveRowsAre(endpoints, m);
      forall j | 0 <= j < |rows| ensures rows[j].slot < |rows| {
        assert rows[j] in rows;
      }
      forall i | 0 <= i < |rows| ensures rows[i].slot == i {
        AtLeastItsIndex(rows, i);
        AtMostItsIndex(rows, i);
      }
    }
  }

  /** Every decodable key has its padding zeroed, as every writer leaves it. */
  ghost predicate ZeroPads(endpoints: seq<Entry>) {
    forall e :: e in endpoints && DecodeEndpointKey(e.key).Some? ==> DecodeEndpointKey(e.key).value.pad == 0
  }

  lemma {:induction false} ZeroPadsAreDistinct(endpoints: seq<Entry>, front: LbFrontKey, generation: u32)
    requires DistinctKeys(endpoints) && ZeroPads(endpoints)
    ensures DistinctSlots(RowsFor(endpoints, front, generation))
  {
    if endpoints != [] {
      var init, last := endpoints[..|endpoints| - 1], endpoints[|endpoints| - 1];
      assert last in endpoints && forall e :: e in init ==> e in endpoints;
      ZeroPadsAreDistinct(init, front, generation);
      RowsForIs(init, front, generation);
      var rows := RowsFor(init, front, generation);
      if DecodeEndpointKey(last.key).Some? {
        var k := DecodeEndpointKey(last.key).value;
        forall i | 0 <= i < |rows| && k.front == front && k.generation == generation
          ensures rows[i].slot != k.slot
        {
          assert rows[i] in rows;
          if rows[i].slot == k.slot {
            DecodeEndpointKeyInjective(rows[i].entry.key, last.key);
          }
        }
      }
    }
  }

  /** With zeroed padding, a complete front's rows are exactly its slots, in order. */
  lemma ExactSlots(endpoints: seq<Entry>, m: Entry)
    requires DistinctKeys(endpoints) && ZeroPads(endpoints) && Complete(endpoints, m)
    ensures forall i :: 0 <= i < |LiveRows(endpoints, m)| ==>
              LiveRows(endpoints, m)[i].slot == i && LiveRows(endpoints, m)[i].entry in endpoints &&
              DecodeEndpointKey(LiveRows(endpoints, m)[i].entry.key)
              == Some(EndpointKey(DecodeFront(m.key).value, DecodeMeta(m.value).value.generation, i))
  {
    var front, meta := DecodeFront(m.key).value, DecodeMeta(m.value).value;
    ZeroPadsAreDistinct(endpoints, front, meta.generation);
    BelowIs(RowsFor(endpoints, front, meta.generation), meta.count);
    ExactSlotsIff(endpoints, m);
    LiveRowsAre(endpoints, m);
    var rows := LiveRows(endpoints, m);
    forall i | 0 <= i < |rows|
      ensures rows[i].entry in endpoints && DecodeEndpointKey(rows[i].entry.key) == Some(EndpointKey(front, meta.generation, i))
    {
      assert rows[i] in rows;
    }
  }

  // ---- which fronts are copied, told by the snapshot -------------------------------------------------

  /** The entry's key names a slot below `count` of this generation of the front. */
  predicate IsSlotOf(e: Entry, front: LbFrontKey, generation: u32, count: u16) {
    match DecodeEndpointKey(e.key)
    case Some(k) => k.front == front && k.generation == generation && k.slot < count
    case None => false
  }

  function SlotEntries(endpoints: seq<Entry>, front: LbFrontKey, generation: u32, count: u16): set<Entry> {
    set e | e in endpoints && IsSlotOf(e, front, generation, count)
  }

  lemma SlotEntriesGrow(endpoints: seq<Entry>, front: LbFrontKey, generation: u32, count: u16)
    requires endpoints != [] && DistinctKeys(endpoints)
    ensures var init, e := endpoints[..|endpoints| - 1], endpoints[|endpoints| - 1];
            |SlotEntries(endpoints, front, generation, count)|
            == |SlotEntries(init, front, generation, count)| + if IsSlotOf(e, front, generation, count) then 1 else 0
  {
    var init, e := endpoints[..|endpoints| - 1], endpoints[|endpoints| - 1];
    assert endpoints == init + [e];
    assert e !in init;
    assert SlotEntries(endpoints, front, generation, count)
        == SlotEntries(init, front, generation, count) + if IsSlotOf(e, front, generation, count) then {e} else {};
  }

  lemma FoundRowsGrow(endpoints: seq<Entry>, front: LbFrontKey, generation: u32, count: u16)
    requires endpoints != []
    ensures var init, e := endpoints[..|endpoints| - 1], endpoints[|endpoints| - 1];
            |Below(RowsFor(endpoints, front, generation), count)|
            == |Below(RowsFor(init, front, generation), count)| + if IsSlotOf(e, front, generation, count) then 1 else 0
  {
    var init, e := endpoints[..|endpoints| - 1], endpoints[|endpoints| - 1];
    var rest := RowsFor(init, front, generation);
    if DecodeEndpointKey(e.key).Some? {
      assert (rest + [Row(DecodeEndpointKey(e.key).value.slot, e)])[..|rest|] == rest;
    }
  }

  lemma {:induction false} FoundRowsCount(endpoints: seq<Entry>, front: LbFrontKey, generation: u32, count: u16)
    requires DistinctKeys(endpoints)
    ensures |Below(RowsFor(endpoints, front, generation), count)| == |SlotEntries(endpoints, front, generation, count)|
  {
    if endpoints != [] {
      FoundRowsCount(endpoints[..|endpoints| - 1], front, generation, count);
      FoundRowsGrow(endpoints, front, generation, count);
      SlotEntriesGrow(endpoints, front, generation, count);
    }
  }

  /**
   * A front is copied if and only if its key and value decode, the snapshot has as many entries for its
   * live slots as its count says, and both caps leave room for it after the fronts with smaller keys.
   */
  lemma CopiedExactly(sorted: seq<Entry>, n: nat, endpoints: seq<Entry>, caps: Caps)
    requires Sorted(sorted) && n < |sorted| && DistinctKeys(endpoints)
    ensures sorted[n] in CopiedMetas(PlanFor(sorted, endpoints, caps).fronts) <==>
              var m, before := sorted[n], PlanFor(sorted[..n], endpoints, caps).fronts;
              && DecodeFront(m.key).Some? && DecodeMeta(m.value).Some?
              && var meta := DecodeMeta(m.value).value;
                 && |SlotEntries(endpoints, DecodeFront(m.key).value, meta.generation, meta.count)| == meta.count
                 && |before| + 1 <= caps.meta && TotalRows(before) + meta.count <= caps.ep
  {
    var m := sorted[n];
    CopiedIff(sorted, n, endpoints, caps);
    PlanRespectsCaps(sorted[..n], endpoints, caps);
    if DecodeFront(m.key).Some? && DecodeMeta(m.value).Some? {
      var meta := DecodeMeta(m.value).value;
      FoundRowsCount(endpoints, DecodeFront(m.key).value, meta.generation, meta.count);
      SortBySlotIs(FoundRows(endpoints, m));
    }
  }

  function ZeroKey(pad: byte): Bytes {
    seq(28, i => if i == 26 then pad else 0)
  }

  lemma ZeroKeyDecodes(pad: byte)
    ensures DecodeEndpointKey(ZeroKey(pad)) == Some(FrontEndpointKey(FrontAt(ZeroKey(pad)), 0, 0, pad))
    ensures FrontAt(ZeroKey(pad)) == LbFrontKey(seq(16, i => 0), 0, 0, 0)
  {
    var k := ZeroKey(pad);
    assert U16At(k, 16) == 0 && U16At(k, 20) == 0 && U16At(k, 22) == 0 && U16At(k, 24) == 0;
    assert U16At(k, 26) == pad;
    assert k[..16] == seq(16, i => 0);
  }

  /** The rows of a snapshot of two entries of the same generation, both in range. */
  lemma TwoRows(a: Entry, b: Entry, x: Row, y: Row, front: LbFrontKey, count: u16)
    requires x.entry == a && y.entry == b && IsRowOf(x, front, 0) && IsRowOf(y, front, 0)
    requires x.slot < count && y.slot < count
    ensures Below(RowsFor([a, b], front, 0), count) == [x, y]
  {
    assert [a, b][..1] == [a] && [a][..0] == [];
    assert RowsFor([a], front, 0) == [x];
    assert [x, y][..1] == [x] && [x][..0] == [];
    assert Below([x], count) == [x];
  }

  /**
   * Distinct raw keys are not enough: two that differ only in padding make a
   * front of two endpoints look complete although slot 1 has no row.
   */
  lemma PaddingHidesAGap() returns (m: Entry, endpoints: seq<Entry>)
    ensures DistinctKeys(endpoints) && Complete(endpoints, m)
    ensures DecodeMeta(m.value).value.count == 2
    ensures forall x :: x in LiveRows(endpoints, m) ==> x.slot == 0
  {
    m := Entry(ZeroKey(0)[..20], [0, 0, 0, 0, 2, 0, 0, 0, 0, 0, 0, 0]);
    var a, b := Entry(ZeroKey(0), []), Entry(ZeroKey(1), []);
    endpoints := [a, b];
    assert a.key[26] != b.key[26];
    ZeroKeyDecodes(0);
    ZeroKeyDecodes(1);
    var front := FrontAt(ZeroKey(0));
    assert FrontAt(m.key) == front by {
      assert m.key[..16] == ZeroKey(0)[..16];
    }
    assert DecodeMeta(m.value) == Some(FrontMeta(0, 2, 0, 0));
    TwoRows(a, b, Row(0, a), Row(0, b), front, 2);
    SortBySlotIs(FoundRows(endpoints, m));
  }

  // ---- planning again from what was copied ----

  /** Planning over only the copied metas, with the same rows, copies the same fronts and drops none. */
  lemma {:induction false} PlanAgain(sorted: seq<Entry>, endpoints: seq<Entry>, caps: Caps)
    ensures var p := PlanFor(sorted, endpoints, caps);
            PlanFor(CopiedMetas(p.fronts), endpoints, caps) == Plan(p.fronts, p.rowsUsed, 0)
  {
    if sorted != [] {
      PlanAgain(sorted[..|sorted| - 1], endpoints, caps);
      CopiedStep(sorted, endpoints, caps);
      var m, p := sorted[|sorted| - 1], PlanFor(sorted[..|sorted| - 1], endpoints, caps);
      if Admitted(p, endpoints, m, caps) {
        var again := CopiedMetas(p.fronts) + [m];
        assert again[..|again| - 1] == CopiedMetas(p.fronts);
      }
    }
  }

  /** Copied metas stay in key order. */
  lemma {:induction false} CopiedMetasSorted(sorted: seq<Entry>, endpoints: seq<Entry>, caps: Caps)
    requires Sorted(sorted)
    ensures Sorted(CopiedMetas(PlanFor(sorted, endpoints, caps).fronts))
    ensures forall m :: m in CopiedMetas(PlanFor(sorted, endpoints, caps).fronts) ==> m in sorted
  {
    if sorted != [] {
      var before, m := sorted[..|sorted| - 1], sorted[|sorted| - 1];
      CopiedMetasSorted(before, endpoints, caps);
      CopiedStep(sorted, endpoints, caps);
      var copied := CopiedMetas(PlanFor(before, endpoints, caps).fronts);
      forall i | 0 <= i < |copied| ensures Less(copied[i].key, m.key) {
        assert copied[i] in before;
        var j :| 0 <= j < |before| && before[j] == copied[i];
        assert sorted[j] == before[j];
      }
    }
  }

  // ---- from maps to plans ----

  /** The plan for copying maps holding `metas` and `endpoints`. */
  ghost function PlanMaps(metas: Contents, endpoints: Contents, caps: Caps): seq<FrontCopy> {
    PlanOf(Listing(metas), Listing(endpoints), caps).fronts
  }

  ghost function AllRows(fronts: seq<FrontCopy>): seq<Entry> {
    if fronts == [] then [] else AllRows(fronts[..|fronts| - 1]) + fronts[|fronts| - 1].rows
  }

  /** The map holding exactly these entries, which come from `m`. */
  ghost function Picked(m: Contents, entries: seq<Entry>): Contents {
    map k | k in m && Entry(k, m[k]) in entries :: m[k]
  }

  lemma {:induction false} AllRowsAre(fronts: seq<FrontCopy>)
    ensures forall e :: e in AllRows(fronts) <==> exists i :: 0 <= i < |fronts| && e in fronts[i].rows
  {
    if fronts != [] {
      var init := fronts[..|fronts| - 1];
      AllRowsAre(init);
      forall e ensures e in AllRows(fronts) <==> exists i :: 0 <= i < |fronts| && e in fronts[i].rows {
        if e in AllRows(init) {
          var i :| 0 <= i < |init| && e in init[i].rows;
          assert e in fronts[i].rows;
        }
        if i :| 0 <= i < |fronts| && e in fronts[i].rows {
          if i < |fronts| - 1 {
            assert e in init[i].rows;
          }
        }
      }
    }
  }

  /** Everything a plan copies is in the snapshots it was made from. */
  lemma PlanComesFrom(metas: Contents, endpoints: Contents, caps: Caps)
    ensures var fronts := PlanMaps(metas, endpoints, caps);
            (forall m :: m in CopiedMetas(fronts) ==> m.key in metas && metas[m.key] == m.value) &&
            (forall e :: e in AllRows(fronts) ==> e.key in endpoints && endpoints[e.key] == e.value)
  {
    var ms, es := Listing(metas), Listing(endpoints);
    ListingLists(metas);
    ListingLists(endpoints);
    SortedMetasSorted(ms);
    var fronts := PlanMaps(metas, endpoints, caps);
    CopiedMetasSorted(SortedMetas(ms), es, caps);
    CopiesAreCopies(SortedMetas(ms), es, caps);
    AllRowsAre(fronts);
    forall e | e in AllRows(fronts) ensures e in es {
      var i :| 0 <= i < |fronts| && e in fronts[i].rows;
      assert fronts[i] in fronts;
      RowsComeFrom(es, fronts[i].meta, e);
    }
  }

  lemma RowsComeFrom(endpoints: seq<Entry>, m: Entry, e: Entry)
    requires Complete(endpoints, m) && e in CopyOf(endpoints, m).rows
    ensures e in endpoints
  {
    var rows := LiveRows(endpoints, m);
    var i :| 0 <= i < |rows| && rows[i].entry == e;
    LiveRowsAre(endpoints, m);
    assert rows[i] in rows;
  }

  /**
   * Planning again after only the copied metas are left, from the same rows,
   * makes the same plan.
   */
  lemma PlanMapsAgain(metas: Contents, endpoints: Contents, caps: Caps)
    ensures var fronts := PlanMaps(metas, endpoints, caps);
            PlanMaps(Picked(metas, CopiedMetas(fronts)), endpoints, caps) == fronts
  {
    var fronts := PlanMaps(metas, endpoints, caps);
    var copied := CopiedMetas(fronts);
    var ms, es := Listing(metas), Listing(endpoints);
    PlanComesFrom(metas, endpoints, caps);
    SortedMetasSorted(ms);
    CopiedMetasSorted(SortedMetas(ms), es, caps);
    assert Lists(copied, Picked(metas, copied));
    ListingIs(copied, Picked(metas, copied));
    AllDecodable(copied);
    PlanAgain(SortedMetas(ms), es, caps);
  }

  /** A list already in key order, every value decodable, is left as it is. */
  lemma {:induction false} AllDecodable(s: seq<Entry>)
    requires Sorted(s) && forall e :: e in s ==> DecodeMeta(e.value).Some?
    ensures SortedMetas(s) == s
  {
    SortedMetasSorted(s);
    LessNeverEqual(s);
    SortedMetasAll(s);
    OneSortedList(SortedMetas(s), s);
  }
}
