/** `plan_restore` as it runs: grouping, sorting and admitting with running totals. */
module RestorePlanner {
  import opened Types
  import opened RawEntries
  import opened RestorePlan

  function RowsAt(rowsByGen: map<(LbFrontKey, u32), seq<Row>>, front: LbFrontKey, generation: u32): seq<Row> {
    if (front, generation) in rowsByGen then rowsByGen[(front, generation)] else []
  }

  ghost predicate Groups(rowsByGen: map<(LbFrontKey, u32), seq<Row>>, endpoints: seq<Entry>) {
    forall front, generation: u32 :: RowsAt(rowsByGen, front, generation) == RowsFor(endpoints, front, generation)
  }

  /** Groups the endpoint rows by front and generation; undecodable keys are skipped. */
  method GroupByGeneration(endpoints: seq<Entry>) returns (rowsByGen: map<(LbFrontKey, u32), seq<Row>>)
    ensures Groups(rowsByGen, endpoints)
  {
    rowsByGen := map[];
    var i := 0;
    while i < |endpoints|
      invariant 0 <= i <= |endpoints|
      invariant Groups(rowsByGen, endpoints[..i])
    {
      var e := endpoints[i];
      assert endpoints[..i + 1][..i] == endpoints[..i];
      if DecodeEndpointKey(e.key).Some? {
        var k := DecodeEndpointKey(e.key).value;
        var rows := RowsAt(rowsByGen, k.front, k.generation) + [Row(k.slot, e)];
        rowsByGen := rowsByGen[(k.front, k.generation) := rows];
      }
      i := i + 1;
    }
    assert endpoints[..i] == endpoints;
  }

  method SortMetas(metas: seq<Entry>) returns (sorted: seq<Entry>)
    ensures sorted == SortedMetas(metas)
  {
    sorted := [];
    var i := 0;
    while i < |metas|
      invariant 0 <= i <= |metas| && sorted == SortedMetas(metas[..i])
    {
      assert metas[..i + 1][..i] == metas[..i];
      if DecodeMeta(metas[i].value).Some? {
        sorted := Insert(sorted, metas[i]);
      }
      i := i + 1;
    }
    assert metas[..i] == metas;
  }

  /** The rows of a meta entry, in slot order, taken out of the grouping. */
  method TakeRows(rowsByGen: map<(LbFrontKey, u32), seq<Row>>, ghost endpoints: seq<Entry>, m: Entry, meta: FrontMeta)
    returns (rows: seq<Row>, rest: map<(LbFrontKey, u32), seq<Row>>)
    requires DecodeMeta(m.value) == Some(meta)
    requires DecodeFront(m.key).Some? ==> StillThere(rowsByGen, endpoints, m)
    ensures rows == LiveRows(endpoints, m)
    ensures rest == if DecodeFront(m.key).Some? then Remove(rowsByGen, (DecodeFront(m.key).value, meta.generation)) else rowsByGen
  {
    var front := DecodeFront(m.key);
    rows, rest := [], rowsByGen;
    if front.Some? {
      rows := RowsAt(rowsByGen, front.value, meta.generation);
      rest := Remove(rowsByGen, (front.value, meta.generation));
    }
    rows := SortBySlot(Below(rows, meta.count));
  }

  /** What the next meta entry adds to the plan. */
  lemma NextPlan(sorted: seq<Entry>, n: nat, endpoints: seq<Entry>, caps: Caps)
    requires n < |sorted|
    ensures var p, m := PlanFor(sorted[..n], endpoints, caps), sorted[n];
            PlanFor(sorted[..n + 1], endpoints, caps)
            == if Admitted(p, endpoints, m, caps)
               then Plan(p.fronts + [CopyOf(endpoints, m)], p.rowsUsed + |LiveRows(endpoints, m)|, p.dropped)
               else p.(dropped := p.dropped + 1)
  {
    assert sorted[..n + 1][..n] == sorted[..n];
  }

  /** `plan_restore` for the two front maps. */
  method PlanRestore(metas: seq<Entry>, endpoints: seq<Entry>, caps: Caps)
    returns (fronts: seq<FrontCopy>, dropped: nat)
    ensures fronts == PlanOf(metas, endpoints, caps).fronts
    ensures dropped == PlanOf(metas, endpoints, caps).dropped
  {
    var rowsByGen := GroupByGeneration(endpoints);
    var sorted := SortMetas(metas);
    AllThereAtFirst(rowsByGen, endpoints, metas);
    var rowsUsed: nat := 0;
    fronts, dropped := [], 0;
    var n := 0;
    while n < |sorted|
      invariant 0 <= n <= |sorted|
      invariant Plan(fronts, rowsUsed, dropped) == PlanFor(sorted[..n], endpoints, caps)
      invariant AllThere(rowsByGen, endpoints, sorted, n)
    {
      var m := sorted[n];
      DecodableMeta(metas, n);
      NextPlan(sorted, n, endpoints, caps);
      var meta := DecodeMeta(m.value).value;
      if DecodeFront(m.key).Some? {
        TakenApart(rowsByGen, endpoints, sorted, n);
      }
      var rows;
      rows, rowsByGen := TakeRows(rowsByGen, endpoints, m, meta);
      var complete := |rows| == meta.count;
      var fits := |fronts| < caps.meta && rowsUsed + |rows| <= caps.ep;
      if !complete || !fits || DecodeFront(m.key).None? {
        dropped := dropped + 1;
      } else {
        rowsUsed := rowsUsed + |rows|;
        fronts := fronts + [FrontCopy(m, RowEntries(rows))];
      }
      n := n + 1;
    }
    assert sorted[..n] == sorted;
  }

  /** The rows of a front yet to come have not been taken out of the grouping. */
  ghost predicate StillThere(rowsByGen: map<(LbFrontKey, u32), seq<Row>>, endpoints: seq<Entry>, m: Entry) {
    DecodeFront(m.key).Some? && DecodeMeta(m.value).Some? &&
    var front, generation := DecodeFront(m.key).value, DecodeMeta(m.value).value.generation;
    RowsAt(rowsByGen, front, generation) == RowsFor(endpoints, front, generation)
  }

  ghost predicate AllThere(rowsByGen: map<(LbFrontKey, u32), seq<Row>>, endpoints: seq<Entry>, sorted: seq<Entry>, n: nat) {
    forall i :: n <= i < |sorted| && DecodeFront(sorted[i].key).Some? ==> StillThere(rowsByGen, endpoints, sorted[i])
  }

  lemma AllThereAtFirst(rowsByGen: map<(LbFrontKey, u32), seq<Row>>, endpoints: seq<Entry>, metas: seq<Entry>)
    requires Groups(rowsByGen, endpoints)
    ensures Sorted(SortedMetas(metas)) && AllThere(rowsByGen, endpoints, SortedMetas(metas), 0)
  {
    SortedMetasSorted(metas);
    var sorted := SortedMetas(metas);
    forall i | 0 <= i < |sorted| && DecodeFront(sorted[i].key).Some?
      ensures StillThere(rowsByGen, endpoints, sorted[i])
    {
      DecodableMeta(metas, i);
    }
  }

  lemma DecodableMeta(metas: seq<Entry>, n: nat)
    requires n < |SortedMetas(metas)|
    ensures DecodeMeta(SortedMetas(metas)[n].value).Some?
  {
    SortedMetasSorted(metas);
    assert SortedMetas(metas)[n] in SortedMetas(metas);
  }

  /** Taking one front's rows leaves those of every later key: no two keys are the same front. */
  lemma TakenApart(rowsByGen: map<(LbFrontKey, u32), seq<Row>>, endpoints: seq<Entry>, sorted: seq<Entry>, n: nat)
    requires Sorted(sorted) && n < |sorted| && DecodeFront(sorted[n].key).Some? && DecodeMeta(sorted[n].value).Some?
    requires AllThere(rowsByGen, endpoints, sorted, n)
    ensures var taken := (DecodeFront(sorted[n].key).value, DecodeMeta(sorted[n].value).value.generation);
            AllThere(Remove(rowsByGen, taken), endpoints, sorted, n + 1)
  {
    forall i | n < i < |sorted| && DecodeFront(sorted[i].key).Some?
      ensures DecodeFront(sorted[i].key) != DecodeFront(sorted[n].key)
    {
      if DecodeFront(sorted[i].key) == DecodeFront(sorted[n].key) {
        DecodeFrontInjective(sorted[i].key, sorted[n].key);
        SameKeySamePlace(sorted, n, i);
      }
    }
  }
}
