/**
 * The idle sweep of port memos among everything else that writes the table: reading the memo,
 * reading its reverse row and removing the memo are three system calls.
 */
module MemoGc {
  import opened Types
  import opened FlowRow
  import opened FlowKeys
  import opened IdleGc
  import opened FlowSweep

  /** Where the sweep stands with one memo: it has read it, or has found that its reverse row does not want it. */
  datatype Hand = Free | HasRead(key: FlowKey, target: FlowKey) | HasChecked(key: FlowKey, target: FlowKey)

  datatype MemoState = MemoState(table: Table, hand: Hand)

  /** Others put and erase any entry, between any two steps of the sweep. */
  datatype MemoEvent =
    | Put(key: FlowKey, value: FlowValue)
    | Erase(key: FlowKey)
    | ReadMemo(key: FlowKey)
    | ReadRow
    | RemoveMemo(ok: bool)

  /** `still_idle`'s view of the reverse row `r` of the memo `k`: it is there, survives, and records the memo's client port. */
  predicate RowWants(t: Table, k: FlowKey, r: FlowKey, owner: byte, p: GcParity) {
    r in t && IsRow(r) && TagMatches(r, t[r]) && t[r].RevValue? && !SweptRow(t, r, owner, p)
    && t[r].originalClientPort == Decode(k).clientPort
  }

  /** The memo leads to a surviving row that records its client port. */
  predicate IsLive(t: Table, k: FlowKey, owner: byte, p: GcParity) {
    k in t && t[k].MemoValue? && RowWants(t, k, MemoTarget(k, t[k].backendSrcPort), owner, p)
  }

  function NextMemo(s: MemoState, e: MemoEvent, owner: byte, p: GcParity): MemoState {
    match e
    case Put(k, v) => s.(table := s.table[k := v])
    case Erase(k) => s.(table := Remove(s.table, k))
    case ReadMemo(k) =>
      s.(hand := if k in s.table && s.table[k].MemoValue? then HasRead(k, MemoTarget(k, s.table[k].backendSrcPort)) else Free)
    case ReadRow =>
      if !s.hand.HasRead? then s
      else s.(hand := if RowWants(s.table, s.hand.key, s.hand.target, owner, p) then Free else HasChecked(s.hand.key, s.hand.target))
    case RemoveMemo(ok) =>
      if !s.hand.HasChecked? then s
      else MemoState(if ok then Remove(s.table, s.hand.key) else s.table, Free)
  }

  /** One sweep: its class and parities, and what happens while it runs. */
  datatype MemoRun = MemoRun(owner: byte, p: GcParity, events: seq<MemoEvent>, states: seq<MemoState>) {
    ghost predicate StepAt(i: nat)
      requires |states| == |events| + 1 && i < |events|
    {
      states[i + 1] == NextMemo(states[i], events[i], owner, p)
    }

    ghost predicate Valid() {
      && |states| == |events| + 1 && states[0].hand == Free
      && forall i :: 0 <= i < |events| ==> StepAt(i)
    }
  }

  /** Another writer puts or erases `k`. */
  predicate Touches(e: MemoEvent, k: FlowKey) {
    (e.Put? || e.Erase?) && e.key == k
  }

  ghost predicate Untouched(r: MemoRun, a: nat, b: nat, k: FlowKey)
    requires a <= b <= |r.events|
  {
    forall j :: a <= j < b ==> !Touches(r.events[j], k)
  }

  /** From state `a` to state `b` the sweep's hand is `h`. */
  ghost predicate HandStays(r: MemoRun, a: nat, b: nat, h: Hand)
    requires r.Valid() && a <= b <= |r.events|
  {
    forall j :: a <= j <= b ==> r.states[j].hand == h
  }

  lemma StepKeepsEntry(s: MemoState, e: MemoEvent, owner: byte, p: GcParity, k: FlowKey)
    requires !Touches(e, k) && !e.RemoveMemo?
    ensures Lookup(NextMemo(s, e, owner, p).table, k) == Lookup(s.table, k)
  {
  }

  lemma HandStep(s: MemoState, e: MemoEvent, owner: byte, p: GcParity)
    ensures var h := NextMemo(s, e, owner, p).hand;
            && (h.HasRead? && h != s.hand ==>
                  e == ReadMemo(h.key) && h.key in s.table && s.table[h.key].MemoValue?
                  && h.target == MemoTarget(h.key, s.table[h.key].backendSrcPort))
            && (h.HasChecked? && h != s.hand ==>
                  e == ReadRow && s.hand == HasRead(h.key, h.target) && !RowWants(s.table, h.key, h.target, owner, p))
            && (h != Free && h == s.hand && e.RemoveMemo? ==> h.HasRead?)
  {
  }

  /** A memo in hand was read, and its target is the one read then. */
  lemma {:induction false} WasRead(r: MemoRun, n: nat, k: FlowKey, target: FlowKey) returns (m: nat)
    requires r.Valid() && n <= |r.events| && r.states[n].hand == HasRead(k, target)
    ensures m < n && r.events[m] == ReadMemo(k) && HandStays(r, m + 1, n, HasRead(k, target))
    ensures var t := r.states[m].table; k in t && t[k].MemoValue? && target == MemoTarget(k, t[k].backendSrcPort)
  {
    if r.states[n - 1].hand == HasRead(k, target) {
      m := WasRead(r, n - 1, k, target);
    } else {
      assert r.StepAt(n - 1);
      HandStep(r.states[n - 1], r.events[n - 1], r.owner, r.p);
      m := n - 1;
    }
  }

  /** A memo about to be removed had its row read, and the row did not want it then. */
  lemma {:induction false} WasChecked(r: MemoRun, n: nat, k: FlowKey, target: FlowKey) returns (c: nat)
    requires r.Valid() && n <= |r.events| && r.states[n].hand == HasChecked(k, target)
    ensures c < n && r.events[c] == ReadRow && HandStays(r, c + 1, n, HasChecked(k, target))
    ensures r.states[c].hand == HasRead(k, target) && !RowWants(r.states[c].table, k, target, r.owner, r.p)
  {
    if r.states[n - 1].hand == HasChecked(k, target) {
      c := WasChecked(r, n - 1, k, target);
    } else {
      assert r.StepAt(n - 1);
      HandStep(r.states[n - 1], r.events[n - 1], r.owner, r.p);
      c := n - 1;
    }
  }

  /** The sweep itself removes nothing while its hand stays the same. */
  lemma NoRemovalInHand(r: MemoRun, j: nat, h: Hand)
    requires r.Valid() && j < |r.events| && r.states[j].hand == h && r.states[j + 1].hand == h && h != Free
    ensures r.events[j].RemoveMemo? ==> r.states[j + 1].table == r.states[j].table
  {
    assert r.StepAt(j);
  }

  lemma {:induction false} EntryStays(r: MemoRun, a: nat, b: nat, h: Hand, k: FlowKey)
    requires r.Valid() && a <= b <= |r.events| && h != Free && HandStays(r, a, b, h) && Untouched(r, a, b, k)
    ensures Lookup(r.states[b].table, k) == Lookup(r.states[a].table, k)
    decreases b
  {
    if a < b {
      EntryStays(r, a, b - 1, h, k);
      assert r.StepAt(b - 1);
      assert r.states[b - 1].hand == h && r.states[b].hand == h;
      NoRemovalInHand(r, b - 1, h);
      if !r.events[b - 1].RemoveMemo? {
        StepKeepsEntry(r.states[b - 1], r.events[b - 1], r.owner, r.p, k);
      }
    }
  }

  /** Reading changes nothing. */
  lemma ReadKeeps(r: MemoRun, j: nat)
    requires r.Valid() && j < |r.events| && (r.events[j].ReadMemo? || r.events[j].ReadRow?)
    ensures r.states[j + 1].table == r.states[j].table
  {
    assert r.StepAt(j);
  }

  /** Event `j` puts a row that wants the memo `k`, and it is still there at `n`. */
  ghost predicate PutsWanting(r: MemoRun, j: nat, n: nat, k: FlowKey, target: FlowKey)
    requires r.Valid() && j < n <= |r.events|
  {
    && r.events[j].Put? && r.events[j].key == target && RowWants(r.states[j + 1].table, k, target, r.owner, r.p)
    && Untouched(r, j + 1, n, target)
  }

  ghost predicate WantedSince(r: MemoRun, c: nat, n: nat, k: FlowKey, target: FlowKey)
    requires r.Valid() && n <= |r.events|
  {
    exists j :: c < j < n && PutsWanting(r, j, n, k, target)
  }

  /** A row that did not want the memo wants it later exactly if another writer put it so meanwhile. */
  lemma {:induction false} WantedIff(r: MemoRun, c: nat, n: nat, k: FlowKey, target: FlowKey)
    requires r.Valid() && c < n <= |r.events| && HandStays(r, c + 1, n, HasChecked(k, target))
    requires !RowWants(r.states[c + 1].table, k, target, r.owner, r.p)
    ensures RowWants(r.states[n].table, k, target, r.owner, r.p) <==> WantedSince(r, c, n, k, target)
    decreases n
  {
    if c + 1 < n {
      var b := n - 1;
      WantedIff(r, c, b, k, target);
      assert r.StepAt(b);
      assert r.states[b].hand == HasChecked(k, target) && r.states[n].hand == HasChecked(k, target);
      NoRemovalInHand(r, b, HasChecked(k, target));
      if Touches(r.events[b], target) {
        TouchedLast(r, c, n, k, target);
      } else {
        if !r.events[b].RemoveMemo? {
          StepKeepsEntry(r.states[b], r.events[b], r.owner, r.p, target);
        }
        SinceBefore(r, c, n, k, target);
        SameWants(r.states[b].table, r.states[n].table, k, target, r.owner, r.p);
      }
    }
  }

  lemma SameWants(t: Table, u: Table, k: FlowKey, target: FlowKey, owner: byte, p: GcParity)
    requires Lookup(t, target) == Lookup(u, target)
    ensures RowWants(t, k, target, owner, p) <==> RowWants(u, k, target, owner, p)
  {
  }

  lemma TouchedLast(r: MemoRun, c: nat, n: nat, k: FlowKey, target: FlowKey)
    requires r.Valid() && c + 1 < n <= |r.events| && Touches(r.events[n - 1], target)
    ensures RowWants(r.states[n].table, k, target, r.owner, r.p) <==> WantedSince(r, c, n, k, target)
  {
    assert r.StepAt(n - 1);
    if RowWants(r.states[n].table, k, target, r.owner, r.p) {
      assert PutsWanting(r, n - 1, n, k, target);
    }
  }

  lemma SinceBefore(r: MemoRun, c: nat, n: nat, k: FlowKey, target: FlowKey)
    requires r.Valid() && c + 1 < n <= |r.events| && !Touches(r.events[n - 1], target)
    ensures WantedSince(r, c, n - 1, k, target) <==> WantedSince(r, c, n, k, target)
  {
    var b := n - 1;
    forall j | c < j < b ensures PutsWanting(r, j, b, k, target) <==> PutsWanting(r, j, n, k, target) {
    }
    if WantedSince(r, c, n, k, target) {
      var j :| c < j < n && PutsWanting(r, j, n, k, target);
      assert PutsWanting(r, j, b, k, target);
    }
  }

  /**
   * In every interleaving, a memo the sweep removes was read at some event `m`, and the row it then
   * pointed at did not want it when that row was read at event `c`. If no other writer has written the
   * memo since `m`, it is live at its removal if and only if one has put a row that wants it since `c`,
   * and none has written that row after that.
   */
  lemma RemovedMemoWasUnwanted(r: MemoRun, n: nat, k: FlowKey) returns (m: nat, c: nat, target: FlowKey)
    requires r.Valid() && n < |r.events| && r.events[n].RemoveMemo?
    requires k in r.states[n].table && k !in r.states[n + 1].table
    ensures m < c < n && r.events[m] == ReadMemo(k) && r.events[c] == ReadRow
    ensures var t := r.states[m].table; k in t && t[k].MemoValue? && target == MemoTarget(k, t[k].backendSrcPort)
    ensures !RowWants(r.states[c].table, k, target, r.owner, r.p)
    ensures Untouched(r, m + 1, n, k) ==> (IsLive(r.states[n].table, k, r.owner, r.p) <==> WantedSince(r, c, n, k, target))
  {
    assert r.StepAt(n);
    target := r.states[n].hand.target;
    c := WasChecked(r, n, k, target);
    m := WasRead(r, c, k, target);
    ReadKeeps(r, c);
    WantedIff(r, c, n, k, target);
    if Untouched(r, m + 1, n, k) {
      MemoUnchanged(r, m, c, n, k, target);
    }
  }

  lemma MemoUnchanged(r: MemoRun, m: nat, c: nat, n: nat, k: FlowKey, target: FlowKey)
    requires r.Valid() && m < c < n <= |r.events| && r.events[m] == ReadMemo(k) && r.events[c] == ReadRow
    requires HandStays(r, m + 1, c, HasRead(k, target)) && HandStays(r, c + 1, n, HasChecked(k, target))
    requires Untouched(r, m + 1, n, k)
    ensures Lookup(r.states[n].table, k) == Lookup(r.states[m].table, k)
  {
    ReadKeeps(r, m);
    assert Untouched(r, m + 1, c, k) && Untouched(r, c + 1, n, k);
    EntryStays(r, m + 1, c, HasRead(k, target), k);
    ReadKeeps(r, c);
    EntryStays(r, c + 1, n, HasChecked(k, target), k);
  }

  /** On a table that does not change, the two reads decide as the sweep's snapshot does. */
  lemma RecheckIsTheSweeps(t: Table, k: FlowKey, owner: byte, p: GcParity)
    requires WellTagged(t) && k in t && Direction(k) == Some(PortMemo)
    ensures IsLive(t, k, owner, p) <==> !StillIdle(t, k, owner, p)
  {
    assert TagMatches(k, t[k]);
    var r := MemoTarget(k, t[k].backendSrcPort);
    assert r in t ==> TagMatches(r, t[r]);
  }

  // ---- the race ----------------------------------------------------------------------------------------

  /** A memo without a row is read and checked, its row is created, and the live memo is removed. */
  lemma RaceRemovesALiveMemo(t: Tuple, port: u16, owner: byte, p: GcParity, flags: FlowFlags) returns (r: MemoRun)
    requires t.Valid() && !RowSwept(Encode(t.(clientPort := port), Reverse), flags, owner, p)
    ensures var k := Encode(t, PortMemo);
            && r.Valid() && r.owner == owner && r.p == p && |r.events| == 4
            && r.events[2] == Put(MemoTarget(k, port), RevValue(flags, t.clientPort))
            && IsLive(r.states[3].table, k, owner, p) && k !in r.states[4].table
  {
    var k, v := Encode(t, PortMemo), RevValue(flags, t.clientPort);
    var x := MemoTarget(k, port);
    DecodeEncode(t, PortMemo);
    MemoFindsItsRow(t, port);
    var before: Table := map[k := MemoValue(port)];
    var after := before[x := v];
    assert x != k;
    r := MemoRun(owner, p, [ReadMemo(k), ReadRow, Put(x, v), RemoveMemo(true)],
                 [MemoState(before, Free), MemoState(before, HasRead(k, x)), MemoState(before, HasChecked(k, x)),
                  MemoState(after, HasChecked(k, x)), MemoState(Remove(after, k), Free)]);
    assert r.StepAt(0) && r.StepAt(1) && r.StepAt(2) && r.StepAt(3);
    forall i | 0 <= i < 4 ensures r.StepAt(i) {
    }
  }
}
