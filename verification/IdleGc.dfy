/** Idle garbage collection: one parity bit per row stands for "touched since the last flip". */
module IdleGc {
  import opened Types
  import opened FlowRow
  import opened FlowKeys

  /**
   * A sweep in progress: the keys its snapshot doomed and has not come to yet, and the
   * one it has just found still idle and is about to remove.
   */
  datatype Sweep = Sweep(owner: byte, todo: set<FlowKey>, held: Option<FlowKey>, failed: bool)

  datatype State = State(table: map<FlowKey, FlowFlags>, parity: GcParity, sweep: Option<Sweep>)

  function ParityOf(p: GcParity, owner: byte): bool {
    if owner == IPPROTO_UDP then p.udp else p.tcp
  }

  /** The parities the controller hands a sweep: its own class's, and `false` for the other. */
  function SweepParity(p: GcParity, owner: byte): GcParity {
    GcParity(owner == IPPROTO_UDP && p.udp, owner == IPPROTO_TCP && p.tcp)
  }

  function Flip(p: GcParity, owner: byte): GcParity {
    if owner == IPPROTO_UDP then p.(udp := !p.udp) else p.(tcp := !p.tcp)
  }

  predicate RowSwept(k: FlowKey, flags: FlowFlags, owner: byte, p: GcParity) {
    SweepClass(flags, Proto(k)) == owner && ParitySweepDeletes(flags, Proto(k), p)
  }

  /**
   * What can happen, in any order. Reading a row again and removing it are two system
   * calls, so anything may come between `Recheck` and `RemoveHeld`.
   */
  datatype Event =
    | Packet(key: FlowKey, tcp: TcpBits, side: FlowSide)
    | Evict(key: FlowKey)
    | Begin(owner: byte)
    | Recheck(key: FlowKey)
    | RemoveHeld(ok: bool)
    | End(flipOk: bool)
    | Abort

  function Next(s: State, e: Event): State {
    match e
    case Packet(k, tcp, side) =>
      (match Step(Lookup(s.table, k), Proto(k), tcp, side, s.parity)
       case Write(flags) => s.(table := s.table[k := flags])
       case _ => s)
    case Evict(k) => s.(table := Remove(s.table, k))
    case Begin(owner) =>
      if s.sweep.Some? || (owner != IPPROTO_UDP && owner != IPPROTO_TCP) then s
      else
        var doomed := set k | k in s.table && RowSwept(k, s.table[k], owner, SweepParity(s.parity, owner));
        s.(sweep := Some(Sweep(owner, doomed, None, false)))
    case Recheck(k) =>
      if s.sweep.None? || s.sweep.value.held.Some? || k !in s.sweep.value.todo then s
      else
        var w := s.sweep.value;
        var idle := k in s.table && RowSwept(k, s.table[k], w.owner, SweepParity(s.parity, w.owner));
        s.(sweep := Some(w.(todo := w.todo - {k}, held := if idle then Some(k) else None)))
    case RemoveHeld(ok) =>
      if s.sweep.None? || s.sweep.value.held.None? then s
      else
        var w, k := s.sweep.value, s.sweep.value.held.value;
        if ok && k in s.table then State(Remove(s.table, k), s.parity, Some(w.(held := None)))
        else s.(sweep := Some(w.(held := None, failed := true)))
    case End(flipOk) =>
      if s.sweep.None? || s.sweep.value.todo != {} || s.sweep.value.held.Some? then s
      else
        var w := s.sweep.value;
        State(s.table, if !w.failed && flipOk then Flip(s.parity, w.owner) else s.parity, None)
    case Abort => s.(sweep := None)
  }

  function After(p: GcParity, trace: seq<Event>, n: nat): State
    requires n <= |trace|
  {
    if n == 0 then State(map[], p, None) else Next(After(p, trace, n - 1), trace[n - 1])
  }

  /** Event `i` is a packet that created row `k` or matched it. */
  predicate Touches(p: GcParity, trace: seq<Event>, i: nat, k: FlowKey)
    requires i < |trace|
  {
    trace[i].Packet? && trace[i].key == k && k in After(p, trace, i + 1).table
  }

  predicate Flips(p: GcParity, trace: seq<Event>, i: nat, owner: byte)
    requires i < |trace|
  {
    ParityOf(After(p, trace, i).parity, owner) != ParityOf(After(p, trace, i + 1).parity, owner)
  }

  /** How often class `owner` flipped since a packet last touched `k`. */
  function FlipsSince(p: GcParity, trace: seq<Event>, n: nat, k: FlowKey, owner: byte): nat
    requires n <= |trace|
  {
    if n == 0 then 0
    else if Touches(p, trace, n - 1, k) then 0
    else FlipsSince(p, trace, n - 1, k, owner) + if Flips(p, trace, n - 1, owner) then 1 else 0
  }

  /** No packet touched `k` since the last flip of `owner`. */
  ghost predicate IdleSinceFlip(p: GcParity, trace: seq<Event>, n: nat, k: FlowKey, owner: byte)
    requires n <= |trace|
  {
    exists i :: 0 <= i < n && Flips(p, trace, i, owner) && forall j :: i < j < n ==> !Touches(p, trace, j, k)
  }

  /** Whose sweep a row is for: UDP rows and closed TCP rows are the UDP one's, open TCP rows the TCP one's. */
  predicate Owned(k: FlowKey, flags: FlowFlags, owner: byte) {
    || (owner == IPPROTO_UDP && (Proto(k) == IPPROTO_UDP || (Proto(k) == IPPROTO_TCP && flags.closed)))
    || (owner == IPPROTO_TCP && Proto(k) == IPPROTO_TCP && !flags.closed)
  }

  /** The row's own parity bit reads stale exactly when one flip passed it by; two never do. */
  ghost predicate ClockIsExact(p: GcParity, trace: seq<Event>, n: nat)
    requires n <= |trace|
  {
    var s := After(p, trace, n);
    forall k, owner :: k in s.table && Owned(k, s.table[k], owner) ==>
      && FlipsSince(p, trace, n, k, owner) <= 1
      && (RowSwept(k, s.table[k], owner, s.parity) <==> FlipsSince(p, trace, n, k, owner) == 1)
  }

  /** A running sweep still has every stale row of its class ahead of it or in hand, or has failed. */
  ghost predicate SweepIsComplete(s: State) {
    s.sweep.Some? ==>
      var w := s.sweep.value;
      && (w.owner == IPPROTO_UDP || w.owner == IPPROTO_TCP)
      && (w.failed || forall k :: k in s.table && RowSwept(k, s.table[k], w.owner, s.parity) ==>
                        k in w.todo || w.held == Some(k))
  }

  lemma SweepParityAgrees(k: FlowKey, flags: FlowFlags, owner: byte, p: GcParity)
    requires owner == IPPROTO_UDP || owner == IPPROTO_TCP
    ensures RowSwept(k, flags, owner, SweepParity(p, owner)) == RowSwept(k, flags, owner, p)
  {
  }

  lemma SweepStaysComplete(s: State, e: Event)
    requires SweepIsComplete(s)
    ensures SweepIsComplete(Next(s, e))
  {
    var s' := Next(s, e);
    if s'.sweep.Some? && !s'.sweep.value.failed {
      var w := s'.sweep.value;
      forall k | k in s'.table && RowSwept(k, s'.table[k], w.owner, s'.parity) ensures k in w.todo || w.held == Some(k) {
        SweepParityAgrees(k, s'.table[k], w.owner, s'.parity);
      }
    }
  }

  /** One event keeps the clock exact. */
  lemma ClockStep(p: GcParity, trace: seq<Event>, n: nat)
    requires n < |trace| && ClockIsExact(p, trace, n) && SweepIsComplete(After(p, trace, n))
    ensures ClockIsExact(p, trace, n + 1)
  {
    var s, s' := After(p, trace, n), After(p, trace, n + 1);
    forall k, owner | k in s'.table && Owned(k, s'.table[k], owner)
      ensures FlipsSince(p, trace, n + 1, k, owner) <= 1
      ensures RowSwept(k, s'.table[k], owner, s'.parity) <==> FlipsSince(p, trace, n + 1, k, owner) == 1
    {
      if Touches(p, trace, n, k) {
      } else {
        assert k in s.table && s.table[k] == s'.table[k];
        assert Owned(k, s.table[k], owner);
      }
    }
  }

  lemma {:induction false} Invariant(p: GcParity, trace: seq<Event>, n: nat)
    requires n <= |trace|
    ensures ClockIsExact(p, trace, n) && SweepIsComplete(After(p, trace, n))
  {
    if n > 0 {
      Invariant(p, trace, n - 1);
      ClockStep(p, trace, n - 1);
      SweepStaysComplete(After(p, trace, n - 1), trace[n - 1]);
    }
  }

  lemma {:induction false} FlipsSinceIsIdle(p: GcParity, trace: seq<Event>, n: nat, k: FlowKey, owner: byte)
    requires n <= |trace|
    ensures FlipsSince(p, trace, n, k, owner) >= 1 <==> IdleSinceFlip(p, trace, n, k, owner)
  {
    if n > 0 {
      FlipsSinceIsIdle(p, trace, n - 1, k, owner);
      IdleStep(p, trace, n - 1, k, owner);
    }
  }

  lemma IdleStep(p: GcParity, trace: seq<Event>, n: nat, k: FlowKey, owner: byte)
    requires n < |trace|
    ensures IdleSinceFlip(p, trace, n + 1, k, owner)
            <==> Flips(p, trace, n, owner) || (IdleSinceFlip(p, trace, n, k, owner) && !Touches(p, trace, n, k))
  {
    if IdleSinceFlip(p, trace, n + 1, k, owner) {
      var i :| 0 <= i < n + 1 && Flips(p, trace, i, owner) && forall j :: i < j < n + 1 ==> !Touches(p, trace, j, k);
    }
    if IdleSinceFlip(p, trace, n, k, owner) && !Touches(p, trace, n, k) {
      var i :| 0 <= i < n && Flips(p, trace, i, owner) && forall j :: i < j < n ==> !Touches(p, trace, j, k);
    }
  }

  // ---- the theorem ----------------------------------------------------------------------------------

  /** From state `m` on, up to state `n`, the sweep has `k` in hand. */
  ghost predicate InHand(p: GcParity, trace: seq<Event>, m: nat, n: nat, k: FlowKey, owner: byte)
    requires m <= n <= |trace|
  {
    forall j :: m <= j <= n ==>
      After(p, trace, j).sweep.Some? && After(p, trace, j).sweep.value.held == Some(k) && After(p, trace, j).sweep.value.owner == owner
  }

  /** A key in hand was taken by a recheck, and has been in hand since. */
  lemma {:induction false} TakenByRecheck(p: GcParity, trace: seq<Event>, n: nat, k: FlowKey) returns (m: nat)
    requires n <= |trace| && After(p, trace, n).sweep.Some? && After(p, trace, n).sweep.value.held == Some(k)
    ensures m < n && trace[m] == Recheck(k) && k in After(p, trace, m).table
    ensures After(p, trace, m).sweep.Some? && After(p, trace, m).sweep.value.owner == After(p, trace, n).sweep.value.owner
    ensures InHand(p, trace, m + 1, n, k, After(p, trace, n).sweep.value.owner)
    ensures var w := After(p, trace, m).sweep.value;
            RowSwept(k, After(p, trace, m).table[k], w.owner, SweepParity(After(p, trace, m).parity, w.owner))
  {
    var before := After(p, trace, n - 1);
    if before.sweep.Some? && before.sweep.value.held == Some(k) {
      m := TakenByRecheck(p, trace, n - 1, k);
    } else {
      m := n - 1;
    }
  }

  /** While a key is in hand no parity flips, so only packets end its idleness. */
  lemma {:induction false} IdleWhileInHand(p: GcParity, trace: seq<Event>, m: nat, n: nat, k: FlowKey, owner: byte)
    requires m <= n <= |trace| && FlipsSince(p, trace, m, k, owner) >= 1
    requires forall j :: m <= j < n ==> !Flips(p, trace, j, owner)
    ensures FlipsSince(p, trace, n, k, owner) >= 1 <==> forall j :: m <= j < n ==> !Touches(p, trace, j, k)
    decreases n
  {
    if m < n {
      IdleWhileInHand(p, trace, m, n - 1, k, owner);
      assert !Flips(p, trace, n - 1, owner);
    }
  }

  lemma NoFlipsInHand(p: GcParity, trace: seq<Event>, m: nat, n: nat, k: FlowKey, owner: byte)
    requires m < n <= |trace| && InHand(p, trace, m + 1, n, k, owner)
    ensures forall j :: m <= j < n ==> !Flips(p, trace, j, owner)
  {
    forall j | m <= j < n ensures !Flips(p, trace, j, owner) {
      var x := j + 1;
      assert After(p, trace, x).sweep.Some?;
      NoFlipIntoHand(p, trace, j, k, owner);
    }
  }

  lemma NoFlipIntoHand(p: GcParity, trace: seq<Event>, n: nat, k: FlowKey, owner: byte)
    requires n < |trace| && After(p, trace, n + 1).sweep.Some? && After(p, trace, n + 1).sweep.value.held == Some(k)
    ensures !Flips(p, trace, n, owner)
  {
  }

  /**
   * A removed row was of the sweep's class and idle when it was checked again, and has been
   * touched since the last flip if and only if a packet matched it between that check and
   * its removal.
   */
  lemma RemovesOnlyCheckedRows(p: GcParity, trace: seq<Event>, n: nat, k: FlowKey) returns (m: nat)
    requires n < |trace| && trace[n].RemoveHeld?
    requires k in After(p, trace, n).table && k !in After(p, trace, n + 1).table
    ensures m < n && trace[m] == Recheck(k) && After(p, trace, m).sweep.Some? && k in After(p, trace, m).table
    ensures var owner := After(p, trace, m).sweep.value.owner;
            && Owned(k, After(p, trace, m).table[k], owner)
            && IdleSinceFlip(p, trace, m, k, owner)
            && (IdleSinceFlip(p, trace, n, k, owner) <==> forall j :: m < j < n ==> !Touches(p, trace, j, k))
  {
    m := TakenByRecheck(p, trace, n, k);
    CheckedIsIdle(p, trace, m, k);
    TouchedInHandIff(p, trace, m, n, k, After(p, trace, m).sweep.value.owner);
  }

  lemma CheckedIsIdle(p: GcParity, trace: seq<Event>, m: nat, k: FlowKey)
    requires m < |trace| && k in After(p, trace, m).table && After(p, trace, m).sweep.Some?
    requires var w := After(p, trace, m).sweep.value;
             RowSwept(k, After(p, trace, m).table[k], w.owner, SweepParity(After(p, trace, m).parity, w.owner))
    ensures var owner := After(p, trace, m).sweep.value.owner;
            Owned(k, After(p, trace, m).table[k], owner) && IdleSinceFlip(p, trace, m, k, owner)
  {
    Invariant(p, trace, m);
    var s := After(p, trace, m);
    SweepParityAgrees(k, s.table[k], s.sweep.value.owner, s.parity);
    FlipsSinceIsIdle(p, trace, m, k, s.sweep.value.owner);
  }

  lemma TouchedInHandIff(p: GcParity, trace: seq<Event>, m: nat, n: nat, k: FlowKey, owner: byte)
    requires m < n <= |trace| && trace[m].Recheck? && InHand(p, trace, m + 1, n, k, owner)
    requires IdleSinceFlip(p, trace, m, k, owner)
    ensures IdleSinceFlip(p, trace, n, k, owner) <==> forall j :: m < j < n ==> !Touches(p, trace, j, k)
  {
    FlipsSinceIsIdle(p, trace, m, k, owner);
    FlipsSinceIsIdle(p, trace, n, k, owner);
    NoFlipsInHand(p, trace, m, n, k, owner);
    IdleWhileInHand(p, trace, m, n, k, owner);
    assert !Touches(p, trace, m, k);
  }

  /** A sweep that finished without a failed delete left no such row behind. */
  lemma LeavesNoneIdle(p: GcParity, trace: seq<Event>, n: nat, k: FlowKey)
    requires n <= |trace|
    requires var s := After(p, trace, n);
             && s.sweep.Some? && s.sweep.value.todo == {} && s.sweep.value.held.None? && !s.sweep.value.failed
             && k in s.table && Owned(k, s.table[k], s.sweep.value.owner)
    ensures !IdleSinceFlip(p, trace, n, k, After(p, trace, n).sweep.value.owner)
  {
    Invariant(p, trace, n);
    FlipsSinceIsIdle(p, trace, n, k, After(p, trace, n).sweep.value.owner);
  }

  /** No row survives two flips of its class untouched, however it moved between classes. */
  lemma NeverTwoFlipsOld(p: GcParity, trace: seq<Event>, n: nat, k: FlowKey, owner: byte)
    requires n <= |trace|
    requires k in After(p, trace, n).table && Owned(k, After(p, trace, n).table[k], owner)
    ensures FlipsSince(p, trace, n, k, owner) <= 1
  {
    Invariant(p, trace, n);
  }

  // ---- the race the recheck leaves ------------------------------------------------------------------

  function UdpKey(): FlowKey {
    seq(38, i => if i == 36 then IPPROTO_UDP else 0)
  }

  /** A row idle for one flip is checked, matched by a packet, and removed. */
  function Race(): seq<Event> {
    var packet := Event.Packet(UdpKey(), TcpBits(false, false, false), Client);
    [packet, Begin(IPPROTO_UDP), End(true), Begin(IPPROTO_UDP), Recheck(UdpKey()), packet, RemoveHeld(true)]
  }

  lemma BeginOnOneRow(k: FlowKey, flags: FlowFlags, p: GcParity)
    ensures Next(State(map[k := flags], p, None), Begin(IPPROTO_UDP))
            == State(map[k := flags], p,
                     Some(Sweep(IPPROTO_UDP, if RowSwept(k, flags, IPPROTO_UDP, p) then {k} else {}, None, false)))
  {
    SweepParityAgrees(k, flags, IPPROTO_UDP, p);
    var doomed := set x | x in map[k := flags] && RowSwept(x, map[k := flags][x], IPPROTO_UDP, SweepParity(p, IPPROTO_UDP));
    assert doomed == if RowSwept(k, flags, IPPROTO_UDP, p) then {k} else {};
  }

  /** The states of the race: the row, then its first sweep and flip, then the second sweep up to the removal. */
  lemma RaceWarmUp(p: GcParity, k: FlowKey, older: FlowFlags)
    requires k == UdpKey() && older == NO_FLAGS.(udpParity := p.udp)
    ensures After(p, Race(), 3) == State(map[k := older], p.(udp := !p.udp), None)
  {
    var t, q := Race(), p.(udp := !p.udp);
    assert Proto(k) == IPPROTO_UDP;
    assert After(p, t, 0) == State(map[], p, None);
    assert After(p, t, 1) == State(map[k := older], p, None);
    BeginOnOneRow(k, older, p);
    assert After(p, t, 2) == State(map[k := older], p, Some(Sweep(IPPROTO_UDP, {}, None, false)));
    assert After(p, t, 3) == State(map[k := older], q, None);
  }

  lemma RaceStates(p: GcParity, k: FlowKey, older: FlowFlags, newer: FlowFlags)
    requires k == UdpKey() && older == NO_FLAGS.(udpParity := p.udp) && newer == NO_FLAGS.(udpParity := !p.udp)
    ensures var q := p.(udp := !p.udp);
            && After(p, Race(), 5) == State(map[k := older], q, Some(Sweep(IPPROTO_UDP, {}, Some(k), false)))
            && After(p, Race(), 6) == State(map[k := newer], q, Some(Sweep(IPPROTO_UDP, {}, Some(k), false)))
  {
    var t, q := Race(), p.(udp := !p.udp);
    assert Proto(k) == IPPROTO_UDP;
    RaceWarmUp(p, k, older);
    BeginOnOneRow(k, older, q);
    assert After(p, t, 4) == State(map[k := older], q, Some(Sweep(IPPROTO_UDP, {k}, None, false)));
    SweepParityAgrees(k, older, IPPROTO_UDP, q);
    assert {k} - {k} == {};
    assert After(p, t, 5) == State(map[k := older], q, Some(Sweep(IPPROTO_UDP, {}, Some(k), false)));
    assert After(p, t, 6) == State(map[k := newer], q, Some(Sweep(IPPROTO_UDP, {}, Some(k), false)));
  }

  /** The row it removes was touched since the last flip: its parity bit is fresh. */
  lemma RaceRemovesAFreshRow(p: GcParity)
    ensures var s, k := After(p, Race(), 6), UdpKey();
            && k in s.table && k !in After(p, Race(), 7).table
            && !RowSwept(k, s.table[k], IPPROTO_UDP, s.parity)
            && !IdleSinceFlip(p, Race(), 6, k, IPPROTO_UDP)
  {
    var k, t := UdpKey(), Race();
    assert Proto(k) == IPPROTO_UDP;
    var q := p.(udp := !p.udp);
    var older, newer := NO_FLAGS.(udpParity := p.udp), NO_FLAGS.(udpParity := q.udp);
    RaceStates(p, k, older, newer);
    assert Touches(p, t, 5, k);
    Invariant(p, t, 6);
    FlipsSinceIsIdle(p, t, 6, k, IPPROTO_UDP);
  }
}
