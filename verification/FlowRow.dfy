/** What a packet does to the conntrack row it matches, and which idle sweep owns the row. */
module FlowRow {
  import opened Types

  const IPPROTO_TCP: byte := 6
  const IPPROTO_UDP: byte := 17

  /** The header bits `flow_step` looks at. */
  datatype TcpBits = TcpBits(fin: bool, syn: bool, rst: bool)

  /** Bits 0 to 4 of a row's flag word, in order; no other bit is ever read or written. */
  datatype FlowFlags = FlowFlags(finClient: bool, finPod: bool, udpParity: bool, tcpParity: bool, closed: bool)

  const NO_FLAGS := FlowFlags(false, false, false, false, false)

  datatype FlowSide = Client | Pod

  datatype GcParity = GcParity(udp: bool, tcp: bool)

  datatype FlowStep = Keep | Write(flags: FlowFlags) | Skip

  /** The idle sweep that owns a row: its protocol's, except that closed TCP rows belong to the UDP sweep. */
  function SweepClass(flags: FlowFlags, proto: byte): byte {
    if proto == IPPROTO_TCP && flags.closed then IPPROTO_UDP else proto
  }

  predicate ParitySweepDeletes(flags: FlowFlags, proto: byte, parity: GcParity) {
    var owner := SweepClass(flags, proto);
    if owner == IPPROTO_UDP then flags.udpParity != parity.udp
    else if owner == IPPROTO_TCP then flags.tcpParity != parity.tcp
    else false
  }

  /** The FIN and closed bits after a TCP packet. */
  function AfterTcp(flags: FlowFlags, tcp: TcpBits, side: FlowSide): FlowFlags {
    var f0 := if tcp.syn then flags.(finClient := false, finPod := false, closed := false) else flags;
    var f1 := if tcp.rst then f0.(closed := true) else f0;
    var f2 := if tcp.fin then (if side.Client? then f1.(finClient := true) else f1.(finPod := true)) else f1;
    if f2.finClient && f2.finPod then f2.(closed := true) else f2
  }

  /** Copies the global parity of the row's sweep class into the row. */
  function CopyParity(flags: FlowFlags, proto: byte, parity: GcParity): FlowFlags {
    var owner := SweepClass(flags, proto);
    if owner == IPPROTO_UDP then flags.(udpParity := parity.udp)
    else if owner == IPPROTO_TCP then flags.(tcpParity := parity.tcp)
    else flags
  }

  function NewFlags(flags: FlowFlags, proto: byte, tcp: TcpBits, side: FlowSide, parity: GcParity): FlowFlags {
    CopyParity(if proto == IPPROTO_TCP then AfterTcp(flags, tcp, side) else flags, proto, parity)
  }

  /** `flow_step`: `existing` is the matched row's flags. */
  function Step(existing: Option<FlowFlags>, proto: byte, tcp: TcpBits, side: FlowSide, parity: GcParity): FlowStep {
    if proto == IPPROTO_TCP && tcp.rst && existing.None? then Skip
    else
      var flags := NewFlags(if existing.Some? then existing.value else NO_FLAGS, proto, tcp, side, parity);
      if existing == Some(flags) then Keep else Write(flags)
  }

  /** The accumulator form the dataplane calls: presence and flags apart, no flags when absent. */
  method FlowStepFlags(present: bool, existing: FlowFlags, proto: byte, tcp: TcpBits, side: FlowSide, parity: GcParity)
    returns (r: FlowStep)
    requires !present ==> existing == NO_FLAGS
    ensures r == Step(if present then Some(existing) else None, proto, tcp, side, parity)
  {
    var flags := existing;
    if proto == IPPROTO_TCP {
      if tcp.syn {
        flags := flags.(finClient := false, finPod := false, closed := false);
      }
      if tcp.rst {
        if !present {
          return Skip;
        }
        flags := flags.(closed := true);
      }
      if tcp.fin {
        match side {
          case Client => flags := flags.(finClient := true);
          case Pod => flags := flags.(finPod := true);
        }
      }
      if flags.finClient && flags.finPod {
        flags := flags.(closed := true);
      }
    }
    flags := CopyParity(flags, proto, parity);
    if present && existing == flags {
      return Keep;
    } else {
      return Write(flags);
    }
  }

  /** Repeating a packet at the same parity never writes again. */
  lemma RepeatKeeps(existing: Option<FlowFlags>, proto: byte, tcp: TcpBits, side: FlowSide, parity: GcParity)
    ensures var first := Step(existing, proto, tcp, side, parity);
            first.Write? ==> Step(Some(first.flags), proto, tcp, side, parity) == Keep
  {
  }

  // ---- the life of a TCP row ----------------------------------------------------------------------

  datatype Packet = Packet(tcp: TcpBits, side: FlowSide, parity: GcParity)

  /** The row of one TCP flow after the first `n` packets, starting with none. */
  function RowAfter(trace: seq<Packet>, n: nat): Option<FlowFlags>
    requires n <= |trace|
  {
    if n == 0 then None
    else
      var row, p := RowAfter(trace, n - 1), trace[n - 1];
      match Step(row, IPPROTO_TCP, p.tcp, p.side, p.parity)
      case Keep => row
      case Write(flags) => Some(flags)
      case Skip => row
  }

  /** Packet `i` falls after the row was created and no later packet, up to `n`, restarts the connection. */
  ghost predicate Counts(trace: seq<Packet>, i: nat, n: nat) {
    && i < n <= |trace|
    && (exists c :: 0 <= c <= i && !trace[c].tcp.rst)
    && (forall j :: i < j < n ==> !trace[j].tcp.syn)
  }

  ghost predicate SawRst(trace: seq<Packet>, n: nat)
    requires n <= |trace|
  {
    exists i :: 0 <= i < n && Counts(trace, i, n) && trace[i].tcp.rst
  }

  ghost predicate SawFin(trace: seq<Packet>, n: nat, side: FlowSide)
    requires n <= |trace|
  {
    exists i :: 0 <= i < n && Counts(trace, i, n) && trace[i].tcp.fin && trace[i].side == side
  }

  ghost predicate SawNonRst(trace: seq<Packet>, n: nat)
    requires n <= |trace|
  {
    exists c :: 0 <= c < n && !trace[c].tcp.rst
  }

  lemma CountsStep(trace: seq<Packet>, i: nat, n: nat)
    requires i <= n < |trace|
    ensures i < n ==> (Counts(trace, i, n + 1) <==> Counts(trace, i, n) && !trace[n].tcp.syn)
    ensures Counts(trace, n, n + 1) <==> SawNonRst(trace, n + 1)
  {
  }

  lemma SawRstStep(trace: seq<Packet>, n: nat)
    requires n < |trace|
    ensures SawRst(trace, n + 1) <==> (SawRst(trace, n) && !trace[n].tcp.syn)
                                      || (trace[n].tcp.rst && SawNonRst(trace, n + 1))
  {
    forall i | 0 <= i <= n { CountsStep(trace, i, n); }
    if SawRst(trace, n + 1) {
      var i :| 0 <= i < n + 1 && Counts(trace, i, n + 1) && trace[i].tcp.rst;
      assert i < n ==> Counts(trace, i, n);
    }
    if SawRst(trace, n) && !trace[n].tcp.syn {
      var i :| 0 <= i < n && Counts(trace, i, n) && trace[i].tcp.rst;
      assert Counts(trace, i, n + 1);
    }
  }

  lemma SawFinStep(trace: seq<Packet>, n: nat, side: FlowSide)
    requires n < |trace|
    ensures SawFin(trace, n + 1, side)
            <==> (SawFin(trace, n, side) && !trace[n].tcp.syn)
                 || (trace[n].tcp.fin && trace[n].side == side && SawNonRst(trace, n + 1))
  {
    forall i | 0 <= i <= n { CountsStep(trace, i, n); }
    if SawFin(trace, n + 1, side) {
      var i :| 0 <= i < n + 1 && Counts(trace, i, n + 1) && trace[i].tcp.fin && trace[i].side == side;
      assert i < n ==> Counts(trace, i, n);
    }
    if SawFin(trace, n, side) && !trace[n].tcp.syn {
      var i :| 0 <= i < n && Counts(trace, i, n) && trace[i].tcp.fin && trace[i].side == side;
      assert Counts(trace, i, n + 1);
    }
  }

  /** What the flags remember of the trace. */
  ghost predicate Remembers(row: Option<FlowFlags>, trace: seq<Packet>, n: nat)
    requires n <= |trace|
  {
    && (row.Some? <==> SawNonRst(trace, n))
    && (row.Some? ==>
          && row.value.finClient == SawFin(trace, n, Client)
          && row.value.finPod == SawFin(trace, n, Pod)
          && row.value.closed
             == (SawRst(trace, n) || (SawFin(trace, n, Client) && SawFin(trace, n, Pod))))
    && (row.None? ==> !SawRst(trace, n) && !SawFin(trace, n, Client) && !SawFin(trace, n, Pod))
  }

  lemma NonRstStep(trace: seq<Packet>, n: nat)
    requires n < |trace|
    ensures SawNonRst(trace, n + 1) <==> SawNonRst(trace, n) || !trace[n].tcp.rst
  {
  }

  lemma RemembersStep(row: Option<FlowFlags>, trace: seq<Packet>, n: nat)
    requires n < |trace| && Remembers(row, trace, n) && row == RowAfter(trace, n)
    ensures Remembers(RowAfter(trace, n + 1), trace, n + 1)
  {
    NonRstStep(trace, n);
    SawRstStep(trace, n);
    SawFinStep(trace, n, Client);
    SawFinStep(trace, n, Pod);
  }

  /** A row exists once a non-RST packet came; it is closed exactly when, since the last SYN, an RST or both FINs came. */
  lemma {:induction false} RowLifecycle(trace: seq<Packet>, n: nat)
    requires n <= |trace|
    ensures Remembers(RowAfter(trace, n), trace, n)
  {
    if n > 0 {
      RowLifecycle(trace, n - 1);
      RemembersStep(RowAfter(trace, n - 1), trace, n - 1);
    }
  }
}
