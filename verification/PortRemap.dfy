/** Backend source ports: how a flow finds a reverse key no other live flow holds. */
module PortRemap {
  import opened Types

  const PROBE_LIMIT: nat := 16
  const REMAP_PORT_BASE: nat := 49152
  const REMAP_PORT_RANGE: nat := 16384

  /** Who a reverse row belongs to: the front address and port, and the client's real source port. */
  datatype Identity = Identity(frontIp: seq<byte>, frontPort: u16, clientPort: u16)

  datatype RevRow = RevRow(owner: Identity, closed: bool)

  /** The reverse rows of one client, pod, target port and protocol, by backend-facing source port. */
  type Rows = map<u16, RevRow>

  datatype Decision = NoRemap | Remap(port: u16) | Exhausted

  /** A closed row only lingers; its slot may be taken. */
  function ReverseOccupant(row: RevRow): Option<Identity> {
    if row.closed then None else Some(row.owner)
  }

  function Occupant(rows: Rows, port: u16): Option<Identity> {
    if port in rows then ReverseOccupant(rows[port]) else None
  }

  predicate OccupantConflicts(occupant: Option<Identity>, me: Identity) {
    occupant.Some? && occupant.value != me
  }

  /** Another live flow holds `port`. */
  predicate Taken(rows: Rows, port: u16, me: Identity) {
    OccupantConflicts(Occupant(rows, port), me)
  }

  /** Where a front starts probing; every result below holds for any value its address may hash to. */
  type Seed = x: int | 0 <= x < 16384

  /** The `i`-th port to try: both additions wrap at 16 bits. */
  function Candidate(seed: Seed, i: nat): (port: u16)
    requires i < PROBE_LIMIT
    ensures REMAP_PORT_BASE <= port <= 0xFFFF
  {
    var offset := (seed + i) % 0x1_0000 % REMAP_PORT_RANGE;
    (REMAP_PORT_BASE + offset) % 0x1_0000
  }

  /** Candidate `i` may be used. */
  predicate Usable(rows: Rows, me: Identity, seed: Seed, i: nat)
    requires i < PROBE_LIMIT
  {
    Candidate(seed, i) != me.clientPort && !Taken(rows, Candidate(seed, i), me)
  }

  function ProbeFrom(rows: Rows, me: Identity, seed: Seed, i: nat): Decision
    requires i <= PROBE_LIMIT
    decreases PROBE_LIMIT - i
  {
    if i == PROBE_LIMIT then Exhausted
    else if Usable(rows, me, seed, i) then Remap(Candidate(seed, i))
    else ProbeFrom(rows, me, seed, i + 1)
  }

  function Resolve(rows: Rows, me: Identity, seed: Seed): Decision
  {
    if !Taken(rows, me.clientPort, me) then NoRemap else ProbeFrom(rows, me, seed, 0)
  }

  method ResolveBackendSrcPort(rows: Rows, me: Identity, seed: Seed) returns (d: Decision)
    ensures d == Resolve(rows, me, seed)
  {
    if !OccupantConflicts(Occupant(rows, me.clientPort), me) {
      return NoRemap;
    }
    var i := 0;
    while i < PROBE_LIMIT
      invariant 0 <= i <= PROBE_LIMIT
      invariant ProbeFrom(rows, me, seed, 0) == ProbeFrom(rows, me, seed, i)
    {
      var offset := (seed + i) % 0x1_0000 % REMAP_PORT_RANGE;
      var candidate := (REMAP_PORT_BASE + offset) % 0x1_0000;
      if candidate != me.clientPort && !OccupantConflicts(Occupant(rows, candidate), me) {
        return Remap(candidate);
      }
      i := i + 1;
    }
    return Exhausted;
  }

  // ---- what the probe finds ---------------------------------------------------------------------

  /** The decision, said without the loop: the first usable candidate, if any. */
  lemma {:induction false} ProbeIsFirstUsable(rows: Rows, me: Identity, seed: Seed, i: nat)
    requires i <= PROBE_LIMIT
    ensures match ProbeFrom(rows, me, seed, i)
            case Remap(port) =>
              exists j :: i <= j < PROBE_LIMIT && port == Candidate(seed, j) && Usable(rows, me, seed, j)
                          && forall x :: i <= x < j ==> !Usable(rows, me, seed, x)
            case Exhausted => forall x :: i <= x < PROBE_LIMIT ==> !Usable(rows, me, seed, x)
            case NoRemap => false
    decreases PROBE_LIMIT - i
  {
    if i < PROBE_LIMIT && !Usable(rows, me, seed, i) {
      ProbeIsFirstUsable(rows, me, seed, i + 1);
    }
  }

  /** The port a decision commits to. */
  function PortOf(d: Decision, me: Identity): Option<u16> {
    match d
    case NoRemap => Some(me.clientPort)
    case Remap(port) => Some(port)
    case Exhausted => None
  }

  /** The probe walks up from the base plus the seed port by port, and from the last port on at the base again. */
  lemma CandidatesAreConsecutive(seed: Seed, i: nat)
    requires i < PROBE_LIMIT
    ensures i == 0 ==> Candidate(seed, i) == 49152 + seed
    ensures i > 0 ==> Candidate(seed, i) == if Candidate(seed, i - 1) == 65535 then 49152 else Candidate(seed, i - 1) + 1
  {
  }

  /** A commit never lands on a port another live flow holds: its row is missing, closed, or this flow's own. */
  lemma CommitIsFree(rows: Rows, me: Identity, seed: Seed)
    requires PortOf(Resolve(rows, me, seed), me).Some?
    ensures var port := PortOf(Resolve(rows, me, seed), me).value;
            !Taken(rows, port, me) && (port !in rows || rows[port].closed || rows[port].owner == me)
  {
    ProbeIsFirstUsable(rows, me, seed, 0);
  }

  ghost predicate SameOccupants(a: Rows, b: Rows, me: Identity, seed: Seed)
  {
    && Taken(a, me.clientPort, me) == Taken(b, me.clientPort, me)
    && forall i :: 0 <= i < PROBE_LIMIT ==> Taken(a, Candidate(seed, i), me) == Taken(b, Candidate(seed, i), me)
  }

  lemma {:induction false} SameProbe(a: Rows, b: Rows, me: Identity, seed: Seed, i: nat)
    requires i <= PROBE_LIMIT && SameOccupants(a, b, me, seed)
    ensures ProbeFrom(a, me, seed, i) == ProbeFrom(b, me, seed, i)
    decreases PROBE_LIMIT - i
  {
    if i < PROBE_LIMIT {
      SameProbe(a, b, me, seed, i + 1);
    }
  }

  /** A repeated resolve returns the committed port while the other flows on the candidates stay. */
  lemma RepeatedResolve(rows: Rows, me: Identity, seed: Seed, closed: bool, later: Rows)
    requires PortOf(Resolve(rows, me, seed), me).Some?
    requires SameOccupants(rows[PortOf(Resolve(rows, me, seed), me).value := RevRow(me, closed)], later, me, seed)
    ensures Resolve(later, me, seed) == Resolve(rows, me, seed)
  {
    var committed := rows[PortOf(Resolve(rows, me, seed), me).value := RevRow(me, closed)];
    CommitIsFree(rows, me, seed);
    assert SameOccupants(rows, committed, me, seed);
    SameProbe(rows, committed, me, seed, 0);
    SameProbe(committed, later, me, seed, 0);
  }

  // ---- exhaustion -------------------------------------------------------------------------------

  lemma CandidatesDiffer(seed: Seed, i: nat, j: nat)
    requires i < j < PROBE_LIMIT
    ensures Candidate(seed, i) != Candidate(seed, j)
  {
  }

  ghost function Candidates(seed: Seed, n: nat): set<u16>
    requires n <= PROBE_LIMIT
  {
    set i | 0 <= i < n :: Candidate(seed, i)
  }

  lemma {:induction false} CandidatesSize(seed: Seed, n: nat)
    requires n <= PROBE_LIMIT
    ensures |Candidates(seed, n)| == n
  {
    if n > 0 {
      CandidatesSize(seed, n - 1);
      forall i | 0 <= i < n - 1 ensures Candidate(seed, i) != Candidate(seed, n - 1) {
        CandidatesDiffer(seed, i, n - 1);
      }
      assert Candidates(seed, n) == Candidates(seed, n - 1) + {Candidate(seed, n - 1)};
    }
  }

  /** Exhausted exactly when the natural port is taken and no candidate is usable. */
  lemma ExhaustedIff(rows: Rows, me: Identity, seed: Seed)
    ensures Resolve(rows, me, seed).Exhausted? <==>
              Taken(rows, me.clientPort, me) && forall i :: 0 <= i < PROBE_LIMIT ==> !Usable(rows, me, seed, i)
  {
    ProbeIsFirstUsable(rows, me, seed, 0);
  }

  lemma AllButOne(all: set<u16>, x: u16)
    ensures |all - {x}| >= |all| - 1
  {
    assert all - {x} + {x} == all + {x};
  }

  /** So at least 15 distinct dynamic ports are then held by other live flows. */
  lemma ExhaustedIsFull(rows: Rows, me: Identity, seed: Seed)
    requires Resolve(rows, me, seed).Exhausted?
    ensures var held := Candidates(seed, PROBE_LIMIT) - {me.clientPort};
            |held| >= 15 && forall p :: p in held ==>
              49152 <= p <= 65535 && p in rows && !rows[p].closed && rows[p].owner != me
  {
    ExhaustedIff(rows, me, seed);
    CandidatesSize(seed, PROBE_LIMIT);
    AllButOne(Candidates(seed, PROBE_LIMIT), me.clientPort);
    forall p | p in Candidates(seed, PROBE_LIMIT) - {me.clientPort}
      ensures 49152 <= p <= 65535 && Taken(rows, p, me)
    {
      var i :| 0 <= i < PROBE_LIMIT && p == Candidate(seed, i);
      assert !Usable(rows, me, seed, i);
    }
  }

  // ---- every run ----------------------------------------------------------------------------------

  datatype Event = Open(me: Identity, seed: Seed) | Close(port: u16) | Evict(port: u16)

  function Next(rows: Rows, e: Event): Rows
  {
    match e
    case Open(me, seed) =>
      var port := PortOf(Resolve(rows, me, seed), me);
      if port.Some? then rows[port.value := RevRow(me, false)] else rows
    case Close(port) => if port in rows then rows[port := rows[port].(closed := true)] else rows
    case Evict(port) => Remove(rows, port)
  }

  function After(rows: Rows, trace: seq<Event>, n: nat): Rows
    requires n <= |trace|
  {
    if n == 0 then rows else Next(After(rows, trace, n - 1), trace[n - 1])
  }

  /** Only its own close or eviction ends a live reverse row: no other flow's commit ever overwrites it. */
  lemma {:induction false} LiveRowsPersist(rows: Rows, trace: seq<Event>, n: nat, port: u16)
    requires n <= |trace| && port in rows && !rows[port].closed
    requires forall i :: 0 <= i < n ==> trace[i] != Close(port) && trace[i] != Evict(port)
    ensures port in After(rows, trace, n) && After(rows, trace, n)[port] == rows[port]
  {
    if n > 0 {
      LiveRowsPersist(rows, trace, n - 1, port);
      var now := After(rows, trace, n - 1);
      if trace[n - 1].Open? {
        var Open(me, seed) := trace[n - 1];
        if PortOf(Resolve(now, me, seed), me) == Some(port) {
          CommitIsFree(now, me, seed);
        }
      }
    }
  }
}
