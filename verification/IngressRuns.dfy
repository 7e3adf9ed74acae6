/**
 * Publishers and pruners writing one list, each by get, modify and version-checked patch,
 * in every interleaving.
 */
module IngressRuns {
  import opened Types
  import opened Lease
  import opened Ingress
  import LeaseTiming

  const MAX_CONFLICT_RETRIES: nat := 5

  /** A node that publishes: the addresses that are its own, and those it wants listed. */
  datatype Writer = Writer(own: set<string>, desired: seq<string>) {
    predicate Valid() {
      forall ip :: ip in desired ==> ip in own
    }
  }

  /** Where a node's call stands: not started, or holding a patch built from version `version`. */
  datatype Local = Idle(attempt: nat) | Holding(attempt: nat, version: nat, patch: seq<Entry>)

  /** What one prune pass decides by. */
  datatype View = View(leases: Leases, now: int) {
    predicate Matches(ip: string) {
      LiveIp(leases, now, ip)
    }
  }

  /** A pruner: the pass it is in, the pass before, its suspects, and the patch in its hands. */
  datatype Pruner = Pruner(pass: Option<View>, last: Option<View>, previous: set<string>, current: set<string>,
                           held: Option<Corrected>)

  datatype Corrected = Corrected(version: nat, list: seq<Entry>)

  datatype State = State(version: nat, list: seq<Entry>, local: map<nat, Local>, pruners: map<nat, Pruner>)

  /**
   * `Fail` and `GiveUp` are calls that end without a patch. `Sighting` is an unmatched address
   * in another Service's list, `Reset` a pass on which the pruner may not prune.
   */
  datatype Event =
    | Get(node: nat)
    | Patch(node: nat)
    | Fail(node: nat)
    | OtherUpdate
    | PassStart(pruner: nat, view: View)
    | PruneGet(pruner: nat)
    | PrunePatch(pruner: nat)
    | GiveUp(pruner: nat)
    | Sighting(pruner: nat, ip: string)
    | PassEnd(pruner: nat)
    | Reset(pruner: nat)

  function LocalOf(s: State, n: nat): Local {
    if n in s.local then s.local[n] else Idle(0)
  }

  function PrunerOf(s: State, q: nat): Pruner {
    if q in s.pruners then s.pruners[q] else Pruner(None, None, {}, {}, None)
  }

  /** A publisher's event. */
  function Publish(w: map<nat, Writer>, s: State, e: Event): State
    requires (e.Get? || e.Patch? || e.Fail?) && e.node in w
  {
    var n, h := e.node, LocalOf(s, e.node);
    match e
    case Get(_) =>
      if !h.Idle? then s
      else
        var merged := Merged(s.list, w[n].own, w[n].desired);
        s.(local := s.local[n := if merged == s.list then Idle(0) else Holding(h.attempt, s.version, merged)])
    case Patch(_) =>
      if !h.Holding? then s
      else if h.version == s.version then s.(version := s.version + 1, list := h.patch, local := s.local[n := Idle(0)])
      else s.(local := s.local[n := Idle(if h.attempt + 1 < MAX_CONFLICT_RETRIES then h.attempt + 1 else 0)])
    case _ => s.(local := s.local[n := Idle(0)])
  }

  /** A pruner's event. */
  function Prune(s: State, e: Event): State
    requires !e.Get? && !e.Patch? && !e.Fail? && !e.OtherUpdate?
  {
    var q, p := e.pruner, PrunerOf(s, e.pruner);
    match e
    case PassStart(_, view) => if p.pass.Some? then s else s.(pruners := s.pruners[q := p.(pass := Some(view))])
    case PruneGet(_) =>
      if p.pass.None? || p.held.Some? then s
      else
        var v := p.pass.value;
        var kept := Kept(s.list, v.leases, v.now, p.previous);
        var held := if |kept| != |s.list| then Some(Corrected(s.version, kept)) else None;
        s.(pruners := s.pruners[q := p.(current := p.current + Sightings(s.list, v.leases, v.now), held := held)])
    case PrunePatch(_) =>
      if p.held.None? then s
      else
        var s' := s.(pruners := s.pruners[q := p.(held := None)]);
        if p.held.value.version == s.version then s'.(version := s.version + 1, list := p.held.value.list) else s'
    case GiveUp(_) => s.(pruners := s.pruners[q := p.(held := None)])
    case Sighting(_, ip) =>
      if p.pass.None? || p.pass.value.Matches(ip) then s else s.(pruners := s.pruners[q := p.(current := p.current + {ip})])
    case PassEnd(_) =>
      if p.pass.None? || p.held.Some? then s else s.(pruners := s.pruners[q := Pruner(None, p.pass, p.current, {}, None)])
    case _ => if p.pass.Some? then s else s.(pruners := s.pruners[q := Pruner(None, None, {}, {}, None)])
  }

  function Next(w: map<nat, Writer>, s: State, e: Event): State {
    match e
    case OtherUpdate => s.(version := s.version + 1)
    case Get(n) => if n in w then Publish(w, s, e) else s
    case Patch(n) => if n in w then Publish(w, s, e) else s
    case Fail(n) => if n in w then Publish(w, s, e) else s
    case _ => Prune(s, e)
  }

  /** Events, and the state before, between and after them. */
  datatype IngressRun = IngressRun(w: map<nat, Writer>, events: seq<Event>, states: seq<State>) {
    ghost predicate StepAt(i: nat)
      requires |states| == |events| + 1 && i < |events|
    {
      states[i + 1] == Next(w, states[i], events[i])
    }

    ghost predicate Valid() {
      && Disjoint(w) && |states| == |events| + 1
      && states[0].local == map[] && states[0].pruners == map[]
      && forall i :: 0 <= i < |events| ==> StepAt(i)
    }
  }

  ghost predicate Disjoint(w: map<nat, Writer>) {
    && (forall n :: n in w ==> w[n].Valid())
    && forall m, n :: m in w && n in w && m != n ==> w[m].own !! w[n].own
  }

  /** `w`'s own addresses in the list are exactly those it wants. */
  ghost predicate Published(list: seq<Entry>, w: Writer) {
    forall ip :: ip in w.own ==> (HasIp(list, ip) <==> ip in w.desired)
  }

  // ---- what every event keeps ------------------------------------------------------------------------

  /** A patch that could still land is the correction of the current list. */
  ghost predicate PatchesAreCorrections(w: map<nat, Writer>, s: State) {
    && (forall n :: n in s.local && s.local[n].Holding? ==>
          && n in w && s.local[n].version <= s.version
          && (s.local[n].version == s.version ==> s.local[n].patch == Merged(s.list, w[n].own, w[n].desired)))
    && (forall q :: q in s.pruners && s.pruners[q].held.Some? ==> PruneIsCorrection(s, s.pruners[q]))
  }

  ghost predicate PruneIsCorrection(s: State, p: Pruner)
    requires p.held.Some?
  {
    && p.pass.Some? && p.held.value.version <= s.version
    && (p.held.value.version == s.version ==>
          p.held.value.list == Kept(s.list, p.pass.value.leases, p.pass.value.now, p.previous))
  }

  lemma PublishKeepsPatches(w: map<nat, Writer>, s: State, e: Event)
    requires (e.Get? || e.Patch? || e.Fail?) && e.node in w && PatchesAreCorrections(w, s)
    ensures PatchesAreCorrections(w, Publish(w, s, e))
  {
  }

  lemma PruneKeepsPatches(w: map<nat, Writer>, s: State, e: Event)
    requires !e.Get? && !e.Patch? && !e.Fail? && !e.OtherUpdate? && PatchesAreCorrections(w, s)
    ensures PatchesAreCorrections(w, Prune(s, e))
  {
    var p, s' := PrunerOf(s, e.pruner), Prune(s, e);
    forall q | q in s'.pruners && s'.pruners[q].held.Some? ensures PruneIsCorrection(s', s'.pruners[q]) {
      assert q in s.pruners && s.pruners[q].held.Some? ==> PruneIsCorrection(s, s.pruners[q]);
    }
  }

  /** Suspects were unmatched when they were seen: the current ones in this pass, the previous ones in the one before. */
  ghost predicate SuspectsUnmatched(s: State) {
    forall q :: q in s.pruners ==> SuspectsOf(s.pruners[q])
  }

  ghost predicate SuspectsOf(p: Pruner) {
    && (forall ip :: ip in p.current ==> p.pass.Some? && !p.pass.value.Matches(ip))
    && (forall ip :: ip in p.previous ==> p.last.Some? && !p.last.value.Matches(ip))
  }

  lemma PruneKeepsSuspects(s: State, e: Event)
    requires !e.Get? && !e.Patch? && !e.Fail? && !e.OtherUpdate? && SuspectsUnmatched(s)
    ensures SuspectsUnmatched(Prune(s, e))
  {
    var q, s', p := e.pruner, Prune(s, e), PrunerOf(s, e.pruner);
    assert SuspectsOf(p);
    if s'.pruners != s.pruners && e.PruneGet? {
      forall ip | ip in s'.pruners[q].current ensures !p.pass.value.Matches(ip) {
        SightingsAre(s.list, p.pass.value.leases, p.pass.value.now, ip);
      }
    }
    forall x | x in s'.pruners ensures SuspectsOf(s'.pruners[x]) {
      assert x != q ==> SuspectsOf(s.pruners[x]);
    }
  }

  ghost predicate Inv(w: map<nat, Writer>, s: State) {
    PatchesAreCorrections(w, s) && SuspectsUnmatched(s)
  }

  lemma InvNext(w: map<nat, Writer>, s: State, e: Event)
    requires Inv(w, s)
    ensures Inv(w, Next(w, s, e))
  {
    if e.Get? || e.Patch? || e.Fail? {
      if e.node in w {
        PublishKeepsPatches(w, s, e);
      }
    } else if !e.OtherUpdate? {
      PruneKeepsPatches(w, s, e);
      PruneKeepsSuspects(s, e);
    }
  }

  lemma {:induction false} InvAlways(r: IngressRun, n: nat)
    requires r.Valid() && n <= |r.events|
    ensures Inv(r.w, r.states[n])
  {
    if n > 0 {
      InvAlways(r, n - 1);
      assert r.StepAt(n - 1);
      InvNext(r.w, r.states[n - 1], r.events[n - 1]);
    }
  }

  // ---- what each landing patch does --------------------------------------------------------------------

  /** A node's call ends having found or made the list right. */
  predicate Completes(w: map<nat, Writer>, s: State, e: Event, n: nat) {
    n in w &&
    ((e == Get(n) && LocalOf(s, n).Idle? && Merged(s.list, w[n].own, w[n].desired) == s.list)
     || (e == Patch(n) && LocalOf(s, n).Holding? && LocalOf(s, n).version == s.version))
  }

  /** A pruner's patch lands, and drops what the list has at `ip`. */
  predicate Drops(s: State, e: Event, ip: string) {
    e.PrunePatch? &&
    var p := PrunerOf(s, e.pruner);
    && p.held.Some? && p.held.value.version == s.version && p.pass.Some?
    && !p.pass.value.Matches(ip) && ip in p.previous
  }

  lemma KeptIps(list: seq<Entry>, leases: Leases, now: int, previous: set<string>, ip: string)
    ensures HasIp(Kept(list, leases, now, previous), ip) <==> HasIp(list, ip) && (LiveIp(leases, now, ip) || ip !in previous)
  {
    KeptIs(list, leases, now, previous);
    var kept := Kept(list, leases, now, previous);
    if HasIp(kept, ip) {
      var i :| 0 <= i < |kept| && kept[i].ip == Some(ip);
      assert kept[i] in kept;
    }
    if HasIp(list, ip) && (LiveIp(leases, now, ip) || ip !in previous) {
      var i :| 0 <= i < |list| && list[i].ip == Some(ip);
      assert list[i] in list && list[i] in kept;
    }
  }

  /** Of a node's own addresses, any other event of the run loses exactly those a landing prune drops, and adds none. */
  lemma OwnIpAfter(w: map<nat, Writer>, s: State, e: Event, m: nat, ip: string)
    requires Disjoint(w) && Inv(w, s) && m in w && ip in w[m].own && !Completes(w, s, e, m)
    ensures HasIp(Next(w, s, e).list, ip) <==> HasIp(s.list, ip) && !Drops(s, e, ip)
  {
    if e.Patch? && e.node in w && e.node != m && LocalOf(s, e.node).Holding? && LocalOf(s, e.node).version == s.version {
      var n := e.node;
      var merged := Merged(s.list, w[n].own, w[n].desired);
      OthersUntouched(s.list, w[n].own, w[n].desired);
      OthersHave(s.list, w[n].own, ip);
      OthersHave(merged, w[n].own, ip);
    } else if e.PrunePatch? {
      var p := PrunerOf(s, e.pruner);
      if p.held.Some? && p.held.value.version == s.version {
        assert PruneIsCorrection(s, p);
        KeptIps(s.list, p.pass.value.leases, p.pass.value.now, p.previous, ip);
      }
    }
  }

  lemma CompletedIsRight(w: map<nat, Writer>, s: State, e: Event, n: nat)
    requires Disjoint(w) && Inv(w, s) && Completes(w, s, e, n)
    ensures Published(Next(w, s, e).list, w[n])
  {
    forall ip | ip in w[n].own ensures HasIp(Next(w, s, e).list, ip) <==> ip in w[n].desired {
      OwnAreWanted(s.list, w[n].own, w[n].desired, ip);
    }
  }

  // ---- every interleaving ------------------------------------------------------------------------------

  /** Between `c` and `n`, no landing prune dropped `ip`. */
  ghost predicate NeverDropped(r: IngressRun, c: nat, n: nat, ip: string)
    requires r.Valid() && c <= n <= |r.events|
  {
    forall i :: c <= i < n ==> !Drops(r.states[i], r.events[i], ip)
  }

  ghost predicate NeverCompletes(r: IngressRun, c: nat, n: nat, node: nat)
    requires r.Valid() && c <= n <= |r.events|
  {
    forall i :: c <= i < n ==> !Completes(r.w, r.states[i], r.events[i], node)
  }

  lemma {:induction false} OwnIpBetween(r: IngressRun, c: nat, n: nat, node: nat, ip: string)
    requires r.Valid() && c <= n <= |r.events| && node in r.w && ip in r.w[node].own && NeverCompletes(r, c, n, node)
    ensures HasIp(r.states[n].list, ip) <==> HasIp(r.states[c].list, ip) && NeverDropped(r, c, n, ip)
    decreases n
  {
    if c < n {
      OwnIpBetween(r, c, n - 1, node, ip);
      OwnIpStep(r, n - 1, node, ip);
      assert NeverDropped(r, c, n, ip) <==> NeverDropped(r, c, n - 1, ip) && !Drops(r.states[n - 1], r.events[n - 1], ip);
    }
  }

  lemma OwnIpStep(r: IngressRun, n: nat, node: nat, ip: string)
    requires r.Valid() && n < |r.events| && node in r.w && ip in r.w[node].own
    requires !Completes(r.w, r.states[n], r.events[n], node)
    ensures HasIp(r.states[n + 1].list, ip) <==> HasIp(r.states[n].list, ip) && !Drops(r.states[n], r.events[n], ip)
  {
    assert r.StepAt(n);
    InvAlways(r, n);
    OwnIpAfter(r.w, r.states[n], r.events[n], node, ip);
  }

  /**
   * In every interleaving of publishers and pruners, from a node's completed call to its next one
   * its own addresses are listed exactly as it wants if and only if no landing prune dropped one
   * of those it wants.
   */
  lemma PublishedIff(r: IngressRun, c: nat, n: nat, node: nat)
    requires r.Valid() && c < n <= |r.events| && Completes(r.w, r.states[c], r.events[c], node)
    requires NeverCompletes(r, c + 1, n, node)
    ensures Published(r.states[n].list, r.w[node]) <==> forall ip :: ip in r.w[node].desired ==> NeverDropped(r, c + 1, n, ip)
  {
    CompletedAt(r, c, node);
    forall ip | ip in r.w[node].own
      ensures HasIp(r.states[n].list, ip) <==> ip in r.w[node].desired && NeverDropped(r, c + 1, n, ip)
    {
      OwnIpBetween(r, c + 1, n, node, ip);
    }
  }

  lemma CompletedAt(r: IngressRun, c: nat, node: nat)
    requires r.Valid() && c < |r.events| && Completes(r.w, r.states[c], r.events[c], node)
    ensures Published(r.states[c + 1].list, r.w[node])
  {
    assert r.StepAt(c);
    InvAlways(r, c);
    CompletedIsRight(r.w, r.states[c], r.events[c], node);
  }

  /** A prune only ever drops an address that two passes of its pruner in a row found on no live Lease. */
  lemma DroppedIsTwiceUnmatched(r: IngressRun, i: nat, ip: string)
    requires r.Valid() && i < |r.events| && Drops(r.states[i], r.events[i], ip)
    ensures var p := PrunerOf(r.states[i], r.events[i].pruner);
            p.pass.Some? && !p.pass.value.Matches(ip) && p.last.Some? && !p.last.value.Matches(ip)
  {
    InvAlways(r, i);
    assert SuspectsOf(PrunerOf(r.states[i], r.events[i].pruner));
  }

  /** No publisher's event removes or reorders an entry that is not its own. */
  lemma NoPublishTouchesOthers(r: IngressRun, n: nat)
    requires r.Valid() && n < |r.events| && (r.events[n].Get? || r.events[n].Patch? || r.events[n].Fail?) && r.events[n].node in r.w
    ensures Others(r.states[n + 1].list, r.w[r.events[n].node].own) == Others(r.states[n].list, r.w[r.events[n].node].own)
  {
    assert r.StepAt(n);
    InvAlways(r, n);
    OthersUntouched(r.states[n].list, r.w[r.events[n].node].own, r.w[r.events[n].node].desired);
  }

  // ---- nodes that renew ----------------------------------------------------------------------------

  /** Every pass of every pruner finds `ip` on a live Lease. */
  ghost predicate AlwaysMatched(r: IngressRun, ip: string) {
    forall i :: 0 <= i < |r.events| && r.events[i].PassStart? ==> r.events[i].view.Matches(ip)
  }

  ghost predicate PassesMatch(s: State, ip: string) {
    forall q :: q in s.pruners && s.pruners[q].pass.Some? ==> s.pruners[q].pass.value.Matches(ip)
  }

  lemma {:induction false} PassesAreStarted(r: IngressRun, n: nat, ip: string)
    requires r.Valid() && n <= |r.events| && AlwaysMatched(r, ip)
    ensures PassesMatch(r.states[n], ip)
  {
    if n > 0 {
      PassesAreStarted(r, n - 1, ip);
      assert r.StepAt(n - 1);
      PassesMatchNext(r.w, r.states[n - 1], r.events[n - 1], ip);
    }
  }

  lemma PassesMatchNext(w: map<nat, Writer>, s: State, e: Event, ip: string)
    requires PassesMatch(s, ip) && (e.PassStart? ==> e.view.Matches(ip))
    ensures PassesMatch(Next(w, s, e), ip)
  {
  }

  /** What a pruner with schedule `run` goes by in one of its passes. */
  ghost predicate PassOf(run: LeaseTiming.Run, view: View) {
    exists i :: 0 <= i < |run.passes| && view == View(LeaseTiming.After(run, i + 1).leases, run.passes[i].now)
  }

  /** The pruner with schedule `run` sees some Lease with `ip` renewed at least every 40 s. */
  ghost predicate SeesRenewing(run: LeaseTiming.Run, ip: string) {
    LeaseTiming.Scheduled(run) &&
    exists name, writes, stamps, gap ::
      gap <= LEASE_DURATION && LeaseTiming.Renews(run, name, ip, writes, stamps, gap)
  }

  lemma RenewingIsMatched(run: LeaseTiming.Run, view: View, ip: string)
    requires SeesRenewing(run, ip) && PassOf(run, view)
    ensures view.Matches(ip)
  {
    var i :| 0 <= i < |run.passes| && view == View(LeaseTiming.After(run, i + 1).leases, run.passes[i].now);
    var name, writes, stamps, gap :| gap <= LEASE_DURATION && LeaseTiming.Renews(run, name, ip, writes, stamps, gap);
    LeaseTiming.RenewingNodeIsMatched(run, name, ip, writes, stamps, gap, i);
  }

  /** Each pass is one of its pruner's schedule, and that pruner sees every address `node` wants renewed. */
  ghost predicate AllSeeRenewing(r: IngressRun, runs: map<nat, LeaseTiming.Run>, node: nat)
    requires node in r.w
  {
    forall i :: 0 <= i < |r.events| && r.events[i].PassStart? ==>
      && r.events[i].pruner in runs && PassOf(runs[r.events[i].pruner], r.events[i].view)
      && forall ip :: ip in r.w[node].desired ==> SeesRenewing(runs[r.events[i].pruner], ip)
  }

  /** A node that renews at least every 40 s, on every pruner's clock, stays published once it completed a call. */
  lemma {:induction false} RenewingNodeStaysPublished(r: IngressRun, runs: map<nat, LeaseTiming.Run>, c: nat, n: nat, node: nat)
    requires r.Valid() && c < n <= |r.events| && Completes(r.w, r.states[c], r.events[c], node)
    requires AllSeeRenewing(r, runs, node)
    ensures Published(r.states[n].list, r.w[node])
    decreases n - c
  {
    if NeverCompletes(r, c + 1, n, node) {
      forall ip | ip in r.w[node].desired ensures NeverDropped(r, c + 1, n, ip) {
        NeverDropsRenewing(r, runs, n, node, ip);
      }
      PublishedIff(r, c, n, node);
    } else {
      var d :| c + 1 <= d < n && Completes(r.w, r.states[d], r.events[d], node);
      RenewingNodeStaysPublished(r, runs, d, n, node);
    }
  }

  lemma NeverDropsRenewing(r: IngressRun, runs: map<nat, LeaseTiming.Run>, n: nat, node: nat, ip: string)
    requires r.Valid() && n <= |r.events| && node in r.w && AllSeeRenewing(r, runs, node) && ip in r.w[node].desired
    ensures NeverDropped(r, 0, n, ip)
  {
    forall i | 0 <= i < |r.events| && r.events[i].PassStart? ensures r.events[i].view.Matches(ip) {
      RenewingIsMatched(runs[r.events[i].pruner], r.events[i].view, ip);
    }
    forall i | 0 <= i < n ensures !Drops(r.states[i], r.events[i], ip) {
      PassesAreStarted(r, i, ip);
    }
  }

  // ---- a pruner can take a completed node's entry ------------------------------------------------------

  const X: Entry := Entry(Some("x"), "")
  const Seen: View := View(map[], 0)

  function OneWriter(): map<nat, Writer> {
    map[0 := Writer({"x"}, ["x"])]
  }

  function Pruning(version: nat, list: seq<Entry>, p: Pruner): State {
    State(version, list, map[0 := Idle(0)], map[0 := p])
  }

  /** Node 0 publishes; a pruner that knows no Lease suspects its address in one pass and drops it in the next. */
  function LosingRun(): IngressRun {
    IngressRun(OneWriter(),
      [Get(0), Patch(0), PassStart(0, Seen), PruneGet(0), PassEnd(0), PassStart(0, Seen), PruneGet(0), PrunePatch(0)],
      [State(0, [], map[], map[]),
       State(0, [], map[0 := Holding(0, 0, [X])], map[]),
       State(1, [X], map[0 := Idle(0)], map[]),
       Pruning(1, [X], Pruner(Some(Seen), None, {}, {}, None)),
       Pruning(1, [X], Pruner(Some(Seen), None, {}, {"x"}, None)),
       Pruning(1, [X], Pruner(None, Some(Seen), {"x"}, {}, None)),
       Pruning(1, [X], Pruner(Some(Seen), Some(Seen), {"x"}, {}, None)),
       Pruning(1, [X], Pruner(Some(Seen), Some(Seen), {"x"}, {"x"}, Some(Corrected(1, [])))),
       Pruning(2, [], Pruner(Some(Seen), Some(Seen), {"x"}, {"x"}, None))])
  }

  lemma OneEntry(previous: set<string>)
    ensures Sightings([X], Seen.leases, Seen.now) == {"x"}
    ensures Kept([X], Seen.leases, Seen.now, previous) == if "x" in previous then [] else [X]
    ensures Merged([], {"x"}, ["x"]) == [X]
  {
    assert [X][..0] == [];
    assert Kept([], Seen.leases, Seen.now, previous) == [] && Sightings([], Seen.leases, Seen.now) == {};
    assert WithWanted([], ["x"], 1) == [X];
  }

  lemma PublishingSteps()
    ensures LosingRun().StepAt(0) && LosingRun().StepAt(1) && LosingRun().StepAt(2)
  {
    OneEntry({});
  }

  lemma SuspectingSteps()
    ensures LosingRun().StepAt(3) && LosingRun().StepAt(4) && LosingRun().StepAt(5)
  {
    OneEntry({});
    assert {} + {"x"} == {"x"};
  }

  lemma DroppingSteps()
    ensures LosingRun().StepAt(6) && LosingRun().StepAt(7)
  {
    OneEntry({"x"});
    assert {} + {"x"} == {"x"};
  }

  lemma LosingRunIsValid()
    ensures LosingRun().Valid()
  {
    PublishingSteps();
    SuspectingSteps();
    DroppingSteps();
    forall i | 0 <= i < |LosingRun().events| ensures LosingRun().StepAt(i) {
      assert i == 0 || i == 1 || i == 2 || i == 3 || i == 4 || i == 5 || i == 6 || i == 7;
    }
  }

  /** So a completed node can lose its entry without any call of its own. */
  lemma PrunerTakesACompletedEntry()
    ensures var r := LosingRun();
            && r.Valid() && Completes(r.w, r.states[1], r.events[1], 0) && NeverCompletes(r, 2, 8, 0)
            && Drops(r.states[7], r.events[7], "x") && !Published(r.states[8].list, r.w[0])
  {
    LosingRunIsValid();
    var r := LosingRun();
    assert "x" in r.w[0].own && !HasIp(r.states[8].list, "x");
  }
}
