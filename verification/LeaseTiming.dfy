/** How long a lost node's address can stay, and how long a healthy one is safe, for every schedule of passes. */
module LeaseTiming {
  import opened Types
  import opened Lease

  /** One prune pass: when, what the apiserver listed, and the ingress list of every tracked Service. */
  datatype Pass = Pass(now: int, listing: Listing, lists: seq<seq<Entry>>)

  datatype Run = Run(started: int, own: string, passes: seq<Pass>)

  datatype Pruner = Pruner(leases: Leases, previous: set<string>)

  function AllSightings(lists: seq<seq<Entry>>, n: nat, leases: Leases, now: int): set<string>
    requires n <= |lists|
  {
    if n == 0 then {} else AllSightings(lists, n - 1, leases, now) + Sightings(lists[n - 1], leases, now)
  }

  lemma {:induction false} SightingsCount(lists: seq<seq<Entry>>, n: nat, leases: Leases, now: int, j: nat, ip: string)
    requires j < n <= |lists| && ip in Sightings(lists[j], leases, now)
    ensures ip in AllSightings(lists, n, leases, now)
  {
    if j < n - 1 {
      SightingsCount(lists, n - 1, leases, now, j, ip);
    }
  }

  lemma {:induction false} SightingsAreUnmatched(lists: seq<seq<Entry>>, n: nat, leases: Leases, now: int, ip: string)
    requires n <= |lists| && LiveIp(leases, now, ip)
    ensures ip !in AllSightings(lists, n, leases, now)
  {
    if n > 0 {
      SightingsAreUnmatched(lists, n - 1, leases, now, ip);
      SightingsAre(lists[n - 1], leases, now, ip);
    }
  }

  predicate Prunes(run: Run, leases: Leases, now: int) {
    MayPrune(leases, run.started, run.own, now)
  }

  /** One iteration of the prune loop. */
  function Step(run: Run, p: Pruner, pass: Pass): Pruner {
    var leases := Observe(p.leases, pass.listing, pass.now);
    Pruner(leases, if Prunes(run, leases, pass.now) then AllSightings(pass.lists, |pass.lists|, leases, pass.now) else {})
  }

  /** The pruner after the first `n` passes. */
  function After(run: Run, n: nat): Pruner
    requires n <= |run.passes|
  {
    if n == 0 then Pruner(map[], {}) else Step(run, After(run, n - 1), run.passes[n - 1])
  }

  /** What pass `i` leaves of the list of Service `j`. */
  function Output(run: Run, i: nat, j: nat): seq<Entry>
    requires i < |run.passes| && j < |run.passes[i].lists|
  {
    var pass, leases := run.passes[i], After(run, i + 1).leases;
    if Prunes(run, leases, pass.now) then Kept(pass.lists[j], leases, pass.now, After(run, i).previous) else pass.lists[j]
  }

  /** One pass of `run_prune_loop` on the real objects. */
  method PrunePass(tracker: LeaseTracker, suspects: PruneSuspects, listed: seq<NamedLease>, now: int, own: string,
                   lists: seq<seq<Entry>>) returns (outs: seq<seq<Entry>>)
    requires forall i, j :: 0 <= i < j < |listed| ==> listed[i].name != listed[j].name
    requires suspects.current == {}
    modifies tracker, suspects
    ensures suspects.current == {} && |outs| == |lists|
    ensures var run := Run(tracker.started, own, []);
            var pass := Pass(now, ListingOf(listed, |listed|), lists);
            var before := Pruner(old(tracker.leases), old(suspects.previous));
            && Pruner(tracker.leases, suspects.previous) == Step(run, before, pass)
            && forall j :: 0 <= j < |lists| ==>
                 outs[j] == if Prunes(run, tracker.leases, now)
                            then Kept(lists[j], tracker.leases, now, before.previous) else lists[j]
  {
    tracker.ObserveListing(listed, now);
    var may := tracker.MayPruneNow(own, now);
    if !may {
      suspects.Reset();
      return lists;
    }
    outs := [];
    for i := 0 to |lists|
      invariant suspects.previous == old(suspects.previous)
      invariant suspects.current == AllSightings(lists, i, tracker.leases, now)
      invariant tracker.leases == Observe(old(tracker.leases), ListingOf(listed, |listed|), now)
      invariant |outs| == i
      invariant forall j :: 0 <= j < i ==> outs[j] == Kept(lists[j], tracker.leases, now, suspects.previous)
    {
      var pruned := suspects.ConfirmedPrunedIngress(lists[i], tracker.leases, now);
      outs := outs + [if pruned.Some? then pruned.value else lists[i]];
    }
    suspects.EndPass();
  }

  // ---- schedules ------------------------------------------------------------------------------------

  /** Passes follow each other by at most the longest interval, the first after the start. */
  ghost predicate Scheduled(run: Run) {
    && (run.passes != [] ==> run.started <= run.passes[0].now <= run.started + PRUNE_INTERVAL_MAX)
    && forall i :: 0 <= i < |run.passes| - 1 ==>
         run.passes[i].now < run.passes[i + 1].now <= run.passes[i].now + PRUNE_INTERVAL_MAX
  }

  lemma {:induction false} TimesIncrease(run: Run, i: nat, j: nat)
    requires Scheduled(run) && i <= j < |run.passes|
    ensures run.passes[i].now <= run.passes[j].now && run.started <= run.passes[i].now
    decreases i + j
  {
    if i < j {
      TimesIncrease(run, i, j - 1);
      assert run.passes[j - 1].now < run.passes[(j - 1) + 1].now;
    } else if i > 0 {
      TimesIncrease(run, i - 1, i - 1);
      assert run.passes[i - 1].now < run.passes[(i - 1) + 1].now;
    }
  }

  /** The first pass at or after `t`. */
  lemma {:induction false} FirstPassFrom(run: Run, t: int, n: nat) returns (i: nat)
    requires Scheduled(run) && n < |run.passes| && run.passes[n].now >= t
    ensures i <= n && t <= run.passes[i].now && forall j :: 0 <= j < i ==> run.passes[j].now < t
    ensures run.passes[i].now <= (if t < run.started then run.started else t) + PRUNE_INTERVAL_MAX
  {
    if n == 0 || run.passes[n - 1].now < t {
      i := n;
      forall j | 0 <= j < n ensures run.passes[j].now < t {
        TimesIncrease(run, j, n - 1);
      }
      assert n > 0 ==> run.passes[(n - 1) + 1].now <= run.passes[n - 1].now + PRUNE_INTERVAL_MAX;
    } else {
      i := FirstPassFrom(run, t, n - 1);
    }
  }

  /** This process sees its own Lease renewing at every pass. */
  ghost predicate OwnLive(run: Run) {
    forall i :: 0 <= i < |run.passes| ==> OwnLiveAt(run, i)
  }

  predicate OwnLiveAt(run: Run, i: nat)
    requires i < |run.passes|
  {
    run.own in After(run, i + 1).leases && Live(After(run, i + 1).leases[run.own], run.passes[i].now)
  }

  predicate Mentions(list: seq<Entry>, ip: string) {
    exists e :: e in list && e.ip == Some(ip)
  }

  /** No list has an entry for `ip` when pass `i` is over. */
  ghost predicate Gone(run: Run, i: nat, ip: string)
    requires i < |run.passes|
  {
    forall j :: 0 <= j < |run.passes[i].lists| ==> !Mentions(Output(run, i, j), ip)
  }

  // ---- from one pass to the next --------------------------------------------------------------------

  /**
   * A list's addresses at a pass are those the pass before left in it, and those published in
   * between: `published[i]` between passes `i` and `i + 1`, in any Service.
   */
  ghost predicate Linked(run: Run, published: seq<set<string>>) {
    |published| == |run.passes| && forall i :: 0 < i < |run.passes| ==> LinkedAt(run, published, i)
  }

  ghost predicate LinkedAt(run: Run, published: seq<set<string>>, i: nat)
    requires |published| == |run.passes| && 0 < i < |run.passes|
  {
    forall j, ip :: 0 <= j < |run.passes[i].lists| && Mentions(run.passes[i].lists[j], ip) ==>
      ip in published[i - 1] || (j < |run.passes[i - 1].lists| && Mentions(Output(run, i - 1, j), ip))
  }

  /** Nobody publishes `ip` from time `t` on. */
  ghost predicate NotRepublished(run: Run, published: seq<set<string>>, t: int, ip: string) {
    |published| == |run.passes| && forall i :: 0 <= i < |run.passes| && run.passes[i].now >= t ==> ip !in published[i]
  }

  lemma OutputIsPart(run: Run, i: nat, j: nat, ip: string)
    requires i < |run.passes| && j < |run.passes[i].lists| && Mentions(Output(run, i, j), ip)
    ensures Mentions(run.passes[i].lists[j], ip)
  {
    KeptIs(run.passes[i].lists[j], After(run, i + 1).leases, run.passes[i].now, After(run, i).previous);
  }

  /** An address that is gone after a pass, and that nobody publishes any more, stays gone. */
  lemma {:induction false} GoneStays(run: Run, published: seq<set<string>>, t: int, ip: string, i: nat, n: nat)
    requires Scheduled(run) && Linked(run, published) && NotRepublished(run, published, t, ip)
    requires i <= n < |run.passes| && run.passes[i].now >= t && Gone(run, i, ip)
    ensures Gone(run, n, ip)
    decreases n
  {
    if i < n {
      GoneStays(run, published, t, ip, i, n - 1);
      TimesIncrease(run, i, n - 1);
      assert LinkedAt(run, published, n);
      forall j | 0 <= j < |run.passes[n].lists| ensures !Mentions(Output(run, n, j), ip) {
        if Mentions(Output(run, n, j), ip) {
          OutputIsPart(run, n, j, ip);
        }
      }
    }
  }

  /** `ip` is on no live Lease at pass `i`. */
  predicate UnmatchedAt(run: Run, i: nat, ip: string)
    requires i < |run.passes|
  {
    !LiveIp(After(run, i + 1).leases, run.passes[i].now, ip)
  }

  predicate PrunesAt(run: Run, i: nat)
    requires i < |run.passes|
  {
    Prunes(run, After(run, i + 1).leases, run.passes[i].now)
  }

  /** Two pruning passes in a row without a match: the address is gone after the second, if not before. */
  lemma TwoPassesPrune(run: Run, i: nat, ip: string)
    requires i + 1 < |run.passes|
    requires PrunesAt(run, i) && UnmatchedAt(run, i, ip) && PrunesAt(run, i + 1) && UnmatchedAt(run, i + 1, ip)
    ensures Gone(run, i, ip) || Gone(run, i + 1, ip)
  {
    if !Gone(run, i, ip) {
      var j :| 0 <= j < |run.passes[i].lists| && Mentions(Output(run, i, j), ip);
      var pass, leases := run.passes[i], After(run, i + 1).leases;
      KeptIs(pass.lists[j], leases, pass.now, After(run, i).previous);
      SightingsAre(pass.lists[j], leases, pass.now, ip);
      SightingsCount(pass.lists, |pass.lists|, leases, pass.now, j, ip);
      var n := i + 1;
      forall j | 0 <= j < |run.passes[n].lists| ensures !Mentions(Output(run, n, j), ip) {
        KeptIs(run.passes[n].lists[j], After(run, n + 1).leases, run.passes[n].now, After(run, n).previous);
      }
    }
  }

  // ---- a node that died silently --------------------------------------------------------------------

  /** Since `died`, Lease `name` is never rewritten, and once gone stays gone; no other Lease carries `ip`. */
  ghost predicate Silent(run: Run, name: string, renewTime: string, died: int, ip: string) {
    && (forall i :: 0 <= i < |run.passes| && run.passes[i].now >= died && name in run.passes[i].listing ==>
          run.passes[i].listing[name].renewTime == renewTime)
    && (forall i, j :: 0 <= i < j < |run.passes| && run.passes[i].now >= died && name in run.passes[j].listing ==>
          name in run.passes[i].listing)
    && (forall i, n :: 0 <= i < |run.passes| && run.passes[i].now >= died && n in run.passes[i].listing && n != name ==>
          ip !in run.passes[i].listing[n].ips)
  }

  /** Its sighting is as old as the first pass that saw its last write. */
  lemma {:induction false} SightingStays(run: Run, name: string, renewTime: string, died: int, ip: string, f: nat, i: nat)
    requires Scheduled(run) && Silent(run, name, renewTime, died, ip)
    requires f <= i < |run.passes| && run.passes[f].now >= died
    requires name in After(run, i + 1).leases
    ensures After(run, i + 1).leases[name].changedAt <= run.passes[f].now
  {
    TimesIncrease(run, f, i);
    if i == f {
      SightingIsPast(run, name, i);
    } else {
      TimesIncrease(run, f, i - 1);
      assert name in run.passes[i].listing && name in run.passes[i - 1].listing;
      SightingStays(run, name, renewTime, died, ip, f, i - 1);
    }
  }

  /** A sighting is never in the future. */
  lemma {:induction false} SightingIsPast(run: Run, name: string, i: nat)
    requires Scheduled(run) && i < |run.passes| && name in After(run, i + 1).leases
    ensures run.started <= After(run, i + 1).leases[name].changedAt <= run.passes[i].now
  {
    TimesIncrease(run, i, i);
    if i > 0 {
      TimesIncrease(run, i - 1, i);
      if name in After(run, i).leases {
        SightingIsPast(run, name, i - 1);
      }
    }
  }

  lemma SilentIsUnmatched(run: Run, name: string, renewTime: string, died: int, ip: string, f: nat, i: nat)
    requires Scheduled(run) && Silent(run, name, renewTime, died, ip)
    requires f <= i < |run.passes| && run.passes[f].now >= died
    requires run.passes[i].now >= run.passes[f].now + LEASE_DURATION
    ensures UnmatchedAt(run, i, ip)
  {
    TimesIncrease(run, f, i);
    var leases := After(run, i + 1).leases;
    forall n | n in leases && ip in leases[n].ips ensures !Live(leases[n], run.passes[i].now) {
      SightingStays(run, name, renewTime, died, ip, f, i);
    }
  }

  lemma DeadNodeIsSeen(run: Run, name: string, renewTime: string, died: int, ip: string, f: nat, i: nat)
    requires Scheduled(run) && OwnLive(run) && Silent(run, name, renewTime, died, ip)
    requires f <= i < |run.passes| && run.passes[f].now >= died
    requires run.passes[i].now >= run.passes[f].now + LEASE_DURATION
    ensures PrunesAt(run, i) && UnmatchedAt(run, i, ip)
  {
    TimesIncrease(run, f, f);
    SilentIsUnmatched(run, name, renewTime, died, ip, f, i);
    assert OwnLiveAt(run, i);
  }

  /** Pass `f` saw the last write; pass `j` is the first after its Lease ran out. */
  lemma DeadNodeLeavesAt(run: Run, name: string, renewTime: string, died: int, ip: string, f: nat, j: nat)
    requires Scheduled(run) && OwnLive(run) && Silent(run, name, renewTime, died, ip)
    requires f <= j && j + 1 < |run.passes| && run.passes[f].now >= died
    requires run.passes[j].now >= run.passes[f].now + LEASE_DURATION
    ensures Gone(run, j, ip) || Gone(run, j + 1, ip)
  {
    TimesIncrease(run, j, j + 1);
    DeadNodeIsSeen(run, name, renewTime, died, ip, f, j);
    DeadNodeIsSeen(run, name, renewTime, died, ip, f, j + 1);
    TwoPassesPrune(run, j, ip);
  }

  /** Within 85 s of the later of its last write and the pruner's start, a dead node's address is pruned. */
  lemma DeadNodeIsPruned(run: Run, name: string, renewTime: string, died: int, ip: string, n: nat) returns (i: nat)
    requires Scheduled(run) && OwnLive(run) && Silent(run, name, renewTime, died, ip)
    requires n < |run.passes|
    requires run.passes[n].now >= (if died < run.started then run.started else died) + MaxPruneLatency(false)
    ensures i < |run.passes| && Gone(run, i, ip) && run.passes[i].now >= died
    ensures run.passes[i].now <= (if died < run.started then run.started else died) + MaxPruneLatency(false)
  {
    var from := if died < run.started then run.started else died;
    var f := FirstPassFrom(run, from, n);
    TimesIncrease(run, f, f);
    var j := FirstPassFrom(run, run.passes[f].now + LEASE_DURATION, n);
    assert f <= j < n;
    assert run.passes[j].now < run.passes[j + 1].now <= run.passes[j].now + PRUNE_INTERVAL_MAX;
    DeadNodeLeavesAt(run, name, renewTime, died, ip, f, j);
    TimesIncrease(run, f, j);
    i := if Gone(run, j, ip) then j else j + 1;
  }

  /** And from then on no pass leaves it in any list. */
  lemma DeadNodeLeaves(run: Run, published: seq<set<string>>, name: string, renewTime: string, died: int, ip: string, n: nat)
    returns (i: nat)
    requires Scheduled(run) && OwnLive(run) && Silent(run, name, renewTime, died, ip)
    requires Linked(run, published) && NotRepublished(run, published, died, ip)
    requires n < |run.passes|
    requires run.passes[n].now >= (if died < run.started then run.started else died) + MaxPruneLatency(false)
    ensures i < |run.passes| && forall m :: i <= m < |run.passes| ==> Gone(run, m, ip)
    ensures run.passes[i].now <= (if died < run.started then run.started else died) + MaxPruneLatency(false)
  {
    i := DeadNodeIsPruned(run, name, renewTime, died, ip, n);
    forall m | i <= m < |run.passes| ensures Gone(run, m, ip) {
      GoneStays(run, published, died, ip, i, m);
    }
  }

  // ---- a node that withdrew -------------------------------------------------------------------------

  /** Since `withdrawn`, no Lease carries `ip`. */
  ghost predicate Withdrawn(run: Run, withdrawn: int, ip: string) {
    forall i, n :: 0 <= i < |run.passes| && run.passes[i].now >= withdrawn && n in run.passes[i].listing ==>
      ip !in run.passes[i].listing[n].ips
  }

  /** Within two passes of the withdrawal, or of the end of the warm-up if that is later, the address is pruned. */
  lemma WithdrawnNodeIsPruned(run: Run, withdrawn: int, ip: string, n: nat) returns (i: nat)
    requires Scheduled(run) && OwnLive(run) && Withdrawn(run, withdrawn, ip)
    requires n < |run.passes|
    requires run.passes[n].now >= withdrawn + MaxPruneLatency(true)
    requires run.passes[n].now >= run.started + LEASE_DURATION + MaxPruneLatency(true)
    ensures i < |run.passes| && Gone(run, i, ip) && run.passes[i].now >= withdrawn
    ensures var up := withdrawn - run.started;
            run.passes[i].now - withdrawn <= if 70_000 - up > 30_000 then 70_000 - up else 30_000
  {
    var warm := run.started + LEASE_DURATION;
    var j := FirstPassFrom(run, if withdrawn < warm then warm else withdrawn, n);
    assert j < n;
    assert run.passes[j].now < run.passes[j + 1].now <= run.passes[j].now + PRUNE_INTERVAL_MAX;
    assert OwnLiveAt(run, j) && OwnLiveAt(run, j + 1);
    TwoPassesPrune(run, j, ip);
    i := if Gone(run, j, ip) then j else j + 1;
  }

  /** And from then on no pass leaves it in any list. */
  lemma WithdrawnNodeLeaves(run: Run, published: seq<set<string>>, withdrawn: int, ip: string, n: nat) returns (i: nat)
    requires Scheduled(run) && OwnLive(run) && Withdrawn(run, withdrawn, ip)
    requires Linked(run, published) && NotRepublished(run, published, withdrawn, ip)
    requires n < |run.passes|
    requires run.passes[n].now >= withdrawn + MaxPruneLatency(true)
    requires run.passes[n].now >= run.started + LEASE_DURATION + MaxPruneLatency(true)
    ensures i < |run.passes| && forall m :: i <= m < |run.passes| ==> Gone(run, m, ip)
    ensures var up := withdrawn - run.started;
            run.passes[i].now - withdrawn <= if 70_000 - up > 30_000 then 70_000 - up else 30_000
  {
    i := WithdrawnNodeIsPruned(run, withdrawn, ip, n);
    forall m | i <= m < |run.passes| ensures Gone(run, m, ip) {
      GoneStays(run, published, withdrawn, ip, i, m);
    }
  }

  // ---- a node that renews ---------------------------------------------------------------------------

  /** Lease `name` always carries `ip`; write `k` of it happens at `writes[k]` and shows as renew time `stamps[k]`. */
  ghost predicate Renews(run: Run, name: string, ip: string, writes: seq<int>, stamps: seq<string>, gap: int) {
    && |writes| == |stamps|
    && (forall k, l :: 0 <= k < l < |stamps| ==> stamps[k] != stamps[l])
    && (forall k, l :: 0 <= k < l < |writes| ==> writes[k] <= writes[l])
    && forall i :: 0 <= i < |run.passes| ==>
         && name in run.passes[i].listing && ip in run.passes[i].listing[name].ips
         && exists k :: 0 <= k < |writes| && ShowsWrite(run, i, name, writes, stamps, gap, k)
  }

  /** At pass `i`, write `k` is the last one, and the next is at most `gap` after it. */
  ghost predicate ShowsWrite(run: Run, i: nat, name: string, writes: seq<int>, stamps: seq<string>, gap: int, k: nat)
    requires i < |run.passes| && k < |writes| == |stamps|
  {
    && name in run.passes[i].listing && run.passes[i].listing[name].renewTime == stamps[k]
    && writes[k] <= run.passes[i].now < writes[k] + gap
  }

  /** A sighting of write `k` is not older than the write. */
  lemma {:induction false} SightingFollowsWrite(run: Run, name: string, ip: string, writes: seq<int>, stamps: seq<string>,
                                               gap: int, i: nat, k: nat)
    requires Scheduled(run) && Renews(run, name, ip, writes, stamps, gap)
    requires i < |run.passes| && k < |writes| && ShowsWrite(run, i, name, writes, stamps, gap, k)
    ensures After(run, i + 1).leases[name].changedAt >= writes[k]
  {
    if i > 0 && name in After(run, i).leases && After(run, i).leases[name].renewTime == stamps[k] {
      var l :| 0 <= l < |writes| && ShowsWrite(run, i - 1, name, writes, stamps, gap, l);
      assert l == k;
      SightingFollowsWrite(run, name, ip, writes, stamps, gap, i - 1, k);
    }
  }

  /** Unmatched on two passes in a row means unrenewed for more than a lease and a pass. */
  lemma NeverUnmatchedTwice(run: Run, name: string, ip: string, writes: seq<int>, stamps: seq<string>, gap: int, i: nat)
    requires Scheduled(run) && Renews(run, name, ip, writes, stamps, gap) && i + 1 < |run.passes|
    requires run.passes[i + 1].now >= run.passes[i].now + LEASE_RENEW && gap <= LEASE_DURATION + LEASE_RENEW
    ensures !(UnmatchedAt(run, i, ip) && UnmatchedAt(run, i + 1, ip))
  {
    var k :| 0 <= k < |writes| && ShowsWrite(run, i + 1, name, writes, stamps, gap, k);
    SightingFollowsWrite(run, name, ip, writes, stamps, gap, i + 1, k);
    var before, after := After(run, i + 1).leases, After(run, i + 2).leases;
    assert name in before && name in after && ip in before[name].ips && ip in after[name].ips;
    if !Live(after[name], run.passes[i + 1].now) {
      assert after[name].changedAt == before[name].changedAt;
      assert Live(before[name], run.passes[i].now);
    }
  }

  /** A node that renews at least every 50 s, with passes at least 10 s apart, never loses an entry. */
  lemma RenewingNodeStays(run: Run, name: string, ip: string, writes: seq<int>, stamps: seq<string>, gap: int,
                          i: nat, j: nat, e: Entry)
    requires Scheduled(run) && Renews(run, name, ip, writes, stamps, gap) && gap <= LEASE_DURATION + LEASE_RENEW
    requires forall x :: 0 <= x < |run.passes| - 1 ==> run.passes[x + 1].now >= run.passes[x].now + LEASE_RENEW
    requires i < |run.passes| && j < |run.passes[i].lists| && e in run.passes[i].lists[j] && e.ip == Some(ip)
    ensures e in Output(run, i, j)
  {
    if PrunesAt(run, i) {
      KeptIs(run.passes[i].lists[j], After(run, i + 1).leases, run.passes[i].now, After(run, i).previous);
      if i > 0 && UnmatchedAt(run, i, ip) {
        assert run.passes[(i - 1) + 1].now >= run.passes[i - 1].now + LEASE_RENEW;
        NeverUnmatchedTwice(run, name, ip, writes, stamps, gap, i - 1);
        SightingsAreUnmatched(run.passes[i - 1].lists, |run.passes[i - 1].lists|, After(run, i).leases,
                              run.passes[i - 1].now, ip);
      }
    }
  }

  /** A node that renews at least every 40 s is matched at every pass, however close the passes are. */
  lemma RenewingNodeIsMatched(run: Run, name: string, ip: string, writes: seq<int>, stamps: seq<string>, gap: int, i: nat)
    requires Scheduled(run) && Renews(run, name, ip, writes, stamps, gap) && gap <= LEASE_DURATION && i < |run.passes|
    ensures !UnmatchedAt(run, i, ip)
  {
    var k :| 0 <= k < |writes| && ShowsWrite(run, i, name, writes, stamps, gap, k);
    SightingFollowsWrite(run, name, ip, writes, stamps, gap, i, k);
    var leases := After(run, i + 1).leases;
    assert name in leases && ip in leases[name].ips && Live(leases[name], run.passes[i].now);
  }

  /** So no pass, however the passes are spaced, removes an entry of such a node. */
  lemma RenewingNodeIsNeverRemoved(run: Run, name: string, ip: string, writes: seq<int>, stamps: seq<string>, gap: int,
                                   i: nat, j: nat, e: Entry)
    requires Scheduled(run) && Renews(run, name, ip, writes, stamps, gap) && gap <= LEASE_DURATION
    requires i < |run.passes| && j < |run.passes[i].lists| && e in run.passes[i].lists[j] && e.ip == Some(ip)
    ensures e in Output(run, i, j)
  {
    RenewingNodeIsMatched(run, name, ip, writes, stamps, gap, i);
    KeptIs(run.passes[i].lists[j], After(run, i + 1).leases, run.passes[i].now, After(run, i).previous);
  }

  // ---- the silent bound is tight --------------------------------------------------------------------

  function Times(i: nat): int {
    if i == 0 then 15_000 else if i == 1 then 25_000 else if i == 2 then 40_000 else 9_999 + 15_000 * i
  }

  function Example(): Run {
    Run(0, "own", seq(6, i requires 0 <= i < 6 => ExamplePass(i)))
  }

  /** The own Lease renews before every pass; the dead one never does. */
  function ExamplePass(i: nat): Pass {
    Pass(Times(i), map["own" := Listed(seq(i, _ => 'z'), {}), "dead" := Listed("r", {"x"})], [[Entry(Some("x"), "")]])
  }

  lemma {:induction false} ExampleLeases(i: nat)
    requires i < 6
    ensures var leases := After(Example(), i + 1).leases;
            && leases.Keys == {"own", "dead"}
            && leases["own"].changedAt == Times(i) && |leases["own"].renewTime| == i
            && leases["dead"] == Observed("r", {"x"}, 15_000)
  {
    assert Example().passes[i] == ExamplePass(i);
    if i > 0 {
      ExampleLeases(i - 1);
    }
  }

  lemma ExampleMatches(i: nat)
    requires i < 4
    ensures LiveIp(After(Example(), i + 1).leases, Times(i), "x")
  {
    ExampleLeases(i);
    var leases := After(Example(), i + 1).leases;
    assert Live(leases["dead"], Times(i)) && "x" in leases["dead"].ips;
  }

  lemma ExampleSuspectsNone(i: nat)
    requires i < 4
    ensures "x" !in After(Example(), i + 1).previous
  {
    var run := Example();
    assert run.passes[i] == ExamplePass(i);
    ExampleMatches(i);
    SightingsAreUnmatched(run.passes[i].lists, 1, After(run, i + 1).leases, Times(i), "x");
  }

  /** The first five passes leave the entry: four match it, and the fifth is only the first to suspect it. */
  lemma ExampleKeeps(i: nat)
    requires i < 5
    ensures !Gone(Example(), i, "x")
  {
    var run, e := Example(), Entry(Some("x"), "");
    assert run.passes[i] == ExamplePass(i);
    KeptIs([e], After(run, i + 1).leases, Times(i), After(run, i).previous);
    if i < 4 {
      ExampleMatches(i);
    } else {
      ExampleSuspectsNone(3);
    }
    assert e in Output(run, i, 0);
  }

  lemma ExampleIsFair()
    ensures Scheduled(Example()) && Silent(Example(), "dead", "r", 0, "x")
  {
    var run := Example();
    forall i | 0 <= i < 6 ensures run.passes[i] == ExamplePass(i) {
    }
  }

  lemma ExampleOwnLive()
    ensures OwnLive(Example())
  {
    forall i | 0 <= i < 6 ensures OwnLiveAt(Example(), i) {
      ExampleLeases(i);
    }
  }

  function NothingPublished(): seq<set<string>> {
    seq(6, _ => {})
  }

  lemma ExampleIsLinked()
    ensures Linked(Example(), NothingPublished()) && NotRepublished(Example(), NothingPublished(), 0, "x")
  {
    var run := Example();
    forall i | 0 < i < 6 ensures LinkedAt(run, NothingPublished(), i) {
      assert run.passes[i] == ExamplePass(i) && run.passes[i - 1] == ExamplePass(i - 1);
      ExampleKeeps(i - 1);
      forall j, ip | 0 <= j < 1 && Mentions(run.passes[i].lists[j], ip) ensures Mentions(Output(run, i - 1, j), ip) {
        assert ip == "x";
        var k :| 0 <= k < 1 && Mentions(Output(run, i - 1, k), "x");
      }
    }
  }

  /**
   * Passes 10 to 15 s apart, as the loop sleeps: five of them leave the address of a node that
   * never wrote again, and the sixth, which drops it, comes 1 ms before the bound.
   */
  lemma BoundIsTight()
    ensures var run := Example();
            && Scheduled(run) && OwnLive(run) && Silent(run, "dead", "r", 0, "x")
            && Linked(run, NothingPublished()) && NotRepublished(run, NothingPublished(), 0, "x")
            && (forall i :: 0 < i < |run.passes| ==> run.passes[i].now >= run.passes[i - 1].now + LEASE_RENEW)
            && run.passes[0].now >= run.started + LEASE_RENEW
            && |run.passes| == 6 && run.passes[5].now == MaxPruneLatency(false) - 1
            && forall i :: 0 <= i < 5 ==> !Gone(run, i, "x")
  {
    ExampleIsFair();
    ExampleOwnLive();
    ExampleIsLinked();
    assert Example().passes[0] == ExamplePass(0) && Example().passes[5] == ExamplePass(5);
    forall i | 0 < i < 6 ensures Example().passes[i].now >= Example().passes[i - 1].now + LEASE_RENEW {
      assert Example().passes[i] == ExamplePass(i) && Example().passes[i - 1] == ExamplePass(i - 1);
    }
    forall i | 0 <= i < 5 ensures !Gone(Example(), i, "x") {
      ExampleKeeps(i);
    }
  }
}
