/**
 * Which entries the prune loop drops, told by what the apiserver listed at which pass: no
 * trackers, no suspects, and the durations as numbers.
 */
module PruneExact {
  import opened Types
  import opened Lease
  import opened LeaseTiming

  ghost predicate Ordered(run: Run) {
    forall i, j :: 0 <= i <= j < |run.passes| ==> run.passes[i].now <= run.passes[j].now
  }

  /** Passes `x` and `i` list `name` with one renew time. */
  predicate SameRenewal(run: Run, name: string, x: nat, i: nat)
    requires x < |run.passes| && i < |run.passes|
  {
    && name in run.passes[x].listing && name in run.passes[i].listing
    && run.passes[x].listing[name].renewTime == run.passes[i].listing[name].renewTime
  }

  ghost predicate SameSince(run: Run, name: string, a: nat, i: nat)
    requires a <= i < |run.passes|
  {
    forall x :: a <= x <= i ==> SameRenewal(run, name, x, i)
  }

  /** For 40 s or more every pass has listed `name` with one renew time. */
  ghost predicate Stuck(run: Run, name: string, i: nat)
    requires i < |run.passes|
  {
    exists a :: 0 <= a <= i && run.passes[i].now - run.passes[a].now >= 40_000 && SameSince(run, name, a, i)
  }

  /** The process is up for 40 s, and its own Lease is listed and not stuck. */
  ghost predicate Allowed(run: Run, i: nat)
    requires i < |run.passes|
  {
    run.passes[i].now - run.started >= 40_000 && run.own in run.passes[i].listing && !Stuck(run, run.own, i)
  }

  /** Every Lease listed with `ip` is stuck. */
  ghost predicate Unclaimed(run: Run, i: nat, ip: string)
    requires i < |run.passes|
  {
    forall name :: name in run.passes[i].listing && ip in run.passes[i].listing[name].ips ==> Stuck(run, name, i)
  }

  ghost predicate Shown(run: Run, i: nat, ip: string)
    requires i < |run.passes|
  {
    exists j :: 0 <= j < |run.passes[i].lists| && Mentions(run.passes[i].lists[j], ip)
  }

  /** Pass `i` was allowed to prune and found `ip` in some list, on no Lease that renews. */
  ghost predicate Suspected(run: Run, i: nat, ip: string)
    requires i < |run.passes|
  {
    Allowed(run, i) && Unclaimed(run, i, ip) && Shown(run, i, ip)
  }

  // ---- sightings ---------------------------------------------------------------------------------------

  lemma LeasesAreListed(run: Run, i: nat, name: string)
    requires i < |run.passes|
    ensures name in After(run, i + 1).leases <==> name in run.passes[i].listing
    ensures name in run.passes[i].listing ==>
              var l := After(run, i + 1).leases[name];
              l.renewTime == run.passes[i].listing[name].renewTime && l.ips == run.passes[i].listing[name].ips
  {
  }

  /** A sighting dates from the first pass of the last stretch with one renew time. */
  lemma {:induction false} SightedSince(run: Run, i: nat, name: string) returns (c: nat)
    requires i < |run.passes| && name in run.passes[i].listing
    ensures c <= i && SameSince(run, name, c, i) && (c > 0 ==> !SameRenewal(run, name, c - 1, i))
    ensures name in After(run, i + 1).leases && After(run, i + 1).leases[name].changedAt == run.passes[c].now
  {
    LeasesAreListed(run, i, name);
    if i > 0 && SameRenewal(run, name, i - 1, i) {
      LeasesAreListed(run, i - 1, name);
      c := SightedSince(run, i - 1, name);
      forall x | c <= x <= i ensures SameRenewal(run, name, x, i) {
        assert x < i ==> SameRenewal(run, name, x, i - 1);
      }
    } else {
      if i > 0 {
        LeasesAreListed(run, i - 1, name);
      }
      c := i;
    }
  }

  lemma LiveIff(run: Run, i: nat, name: string)
    requires Ordered(run) && i < |run.passes| && name in run.passes[i].listing
    ensures name in After(run, i + 1).leases
    ensures Live(After(run, i + 1).leases[name], run.passes[i].now) <==> !Stuck(run, name, i)
  {
    var c := SightedSince(run, i, name);
    if a :| 0 <= a <= i && run.passes[i].now - run.passes[a].now >= 40_000 && SameSince(run, name, a, i) {
      assert c <= a;
      assert run.passes[c].now <= run.passes[a].now;
    } else {
      assert SameSince(run, name, c, i);
    }
  }

  /** The loop prunes exactly when it has been up for 40 s and its own Lease renews. */
  lemma PrunesIff(run: Run, i: nat)
    requires Ordered(run) && i < |run.passes|
    ensures PrunesAt(run, i) <==> Allowed(run, i)
  {
    LeasesAreListed(run, i, run.own);
    if run.own in run.passes[i].listing {
      LiveIff(run, i, run.own);
    }
  }

  lemma UnclaimedIff(run: Run, i: nat, ip: string)
    requires Ordered(run) && i < |run.passes|
    ensures UnmatchedAt(run, i, ip) <==> Unclaimed(run, i, ip)
  {
    forall name ensures name in After(run, i + 1).leases <==> name in run.passes[i].listing {
      LeasesAreListed(run, i, name);
    }
    forall name | name in run.passes[i].listing
      ensures After(run, i + 1).leases[name].ips == run.passes[i].listing[name].ips
      ensures Live(After(run, i + 1).leases[name], run.passes[i].now) <==> !Stuck(run, name, i)
    {
      LeasesAreListed(run, i, name);
      LiveIff(run, i, name);
    }
  }

  // ---- suspects ----------------------------------------------------------------------------------------

  lemma {:induction false} AllSightingsAre(lists: seq<seq<Entry>>, n: nat, leases: Leases, now: int, ip: string)
    requires n <= |lists|
    ensures ip in AllSightings(lists, n, leases, now) <==>
              !LiveIp(leases, now, ip) && exists j :: 0 <= j < n && Mentions(lists[j], ip)
  {
    if n > 0 {
      AllSightingsAre(lists, n - 1, leases, now, ip);
      SightingsAre(lists[n - 1], leases, now, ip);
    }
  }

  lemma SuspectsAre(run: Run, i: nat, ip: string)
    requires Ordered(run) && i <= |run.passes|
    ensures ip in After(run, i).previous <==> i > 0 && Suspected(run, i - 1, ip)
  {
    if i > 0 {
      var pass, leases := run.passes[i - 1], After(run, i).leases;
      PrunesIff(run, i - 1);
      UnclaimedIff(run, i - 1, ip);
      AllSightingsAre(pass.lists, |pass.lists|, leases, pass.now, ip);
    }
  }

  // ---- what is dropped ---------------------------------------------------------------------------------

  /**
   * An entry is dropped if and only if this pass and the one before were both allowed to prune, and
   * both found its address on no Lease that renews.
   */
  lemma DroppedIff(run: Run, i: nat, j: nat, e: Entry)
    requires Ordered(run) && i < |run.passes| && j < |run.passes[i].lists| && e in run.passes[i].lists[j]
    ensures e !in Output(run, i, j) <==>
              e.ip.Some? && i > 0 && Suspected(run, i - 1, e.ip.value) && Allowed(run, i) && Unclaimed(run, i, e.ip.value)
  {
    var pass := run.passes[i];
    KeptIs(pass.lists[j], After(run, i + 1).leases, pass.now, After(run, i).previous);
    PrunesIff(run, i);
    if e.ip.Some? {
      SuspectsAre(run, i, e.ip.value);
      UnclaimedIff(run, i, e.ip.value);
    }
  }

  lemma {:induction false} NonePruned(list: seq<Entry>, leases: Leases, now: int, previous: set<string>)
    requires forall e :: e in list ==> !Pruned(e, leases, now, previous)
    ensures Kept(list, leases, now, previous) == list
  {
    if list != [] {
      var init := list[..|list| - 1];
      assert forall e :: e in init ==> e in list;
      NonePruned(init, leases, now, previous);
      assert list == init + [list[|list| - 1]];
    }
  }

  /**
   * A pass in the first 40 s, one that does not list the own Lease, and one that finds it stuck leave
   * every list as it is; and the pass after it drops nothing either, as no sighting before it counts.
   */
  lemma GuardedPassesDropNothing(run: Run, i: nat, j: nat)
    requires Ordered(run) && i < |run.passes| && j < |run.passes[i].lists|
    requires !Allowed(run, i) || i == 0 || !Allowed(run, i - 1)
    ensures Output(run, i, j) == run.passes[i].lists[j]
  {
    PrunesIff(run, i);
    forall e | e in run.passes[i].lists[j] && e.ip.Some? ensures e.ip.value !in After(run, i).previous || !Allowed(run, i) {
      SuspectsAre(run, i, e.ip.value);
    }
    if Allowed(run, i) {
      NonePruned(run.passes[i].lists[j], After(run, i + 1).leases, run.passes[i].now, After(run, i).previous);
    }
  }
}
