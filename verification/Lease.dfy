/** Node liveness by observation: Leases seen to change, and addresses pruned after two unmatched passes. */
module Lease {
  import opened Types

  /** All times are milliseconds of the pruner's own monotonic clock. */
  const LEASE_DURATION: int := 40_000
  const LEASE_RENEW: int := 10_000
  const PRUNE_INTERVAL_MAX: int := 15_000

  function MaxPruneLatency(graceful: bool): int {
    if graceful then 2 * PRUNE_INTERVAL_MAX else LEASE_DURATION + 3 * PRUNE_INTERVAL_MAX
  }

  datatype Listed = Listed(renewTime: string, ips: set<string>)
  datatype Observed = Observed(renewTime: string, ips: set<string>, changedAt: int)

  type Listing = map<string, Listed>
  type Leases = map<string, Observed>

  predicate Live(l: Observed, now: int) {
    (if now < l.changedAt then 0 else now - l.changedAt) < LEASE_DURATION
  }

  function Sight(known: Option<Observed>, l: Listed, now: int): Observed {
    Observed(l.renewTime, l.ips,
             if known.Some? && known.value.renewTime == l.renewTime then known.value.changedAt else now)
  }

  /** A full listing replaces what was known; an unchanged renew time keeps its sighting. */
  function Observe(known: Leases, listing: Listing, now: int): Leases {
    map name | name in listing :: Sight(Lookup(known, name), listing[name], now)
  }

  lemma ObserveOneMore(known: Leases, listing: Listing, name: string, l: Listed, now: int)
    ensures Observe(known, listing[name := l], now)
         == Observe(known, listing, now)[name := Sight(Lookup(known, name), l, now)]
  {
  }

  predicate WarmedUp(started: int, now: int) {
    (if now < started then 0 else now - started) >= LEASE_DURATION
  }

  predicate MayPrune(leases: Leases, started: int, own: string, now: int) {
    WarmedUp(started, now) && own in leases && Live(leases[own], now)
  }

  predicate LiveIp(leases: Leases, now: int, ip: string) {
    exists name :: name in leases && Live(leases[name], now) && ip in leases[name].ips
  }

  /** One entry of a Service's ingress list; a hostname-only entry has no address. */
  datatype Entry = Entry(ip: Option<string>, rest: string)

  predicate Unmatched(e: Entry, leases: Leases, now: int) {
    e.ip.Some? && !LiveIp(leases, now, e.ip.value)
  }

  predicate Pruned(e: Entry, leases: Leases, now: int, previous: set<string>) {
    Unmatched(e, leases, now) && e.ip.value in previous
  }

  /** What stays of a list: entries that are matched, or were not suspects before. */
  function Kept(list: seq<Entry>, leases: Leases, now: int, previous: set<string>): seq<Entry> {
    if list == [] then []
    else
      var rest, e := Kept(list[..|list| - 1], leases, now, previous), list[|list| - 1];
      if Pruned(e, leases, now, previous) then rest else rest + [e]
  }

  lemma {:induction false} KeptIs(list: seq<Entry>, leases: Leases, now: int, previous: set<string>)
    ensures forall e :: e in Kept(list, leases, now, previous) <==> e in list && !Pruned(e, leases, now, previous)
    ensures |Kept(list, leases, now, previous)| <= |list|
    ensures |Kept(list, leases, now, previous)| == |list| ==> Kept(list, leases, now, previous) == list
  {
    if list != [] {
      KeptIs(list[..|list| - 1], leases, now, previous);
      assert list == list[..|list| - 1] + [list[|list| - 1]];
    }
  }

  /** The addresses of a list that no live Lease carries. */
  function Sightings(list: seq<Entry>, leases: Leases, now: int): set<string> {
    if list == [] then {}
    else
      var e := list[|list| - 1];
      Sightings(list[..|list| - 1], leases, now) + if Unmatched(e, leases, now) then {e.ip.value} else {}
  }

  lemma {:induction false} SightingsAre(list: seq<Entry>, leases: Leases, now: int, ip: string)
    ensures ip in Sightings(list, leases, now) <==>
              !LiveIp(leases, now, ip) && exists e :: e in list && e.ip == Some(ip)
  {
    if list != [] {
      SightingsAre(list[..|list| - 1], leases, now, ip);
      assert list == list[..|list| - 1] + [list[|list| - 1]];
    }
  }

  // ---- the objects ----------------------------------------------------------------------------------

  datatype NamedLease = NamedLease(name: string, lease: Listed)

  function ListingOf(listed: seq<NamedLease>, n: nat): Listing
    requires n <= |listed|
  {
    if n == 0 then map[] else ListingOf(listed, n - 1)[listed[n - 1].name := listed[n - 1].lease]
  }

  class LeaseTracker {
    const started: int
    var leases: Leases

    constructor (now: int)
      ensures started == now && leases == map[]
    {
      started := now;
      leases := map[];
    }

    /** The apiserver lists each name once. */
    method ObserveListing(listed: seq<NamedLease>, now: int)
      requires forall i, j :: 0 <= i < j < |listed| ==> listed[i].name != listed[j].name
      modifies this
      ensures leases == Observe(old(leases), ListingOf(listed, |listed|), now)
    {
      var previous := leases;
      leases := map[];
      for i := 0 to |listed|
        invariant leases == Observe(old(leases), ListingOf(listed, i), now)
        invariant forall j :: i <= j < |listed| ==> Lookup(previous, listed[j].name) == Lookup(old(leases), listed[j].name)
      {
        var name, l := listed[i].name, listed[i].lease;
        assert Lookup(previous, name) == Lookup(old(leases), name);
        ObserveOneMore(old(leases), ListingOf(listed, i), name, l, now);
        leases := leases[name := Sight(Lookup(previous, name), l, now)];
        previous := Remove(previous, name);
      }
    }

    method MayPruneNow(own: string, now: int) returns (b: bool)
      ensures b == MayPrune(leases, started, own, now)
    {
      b := WarmedUp(started, now) && own in leases && Live(leases[own], now);
    }
  }

  class PruneSuspects {
    var previous: set<string>
    var current: set<string>

    constructor ()
      ensures previous == {} && current == {}
    {
      previous, current := {}, {};
    }

    method EndPass()
      modifies this
      ensures previous == old(current) && current == {}
    {
      previous, current := current, {};
    }

    method Reset()
      modifies this
      ensures previous == {} && current == {}
    {
      previous, current := {}, {};
    }

    /** One Service's list; `None` when nothing is dropped. */
    method ConfirmedPrunedIngress(existing: seq<Entry>, leases: Leases, now: int) returns (r: Option<seq<Entry>>)
      modifies this
      ensures previous == old(previous)
      ensures current == old(current) + Sightings(existing, leases, now)
      ensures r.None? ==> Kept(existing, leases, now, previous) == existing
      ensures r.Some? ==> r.value == Kept(existing, leases, now, previous) && |r.value| < |existing|
    {
      var kept: seq<Entry> := [];
      for i := 0 to |existing|
        invariant previous == old(previous)
        invariant kept == Kept(existing[..i], leases, now, previous)
        invariant current == old(current) + Sightings(existing[..i], leases, now)
      {
        var e := existing[i];
        assert existing[..i + 1][..i] == existing[..i];
        if e.ip.None? || LiveIp(leases, now, e.ip.value) {
          kept := kept + [e];
        } else {
          current := current + {e.ip.value};
          if e.ip.value !in previous {
            kept := kept + [e];
          }
        }
      }
      assert existing[..|existing|] == existing;
      KeptIs(existing, leases, now, previous);
      r := if |kept| != |existing| then Some(kept) else None;
    }
  }
}
