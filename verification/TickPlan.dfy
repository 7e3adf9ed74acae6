/** Conntrack pins of departed or reused pod IPs are swept before anything naming those IPs is installed. */
module TickPlan {
  import opened Types
  import opened FrontPlan
  import opened FrontSafety
  import opened FrontGrace

  type Ip = seq<byte>
  type Owners = map<Ip, Option<string>>

  datatype Desired = Desired(fronts: map<LbFrontKey, DesiredFront>, podTargets: set<Ip>, backends: Owners,
                             podTargetsKnown: bool)

  datatype Plan = Plan(sweepFailed: bool, fronts: map<LbFrontKey, DesiredFront>, pruneFronts: bool,
                       podTargets: set<Ip>, deleteRows: set<Ip>)

  /** Present on both sides under different known uids. */
  predicate Reused(known: Owners, desired: Owners, ip: Ip) {
    && ip in known && ip in desired
    && known[ip].Some? && desired[ip].Some? && known[ip].value != desired[ip].value
  }

  function StaleRows(d: Desired, installed: set<Ip>): set<Ip> {
    if d.podTargetsKnown then installed - d.podTargets else {}
  }

  function Departed(known: Owners, desired: Owners): set<Ip> {
    set ip | ip in known && ip !in desired
  }

  /** `reused_pod_ips`. */
  function ReusedIps(known: Owners, desired: Owners): set<Ip> {
    set ip | ip in desired && Reused(known, desired, ip)
  }

  /** The IPs whose pins this tick evicts. */
  function SweepSet(d: Desired, installed: set<Ip>, known: Owners, orphans: Option<set<Ip>>): set<Ip> {
    var sweep := if orphans.Some? then orphans.value else {};
    if d.podTargetsKnown
    then sweep + StaleRows(d, installed) + Departed(known, d.backends) + ReusedIps(known, d.backends)
    else sweep
  }

  function Pending(sweep: set<Ip>, ok: bool): set<Ip> {
    if ok then {} else sweep
  }

  function KnownAfter(d: Desired, known: Owners, pending: set<Ip>): Owners {
    if !d.podTargetsKnown then known
    else map ip | ip in known.Keys + d.backends.Keys && (ip in pending ==> ip in known) && (ip !in pending ==> ip in d.backends)
           :: if ip in pending then known[ip] else d.backends[ip]
  }

  predicate Names(f: DesiredFront, ips: set<Ip>) {
    exists i :: 0 <= i < |f.endpoints| && f.endpoints[i].backend.podIp in ips
  }

  function HandedOut(fronts: map<LbFrontKey, DesiredFront>, pending: set<Ip>): map<LbFrontKey, DesiredFront> {
    map f | f in fronts && !Names(fronts[f], pending) :: fronts[f]
  }

  function PlanFor(d: Desired, installed: set<Ip>, sweep: set<Ip>, ok: bool): Plan {
    var fronts := HandedOut(d.fronts, Pending(sweep, ok));
    Plan(sweep != {} && !ok, fronts, |fronts| == |d.fronts|, d.podTargets - Pending(sweep, ok),
         if sweep != {} && !ok then {} else StaleRows(d, installed))
  }

  /** What this tick sweeps, gathered part by part, and the rows it may then delete. */
  method CollectSweep(d: Desired, installed: set<Ip>, known: Owners, orphans: Option<set<Ip>>)
    returns (sweep: set<Ip>, deleteRows: set<Ip>)
    ensures sweep == SweepSet(d, installed, known, orphans)
    ensures deleteRows == if d.podTargetsKnown then StaleRows(d, installed) else {}
  {
    sweep, deleteRows := if orphans.Some? then orphans.value else {}, {};
    if d.podTargetsKnown {
      deleteRows := StaleRows(d, installed);
      sweep := sweep + deleteRows;
      sweep := sweep + Departed(known, d.backends);
      sweep := sweep + ReusedIps(known, d.backends);
    }
  }

  /** The planner keeps what it knows of the backends between ticks. */
  class Planner {
    var known: Owners

    constructor ()
      ensures known == map[]
    {
      known := map[];
    }

    /** What stays known after a failed sweep: the pending IPs as they were, the rest as desired. */
    method RetainPending(d: Desired, pending: set<Ip>)
      requires d.podTargetsKnown
      modifies this
      ensures known == KnownAfter(d, old(known), pending)
    {
      known := map ip | ip in known && ip in pending :: known[ip];
      ghost var kept := known;
      var todo := d.backends.Keys;
      while todo != {}
        invariant todo <= d.backends.Keys
        invariant forall ip :: ip in known <==> ip in kept || (ip in d.backends.Keys - todo && ip !in pending)
        invariant forall ip :: ip in known ==> known[ip] == if ip in pending then kept[ip] else d.backends[ip]
        decreases todo
      {
        var ip :| ip in todo;
        if ip !in pending {
          known := known[ip := d.backends[ip]];
        }
        todo := todo - {ip};
      }
    }

    /** `plan_tick`; `ok` is what the eviction of the whole sweep set answers. */
    method PlanTick(d: Desired, installed: set<Ip>, orphans: Option<set<Ip>>, ok: bool)
      returns (plan: Plan, sweep: set<Ip>)
      modifies this
      ensures sweep == SweepSet(d, installed, old(known), orphans)
      ensures plan == PlanFor(d, installed, sweep, ok)
      ensures known == KnownAfter(d, old(known), Pending(sweep, ok))
    {
      var deleteRows;
      sweep, deleteRows := CollectSweep(d, installed, known, orphans);
      var failed := sweep != {} && !ok;
      var pending := Pending(sweep, ok);
      UpdateKnown(d, pending, failed);
      if failed {
        deleteRows := {};
      }
      var fronts := HandedOut(d.fronts, pending);
      plan := Plan(failed, fronts, |fronts| == |d.fronts|, d.podTargets - pending, deleteRows);
    }

    method UpdateKnown(d: Desired, pending: set<Ip>, failed: bool)
      requires failed || pending == {}
      modifies this
      ensures known == KnownAfter(d, old(known), pending)
    {
      if d.podTargetsKnown {
        if failed {
          RetainPending(d, pending);
        } else {
          AllKnown(d, known);
          known := d.backends;
        }
      }
    }
  }

  lemma AllKnown(d: Desired, known: Owners)
    requires d.podTargetsKnown
    ensures KnownAfter(d, known, {}) == d.backends
  {
  }

  // ---- what is held back --------------------------------------------------------------------------

  /** A pending IP holds back exactly the fronts and rows that name it. */
  lemma OnlyNamedAreHeld(d: Desired, installed: set<Ip>, sweep: set<Ip>, ok: bool)
    ensures var plan := PlanFor(d, installed, sweep, ok);
            && (forall f :: f in plan.fronts <==> f in d.fronts && !Names(d.fronts[f], Pending(sweep, ok)))
            && (forall ip :: ip in plan.podTargets <==> ip in d.podTargets && ip !in Pending(sweep, ok))
            && (plan.pruneFronts <==> forall f :: f in d.fronts ==> f in plan.fronts)
            && (plan.deleteRows != {} ==> ok || sweep == {})
  {
    SameSizeIffAll(d.fronts, HandedOut(d.fronts, Pending(sweep, ok)));
  }

  /**
   * A tick reports a failure exactly if it had something to sweep and could not. Exactly then it deletes
   * no row; otherwise it deletes the installed rows that are no longer wanted, if the wanted ones are known.
   */
  lemma DeletesOnlyWhatIsSwept(d: Desired, installed: set<Ip>, known: Owners, orphans: Option<set<Ip>>, ok: bool)
    ensures var sweep := SweepSet(d, installed, known, orphans);
            var plan := PlanFor(d, installed, sweep, ok);
            && (plan.sweepFailed <==> !ok && exists ip :: ip in sweep)
            && (forall ip :: ip in plan.deleteRows <==> ip in installed && ip !in d.podTargets && d.podTargetsKnown && ok)
            && plan.deleteRows <= sweep
  {
    var sweep := SweepSet(d, installed, known, orphans);
    if sweep != {} {
      var ip :| ip in sweep;
    }
    forall ip | ip in StaleRows(d, installed) ensures ip in sweep {
    }
  }

  lemma SameSizeIffAll<K, V>(all: map<K, V>, some: map<K, V>)
    requires some.Keys <= all.Keys
    ensures |some| == |all| <==> forall k :: k in all ==> k in some
  {
    assert |some| == |some.Keys| && |all| == |all.Keys|;
    var rest := all.Keys - some.Keys;
    assert all.Keys == some.Keys + rest;
    assert |all.Keys| == |some.Keys| + |rest|;
    assert |rest| == 0 <==> rest == {};
  }

  /** A held-back front keeps what it has, at every boundary of the pass that writes the others. */
  lemma HeldBackIsUntouched(d: Desired, installed: set<Ip>, sweep: set<Ip>, ok: bool, p: Pass, i: nat, k: nat, f: LbFrontKey)
    requires p.Valid() && i <= |p.plans| && (i < |p.plans| ==> k <= |p.plans[i].steps|)
    requires var plan := PlanFor(d, installed, sweep, ok);
             p.inp.desired == plan.fronts && p.inp.prune == plan.pruneFronts && f in d.fronts && f !in plan.fronts
    ensures SameOn(p.inp.maps, StateAt(p, i, k), f)
  {
    OnlyNamedAreHeld(d, installed, sweep, ok);
    assert f !in FrontsOf(p.inp);
    forall x | 0 <= x < |p.plans| ensures p.plans[x].front != f {
      assert p.plans[x].front in FrontsOf(p.inp);
    }
    DoneFrom(p, 0, i, k, f);
  }
}
