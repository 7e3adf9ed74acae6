/** The generation-swap writer as it runs: loops over the plans, updating the two maps in place. */
module FrontWriter {
  import opened Types
  import opened FrontPlan
  import opened FrontSafety
  import ByteOrder

  // ---- planning -------------------------------------------------------------------------------

  /** `f`'s keys in `order`, as `endpoints_by_front` groups them. */
  function KeysOf(order: seq<FrontEndpointKey>, f: LbFrontKey): seq<FrontEndpointKey> {
    if order == [] then []
    else
      var rest := KeysOf(order[..|order| - 1], f);
      if order[|order| - 1].front == f then rest + [order[|order| - 1]] else rest
  }

  lemma {:induction false} DoomedOfGrouped(inp: Input, f: LbFrontKey, order: seq<FrontEndpointKey>)
    requires f in inp.desired ==> inp.desired[f].Valid()
    ensures Doomed(inp, f, KeysOf(order, f)) == Doomed(inp, f, order)
  {
    if order != [] {
      var rest, k := order[..|order| - 1], order[|order| - 1];
      DoomedOfGrouped(inp, f, rest);
      if k.front == f {
        assert KeysOf(order, f)[..|KeysOf(order, f)| - 1] == KeysOf(rest, f);
      }
    }
  }

  method GroupByFront(order: seq<FrontEndpointKey>) returns (groups: map<LbFrontKey, seq<FrontEndpointKey>>)
    ensures forall f :: KeysOf(order, f) == if f in groups then groups[f] else []
  {
    groups := map[];
    for i := 0 to |order|
      invariant forall f :: KeysOf(order[..i], f) == if f in groups then groups[f] else []
    {
      var k := order[i];
      var sofar := if k.front in groups then groups[k.front] else [];
      groups := groups[k.front := sofar + [k]];
      assert order[..i + 1][..i] == order[..i];
    }
    assert order[..|order|] == order;
  }

  /** The deletes of a plan, pushed in the order the keys were grouped. */
  method PushDeletes(inp: Input, f: LbFrontKey, existing: seq<FrontEndpointKey>, steps: seq<FrontWrite>)
    returns (r: seq<FrontWrite>)
    requires f in inp.desired ==> inp.desired[f].Valid()
    ensures var d := Doomed(inp, f, existing);
            r == steps + seq(|d|, i requires 0 <= i < |d| => DeleteEndpoint(d[i]))
  {
    r := steps;
    for i := 0 to |existing|
      invariant var d := Doomed(inp, f, existing[..i]);
                r == steps + seq(|d|, i requires 0 <= i < |d| => DeleteEndpoint(d[i]))
    {
      assert existing[..i + 1][..i] == existing[..i];
      if Deletes(inp, f, existing[i]) {
        r := r + [DeleteEndpoint(existing[i])];
      }
    }
    assert existing[..|existing|] == existing;
  }

  /** The puts of a swap and its commit, behind the deletes. */
  method PushSwap(inp: Input, f: LbFrontKey, deletes: seq<FrontWrite>) returns (steps: seq<FrontWrite>)
    requires f in inp.desired && inp.desired[f].Valid() && !Unchanged(inp.maps, f, inp.desired[f])
    requires var sh := ShapeFor(inp, f);
             |deletes| == sh.D() && forall i :: 0 <= i < |deletes| ==> deletes[i] == sh.StepAt(f, i)
    ensures steps == ShapeFor(inp, f).Steps(f)
  {
    ghost var sh := ShapeFor(inp, f);
    var want, next := inp.desired[f], NextGeneration(inp.maps, f);
    assert sh.puts == want.endpoints && sh.gen == next;
    steps := deletes;
    for slot := 0 to |want.endpoints|
      invariant |steps| == sh.D() + slot
      invariant forall i :: 0 <= i < |steps| ==> steps[i] == sh.StepAt(f, i)
    {
      steps := steps + [PutEndpoint(EndpointKey(f, next, slot), want.endpoints[slot])];
    }
    steps := steps + [PutMeta(f, FrontMeta(next, |want.endpoints|, want.flags, want.LocalCount()))];
  }

  /** The steps of one front, branch by branch. */
  method PlanFront(inp: Input, f: LbFrontKey, existing: seq<FrontEndpointKey>) returns (steps: seq<FrontWrite>)
    requires f in inp.desired ==> inp.desired[f].Valid()
    requires existing == KeysOf(inp.order, f)
    ensures steps == ShapeFor(inp, f).Steps(f)
  {
    DoomedOfGrouped(inp, f, inp.order);
    steps := [];
    if f !in inp.desired {
      if !inp.prune {
        NothingDoomed(inp, f, inp.order);
        return;
      }
      if f in inp.maps.meta {
        steps := [DeleteMeta(f)];
      }
      steps := PushDeletes(inp, f, existing, steps);
    } else {
      var want := inp.desired[f];
      steps := PushDeletes(inp, f, existing, steps);
      if Unchanged(inp.maps, f, want) {
        var m := inp.maps.meta[f];
        if m.flags != want.flags {
          steps := steps + [PutMeta(f, m.(flags := want.flags))];
        }
      } else {
        steps := PushSwap(inp, f, steps);
      }
    }
  }

  lemma {:induction false} NothingDoomed(inp: Input, f: LbFrontKey, order: seq<FrontEndpointKey>)
    requires f !in inp.desired && !inp.prune
    ensures Doomed(inp, f, order) == []
  {
    if order != [] {
      NothingDoomed(inp, f, order[..|order| - 1]);
    }
  }

  // ---- sorting the plans ------------------------------------------------------------------------

  lemma KeyLessAsymmetric(a: FrontPlan, b: FrontPlan, meta: map<LbFrontKey, FrontMeta>)
    requires KeyLess(a, b, meta)
    ensures !KeyLess(b, a, meta)
  {
    ByteOrder.LessIrreflexive(a.front.ip);
    if ByteOrder.Less(a.front.ip, b.front.ip) && ByteOrder.Less(b.front.ip, a.front.ip) {
      ByteOrder.LessTransitive(a.front.ip, b.front.ip, a.front.ip);
    }
  }

  /** What is less than `c` is less than `b`, or `b` is less than `c`. */
  lemma KeyLessWeak(a: FrontPlan, b: FrontPlan, c: FrontPlan, meta: map<LbFrontKey, FrontMeta>)
    requires KeyLess(a, c, meta)
    ensures KeyLess(a, b, meta) || KeyLess(b, c, meta)
  {
    ByteOrder.LessTotal(a.front.ip, b.front.ip);
    ByteOrder.LessTotal(b.front.ip, c.front.ip);
    if ByteOrder.Less(b.front.ip, a.front.ip) && ByteOrder.Less(a.front.ip, c.front.ip) {
      ByteOrder.LessTransitive(b.front.ip, a.front.ip, c.front.ip);
    }
  }

  ghost predicate SortedPlans(plans: seq<FrontPlan>, meta: map<LbFrontKey, FrontMeta>) {
    forall i, j :: 0 <= i < j < |plans| ==> !KeyLess(plans[j], plans[i], meta)
  }

  /** One insertion of the sort. */
  method InsertSorted(plans: seq<FrontPlan>, p: FrontPlan, meta: map<LbFrontKey, FrontMeta>)
    returns (r: seq<FrontPlan>, ghost at: nat)
    requires SortedPlans(plans, meta)
    ensures at <= |plans| && r == plans[..at] + [p] + plans[at..]
    ensures SortedPlans(r, meta)
  {
    var n := |plans|;
    while n > 0 && KeyLess(p, plans[n - 1], meta)
      invariant 0 <= n <= |plans|
      invariant forall x :: n <= x < |plans| ==> KeyLess(p, plans[x], meta)
    {
      n := n - 1;
    }
    at := n;
    r := plans[..n] + [p] + plans[n..];
    forall x | 0 <= x < n ensures !KeyLess(p, plans[x], meta) {
      if KeyLess(p, plans[x], meta) {
        KeyLessWeak(p, plans[n - 1], plans[x], meta);
      }
    }
    forall x | n <= x < |plans| ensures !KeyLess(plans[x], p, meta) {
      KeyLessAsymmetric(p, plans[x], meta);
    }
  }

  /** What the plan list says about the fronts already looked at. */
  ghost predicate PlansFor(inp: Input, done: set<LbFrontKey>, plans: seq<FrontPlan>)
    requires inp.Valid()
  {
    && DistinctFronts(plans)
    && (forall i :: 0 <= i < |plans| ==> Follows(inp, plans[i]))
    && (forall i :: 0 <= i < |plans| ==> plans[i].front in done && plans[i].steps != [])
    && (forall f :: f in done && ShapeFor(inp, f).Total() > 0 ==> Planned(plans, f))
  }

  lemma InsertedPlanned(plans: seq<FrontPlan>, p: FrontPlan, at: nat, r: seq<FrontPlan>, f: LbFrontKey)
    requires at <= |plans| && r == plans[..at] + [p] + plans[at..]
    ensures f == p.front || Planned(plans, f) ==> Planned(r, f)
  {
    if f == p.front {
      assert r[at].front == f;
    } else if Planned(plans, f) {
      var i :| 0 <= i < |plans| && plans[i].front == f;
      assert r[if i < at then i else i + 1].front == f;
    }
  }

  lemma InsertedPlans(inp: Input, done: set<LbFrontKey>, plans: seq<FrontPlan>, p: FrontPlan, at: nat, r: seq<FrontPlan>)
    requires inp.Valid() && PlansFor(inp, done, plans) && p.front !in done && p.steps != []
    requires Follows(inp, p) && at <= |plans| && r == plans[..at] + [p] + plans[at..]
    ensures PlansFor(inp, done + {p.front}, r)
  {
    forall i | 0 <= i < |r| ensures Follows(inp, r[i]) && r[i].front in done + {p.front} && r[i].steps != [] {
      assert r[i] == if i < at then plans[i] else if i == at then p else plans[i - 1];
    }
    forall f | f in done + {p.front} && ShapeFor(inp, f).Total() > 0 ensures Planned(r, f) {
      InsertedPlanned(plans, p, at, r, f);
    }
  }

  /** The body of the loop over the fronts. */
  method AddPlan(inp: Input, ghost done: set<LbFrontKey>, front: LbFrontKey, existing: seq<FrontEndpointKey>,
                 plans: seq<FrontPlan>) returns (r: seq<FrontPlan>)
    requires inp.Valid() && front !in done && existing == KeysOf(inp.order, front)
    requires PlansFor(inp, done, plans) && SortedPlans(plans, inp.maps.meta)
    ensures PlansFor(inp, done + {front}, r) && SortedPlans(r, inp.maps.meta)
  {
    var steps := PlanFront(inp, front, existing);
    if steps == [] {
      r := plans;
    } else {
      ghost var at;
      r, at := InsertSorted(plans, FrontPlan(front, steps), inp.maps.meta);
      InsertedPlans(inp, done, plans, FrontPlan(front, steps), at, r);
    }
  }

  /** `plan_front_writes`: one plan per front that needs one, shrinking fronts first. */
  method PlanFrontWrites(inp: Input) returns (plans: seq<FrontPlan>)
    requires inp.Valid()
    ensures IsPlanList(inp, plans)
  {
    var groups := GroupByFront(inp.order);
    var todo := FrontsOf(inp);
    ghost var done: set<LbFrontKey> := {};
    plans := [];
    while todo != {}
      invariant done + todo == FrontsOf(inp) && done !! todo
      invariant PlansFor(inp, done, plans) && SortedPlans(plans, inp.maps.meta)
      decreases todo
    {
      var front :| front in todo;
      assert KeysOf(inp.order, front) == if front in groups then groups[front] else [];
      plans := AddPlan(inp, done, front, if front in groups then groups[front] else [], plans);
      todo := todo - {front};
      done := done + {front};
    }
    AllPlanned(inp, done, plans);
  }

  lemma AllPlanned(inp: Input, done: set<LbFrontKey>, plans: seq<FrontPlan>)
    requires inp.Valid() && done == FrontsOf(inp) && PlansFor(inp, done, plans) && SortedPlans(plans, inp.maps.meta)
    ensures IsPlanList(inp, plans)
  {
  }

  // ---- running the plans ------------------------------------------------------------------------

  /** What is reported of a front: its plan was refused, or a step of it failed. */
  datatype Failure = Refused | Failed(step: FrontWrite)

  /** Whether the run attempts the step and it does not land. */
  predicate Fails(r: Run, w: FrontWrite, ok: bool) {
    !r.halted && !(r.blocked && w.PutMeta?) && !(ok && CanLand(r.maps, w))
  }

  /** Alike in everything but whether a write failed before. */
  predicate SameProgress(a: Run, b: Run) {
    a.(failed := false) == b.(failed := false)
  }

  lemma SameNext(a: Run, b: Run, w: FrontWrite, ok: bool, live: Option<FrontMeta>)
    requires SameProgress(a, b)
    ensures SameProgress(Step(a, w, ok, live), Step(b, w, ok, live)) && Fails(a, w, ok) == Fails(b, w, ok)
  {
  }

  /** The failures among the first `k` steps of a plan, in order. */
  function FailuresOf(r: Run, steps: seq<FrontWrite>, ok: seq<bool>, live: Option<FrontMeta>, k: nat): seq<Failure>
    requires k <= |steps| && |ok| == |steps|
  {
    if k == 0 then []
    else
      var w := steps[k - 1];
      FailuresOf(r, steps, ok, live, k - 1)
      + if Fails(ExecTo(r, steps, ok, live, k - 1), w, ok[k - 1]) then [Failed(w)] else []
  }

  lemma {:induction false} FailedIff(r: Run, steps: seq<FrontWrite>, ok: seq<bool>, live: Option<FrontMeta>, k: nat)
    requires k <= |steps| && |ok| == |steps| && !r.failed
    ensures ExecTo(r, steps, ok, live, k).failed <==> FailuresOf(r, steps, ok, live, k) != []
  {
    if k > 0 {
      FailedIff(r, steps, ok, live, k - 1);
    }
  }

  lemma {:induction false} HaltedFailsNoMore(r: Run, steps: seq<FrontWrite>, ok: seq<bool>, live: Option<FrontMeta>, i: nat, j: nat)
    requires i <= j <= |steps| && |ok| == |steps| && ExecTo(r, steps, ok, live, i).halted
    ensures FailuresOf(r, steps, ok, live, j) == FailuresOf(r, steps, ok, live, i)
    decreases j
  {
    if i < j {
      HaltedFailsNoMore(r, steps, ok, live, i, j - 1);
      HaltedStays(r, steps, ok, live, i, j - 1);
    }
  }

  /** The failures of plan `i` of a pass. */
  function PlanFailures(p: Pass, i: nat): seq<Failure>
    requires p.Sized() && i < |p.plans|
  {
    var s := PassTo(p, i);
    if Shortfall(p.plans[i], p.Live(i).Some?, s.used, p.cap) then [Refused]
    else FailuresOf(Start(s.maps, s.used), p.plans[i].steps, p.oks[i], p.Live(i), |p.plans[i].steps|)
  }

  /** Every failure of the first `i` plans, with its front, in the order of the plans. */
  function FailuresTo(p: Pass, i: nat): seq<(LbFrontKey, Failure)>
    requires p.Sized() && i <= |p.plans|
  {
    if i == 0 then [] else FailuresTo(p, i - 1) + Tagged(p.plans[i - 1].front, PlanFailures(p, i - 1))
  }

  function Tagged(f: LbFrontKey, failures: seq<Failure>): (r: seq<(LbFrontKey, Failure)>)
    ensures |r| == |failures| && forall i :: 0 <= i < |r| ==> r[i] == (f, failures[i])
  {
    seq(|failures|, i requires 0 <= i < |failures| => (f, failures[i]))
  }

  /** The first `i` plans have run, leaving these maps, counts and reports. */
  ghost predicate HasRun(p: Pass, i: nat, maps: Maps, used: Usage, swapped: seq<LbFrontKey>, failures: seq<(LbFrontKey, Failure)>)
    requires p.Sized() && i <= |p.plans|
  {
    var s := PassTo(p, i);
    s.maps == maps && s.used == used && s.swapped == swapped && failures == FailuresTo(p, i)
  }

  predicate Troubled(s: PassState) {
    s.refused || s.failed
  }

  /** The pass reports a failure exactly when a plan was refused or a write failed. */
  lemma {:induction false} FailuresIff(p: Pass, i: nat)
    requires p.Sized() && i <= |p.plans|
    ensures FailuresTo(p, i) != [] <==> Troubled(PassTo(p, i))
  {
    if i > 0 {
      FailuresIff(p, i - 1);
      PlanFailuresIff(p, i - 1, PassTo(p, i - 1), PassTo(p, i));
    }
  }

  lemma PlanFailuresIff(p: Pass, i: nat, s: PassState, s': PassState)
    requires p.Sized() && i < |p.plans| && s == PassTo(p, i) && s' == PassTo(p, i + 1)
    ensures Troubled(s') <==> Troubled(s) || PlanFailures(p, i) != []
  {
    FailedIff(Start(s.maps, s.used), p.plans[i].steps, p.oks[i], p.Live(i), |p.plans[i].steps|);
  }

  /** The two pinned maps, written in place. `ok` is what the kernel answers to each write attempted. */
  class FrontTables {
    var meta: map<LbFrontKey, FrontMeta>
    var endpoints: map<FrontEndpointKey, FrontEndpoint>

    function Contents(): Maps
      reads this
    {
      Maps(meta, endpoints)
    }

    constructor (m: Maps)
      ensures Contents() == m
    {
      meta, endpoints := m.meta, m.eps;
    }

    /** One map write; deleting a missing key fails, and a failed write changes nothing. */
    method TryWrite(w: FrontWrite, ok: bool) returns (landed: bool)
      modifies this
      ensures landed == (ok && CanLand(old(Contents()), w))
      ensures Contents() == if landed then Write(old(Contents()), w) else old(Contents())
    {
      landed := ok && CanLand(Contents(), w);
      if landed {
        match w
        case DeleteEndpoint(k) => endpoints := Remove(endpoints, k);
        case PutEndpoint(k, ep) => endpoints := endpoints[k := ep];
        case PutMeta(f, v) => meta := meta[f := v];
        case DeleteMeta(f) => meta := Remove(meta, f);
      }
    }

    /** The body of the loop over the steps, with the closure that counts entries and notices the commit. */
    method RunStep(w: FrontWrite, ok: bool, live: Option<FrontMeta>, used0: Usage, blocked0: bool, committed0: bool)
      returns (used: Usage, blocked: bool, committed: bool, failed: bool)
      modifies this
      ensures var r := Run(old(Contents()), used0, blocked0, false, committed0, false);
              && Step(r, w, ok, live) == Run(Contents(), used, blocked, failed && w.DeleteMeta?, committed, failed)
              && failed == Fails(r, w, ok)
    {
      used, blocked, committed, failed := used0, blocked0, committed0, false;
      if blocked && w.PutMeta? {
        return;
      }
      var landed := TryWrite(w, ok);
      if landed {
        used := used.Apply(w, live.Some?);
        if w.PutMeta? {
          committed := committed || live.None? || live.value.generation != w.meta.generation;
        }
      } else {
        failed := true;
        blocked := blocked || w.PutEndpoint?;
      }
    }

    /** `run_front_plan`: a failed endpoint write blocks the commit, a failed meta delete ends the plan. */
    method RunFrontPlan(plan: FrontPlan, ok: seq<bool>, live: Option<FrontMeta>, used0: Usage)
      returns (used: Usage, committed: bool, failures: seq<Failure>)
      requires |ok| == |plan.steps|
      modifies this
      ensures var r := ExecTo(Start(old(Contents()), used0), plan.steps, ok, live, |plan.steps|);
              Contents() == r.maps && used == r.used && committed == r.committed
      ensures failures == FailuresOf(Start(old(Contents()), used0), plan.steps, ok, live, |plan.steps|)
    {
      used, committed, failures := used0, false, [];
      var blocked := false;
      ghost var r0 := Start(Contents(), used0);
      var i := 0;
      while i < |plan.steps|
        invariant 0 <= i <= |plan.steps|
        invariant SameProgress(ExecTo(r0, plan.steps, ok, live, i), Run(Contents(), used, blocked, false, committed, false))
        invariant failures == FailuresOf(r0, plan.steps, ok, live, i)
      {
        ghost var before := Run(Contents(), used, blocked, false, committed, false);
        var failed;
        used, blocked, committed, failed := RunStep(plan.steps[i], ok[i], live, used, blocked, committed);
        SameNext(ExecTo(r0, plan.steps, ok, live, i), before, plan.steps[i], ok[i], live);
        if failed {
          failures := failures + [Failed(plan.steps[i])];
          if plan.steps[i].DeleteMeta? {
            HaltedStays(r0, plan.steps, ok, live, i + 1, |plan.steps|);
            HaltedFailsNoMore(r0, plan.steps, ok, live, i + 1, |plan.steps|);
            break;
          }
        }
        i := i + 1;
      }
    }

    /** The body of the loop over the plans. */
    method RunPlanAt(p: Pass, i: nat, used0: Usage, swapped0: seq<LbFrontKey>, failures0: seq<(LbFrontKey, Failure)>)
      returns (used: Usage, swapped: seq<LbFrontKey>, failures: seq<(LbFrontKey, Failure)>)
      requires p.Sized() && i < |p.plans| && HasRun(p, i, Contents(), used0, swapped0, failures0)
      modifies this
      ensures HasRun(p, i + 1, Contents(), used, swapped, failures)
    {
      var errors;
      var plan, live := p.plans[i], p.Live(i);
      if Shortfall(plan, live.Some?, used0, p.cap) {
        used, swapped, errors := used0, swapped0, [Refused];
      } else {
        var committed;
        used, committed, errors := RunFrontPlan(plan, p.oks[i], live, used0);
        swapped := if committed then swapped0 + [plan.front] else swapped0;
      }
      failures := failures0 + Tagged(plan.front, errors);
    }

    /** `run_front_plans`: every plan in turn, a refused or failed one never stopping the others. */
    method RunFrontPlans(p: Pass) returns (swapped: seq<LbFrontKey>, failures: seq<(LbFrontKey, Failure)>)
      requires p.Sized() && Contents() == p.inp.maps
      modifies this
      ensures Contents() == PassTo(p, |p.plans|).maps && swapped == PassTo(p, |p.plans|).swapped
      ensures failures == FailuresTo(p, |p.plans|)
    {
      swapped, failures := [], [];
      var used := Usage(|meta|, |endpoints|);
      for i := 0 to |p.plans|
        invariant HasRun(p, i, Contents(), used, swapped, failures)
      {
        used, swapped, failures := RunPlanAt(p, i, used, swapped, failures);
      }
    }
  }

  lemma {:induction false} HaltedStays(r: Run, steps: seq<FrontWrite>, ok: seq<bool>, live: Option<FrontMeta>, i: nat, j: nat)
    requires i <= j <= |steps| && |ok| == |steps| && ExecTo(r, steps, ok, live, i).halted
    ensures ExecTo(r, steps, ok, live, j) == ExecTo(r, steps, ok, live, i)
    decreases j
  {
    if i < j {
      HaltedStays(r, steps, ok, live, i, j - 1);
    }
  }

  /** `capacity_shortfall`'s loop: the running and the peak change of both maps. */
  method ComputeEffect(plan: FrontPlan, hadMeta: bool) returns (e: Effect)
    ensures e == PlanEffect(plan, hadMeta)
  {
    e := Effect(0, 0, 0, 0);
    for i := 0 to |plan.steps|
      invariant e == EffectTo(plan.steps, hadMeta, i)
    {
      e := e.Next(plan.steps[i], hadMeta);
    }
  }
}
