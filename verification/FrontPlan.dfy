/** What one reconcile pass writes to a front, and what each write does. */
module FrontPlan {
  import opened Types
  import ByteOrder

  /** The two pinned front maps. */
  datatype Maps = Maps(meta: map<LbFrontKey, FrontMeta>, eps: map<FrontEndpointKey, FrontEndpoint>)

  datatype DesiredFront = DesiredFront(flags: u16, preferLocal: bool, endpoints: seq<FrontEndpoint>) {
    /** Lists longer than a `u16` count are outside the model. */
    predicate Valid() {
      |endpoints| < 0x1_0000
    }

    function LocalCount(): (n: u16)
      requires Valid()
      ensures n <= |endpoints|
      ensures forall i :: 0 <= i < n ==> IsLocal(endpoints[i])
      ensures preferLocal && n < |endpoints| ==> !IsLocal(endpoints[n])
      ensures !preferLocal ==> n == 0
    {
      if preferLocal then LocalRun(endpoints) else 0
    }
  }

  /** `take_while(is_local).count()`. */
  function LocalRun(eps: seq<FrontEndpoint>): (n: nat)
    ensures n <= |eps|
    ensures forall i :: 0 <= i < n ==> IsLocal(eps[i])
    ensures n < |eps| ==> !IsLocal(eps[n])
  {
    if eps == [] || !IsLocal(eps[0]) then 0 else 1 + LocalRun(eps[1..])
  }

  datatype FrontWrite =
    | DeleteEndpoint(key: FrontEndpointKey)
    | PutEndpoint(key: FrontEndpointKey, ep: FrontEndpoint)
    | PutMeta(front: LbFrontKey, meta: FrontMeta)
    | DeleteMeta(front: LbFrontKey)

  datatype FrontPlan = FrontPlan(front: LbFrontKey, steps: seq<FrontWrite>)

  /** Everything a pass plans from. `order` is the iteration order of the endpoint map. */
  datatype Input = Input(maps: Maps, order: seq<FrontEndpointKey>, desired: map<LbFrontKey, DesiredFront>,
                         prune: bool, keep: set<LbFrontKey>)
  {
    ghost predicate Valid() {
      && Enumerates(order, maps.eps.Keys)
      && forall f :: f in desired ==> desired[f].Valid()
    }
  }

  /** Whether the live generation of `f` already serves `want`, flags aside. */
  predicate Unchanged(maps: Maps, f: LbFrontKey, want: DesiredFront)
    requires want.Valid()
  {
    && f in maps.meta
    && var m := maps.meta[f];
       && m.count == |want.endpoints|
       && m.localCount == want.LocalCount()
       && forall i :: 0 <= i < |want.endpoints| ==>
            Lookup(maps.eps, EndpointKey(f, m.generation, i)) == Some(want.endpoints[i])
  }

  /** Whether the plan of `f` deletes the row `k`. */
  predicate Deletes(inp: Input, f: LbFrontKey, k: FrontEndpointKey)
    requires f in inp.desired ==> inp.desired[f].Valid()
  {
    && k.front == f
    && if f !in inp.desired then inp.prune
       else if f !in inp.maps.meta then true
       else
         var live := inp.maps.meta[f].generation;
         if Unchanged(inp.maps, f, inp.desired[f])
         then k.generation != live && !(f in inp.keep && k.generation == WrappingSub1(live))
         else k.generation != live
  }

  /** The rows `f`'s plan deletes, in map iteration order. */
  function Doomed(inp: Input, f: LbFrontKey, order: seq<FrontEndpointKey>): (r: seq<FrontEndpointKey>)
    requires f in inp.desired ==> inp.desired[f].Valid()
    ensures forall k :: k in r <==> k in order && Deletes(inp, f, k)
    ensures NoDuplicates(order) ==> NoDuplicates(r)
  {
    if order == [] then []
    else
      var rest := Doomed(inp, f, order[..|order| - 1]);
      var k := order[|order| - 1];
      assert order == order[..|order| - 1] + [k];
      if Deletes(inp, f, k) then rest + [k] else rest
  }

  /** The four parts of a front's plan, in the order they run. */
  datatype Shape = Shape(dropMeta: bool, doomed: seq<FrontEndpointKey>, gen: u32, puts: seq<FrontEndpoint>,
                         commit: Option<FrontMeta>)
  {
    function H(): nat { if dropMeta then 1 else 0 }
    function D(): nat { H() + |doomed| }
    function P(): nat { D() + |puts| }
    function Total(): nat { P() + if commit.Some? then 1 else 0 }

    predicate Valid() {
      |puts| < 0x1_0000
    }

    function StepAt(f: LbFrontKey, i: nat): FrontWrite
      requires Valid() && i < Total()
    {
      if i < H() then DeleteMeta(f)
      else if i < D() then DeleteEndpoint(doomed[i - H()])
      else if i < P() then PutEndpoint(EndpointKey(f, gen, i - D()), puts[i - D()])
      else PutMeta(f, commit.value)
    }

    function Steps(f: LbFrontKey): (r: seq<FrontWrite>)
      requires Valid()
      ensures |r| == Total() && forall i :: 0 <= i < |r| ==> r[i] == StepAt(f, i)
    {
      seq(Total(), i requires 0 <= i < Total() => StepAt(f, i))
    }
  }

  function NextGeneration(maps: Maps, f: LbFrontKey): u32 {
    if f in maps.meta then WrappingAdd1(maps.meta[f].generation) else 1
  }

  function ShapeFor(inp: Input, f: LbFrontKey): (sh: Shape)
    requires f in inp.desired ==> inp.desired[f].Valid()
    ensures sh.Valid()
  {
    var doomed := Doomed(inp, f, inp.order);
    if f !in inp.desired then
      Shape(inp.prune && f in inp.maps.meta, doomed, 0, [], None)
    else
      var want := inp.desired[f];
      if Unchanged(inp.maps, f, want) then
        var m := inp.maps.meta[f];
        Shape(false, doomed, m.generation, [], if m.flags != want.flags then Some(m.(flags := want.flags)) else None)
      else
        var next := NextGeneration(inp.maps, f);
        Shape(false, doomed, next, want.endpoints,
              Some(FrontMeta(next, |want.endpoints|, want.flags, want.LocalCount())))
  }

  /** The fronts a pass looks at. */
  function FrontsOf(inp: Input): set<LbFrontKey> {
    inp.desired.Keys +
    if inp.prune then inp.maps.meta.Keys + (set k | k in inp.maps.eps :: k.front) else {}
  }

  // ---- running a plan -------------------------------------------------------------------------

  datatype Usage = Usage(meta: nat, endpoints: nat) {
    function Apply(w: FrontWrite, hadMeta: bool): Usage {
      match w
      case PutEndpoint(_, _) => this.(endpoints := endpoints + 1)
      case DeleteEndpoint(_) => this.(endpoints := if endpoints == 0 then 0 else endpoints - 1)
      case PutMeta(_, _) => if hadMeta then this else this.(meta := meta + 1)
      case DeleteMeta(_) => this.(meta := if meta == 0 then 0 else meta - 1)
    }
  }

  function Write(m: Maps, w: FrontWrite): Maps {
    match w
    case DeleteEndpoint(k) => m.(eps := Remove(m.eps, k))
    case PutEndpoint(k, ep) => m.(eps := m.eps[k := ep])
    case PutMeta(f, v) => m.(meta := m.meta[f := v])
    case DeleteMeta(f) => m.(meta := Remove(m.meta, f))
  }

  /** Deleting a key that is not there fails with `ENOENT`. */
  predicate CanLand(m: Maps, w: FrontWrite) {
    && (w.DeleteEndpoint? ==> w.key in m.eps)
    && (w.DeleteMeta? ==> w.front in m.meta)
  }

  /** The loop state of `run_front_plan`, with the closure `run_front_plans` hands it. */
  datatype Run = Run(maps: Maps, used: Usage, blocked: bool, halted: bool, committed: bool, failed: bool)

  /** One iteration; `ok` is whether the kernel accepts the write, if it is attempted. */
  function Step(r: Run, w: FrontWrite, ok: bool, live: Option<FrontMeta>): Run {
    if r.halted || (r.blocked && w.PutMeta?) then r
    else if ok && CanLand(r.maps, w) then
      r.(maps := Write(r.maps, w),
         used := r.used.Apply(w, live.Some?),
         committed := r.committed || (w.PutMeta? && (live.None? || live.value.generation != w.meta.generation)))
    else
      r.(blocked := r.blocked || w.PutEndpoint?, halted := w.DeleteMeta?, failed := true)
  }

  /** The state after the first `k` steps: every step boundary of the plan. */
  function ExecTo(r: Run, steps: seq<FrontWrite>, ok: seq<bool>, live: Option<FrontMeta>, k: nat): Run
    requires k <= |steps| && |ok| == |steps|
  {
    if k == 0 then r else Step(ExecTo(r, steps, ok, live, k - 1), steps[k - 1], ok[k - 1], live)
  }

  function Start(maps: Maps, used: Usage): Run {
    Run(maps, used, false, false, false, false)
  }

  // ---- capacity -------------------------------------------------------------------------------

  /** `plan_effect`'s accumulators. */
  datatype Effect = Effect(ep: int, epPeak: nat, meta: int, metaPeak: nat) {
    function Next(w: FrontWrite, hadMeta: bool): Effect {
      var ep' := if w.PutEndpoint? then ep + 1 else if w.DeleteEndpoint? then ep - 1 else ep;
      var meta' := if w.PutMeta? && !hadMeta then meta + 1 else if w.DeleteMeta? then meta - 1 else meta;
      Effect(ep', Max(epPeak, ep'), meta', Max(metaPeak, meta'))
    }
  }

  function Max(a: nat, b: int): nat {
    if b > a then b else a
  }

  function EffectTo(steps: seq<FrontWrite>, hadMeta: bool, k: nat): Effect
    requires k <= |steps|
  {
    if k == 0 then Effect(0, 0, 0, 0) else EffectTo(steps, hadMeta, k - 1).Next(steps[k - 1], hadMeta)
  }

  function PlanEffect(plan: FrontPlan, hadMeta: bool): Effect {
    EffectTo(plan.steps, hadMeta, |plan.steps|)
  }

  datatype Capacity = Capacity(meta: nat, endpoints: nat)

  predicate Shortfall(plan: FrontPlan, hadMeta: bool, used: Usage, cap: Capacity) {
    var e := PlanEffect(plan, hadMeta);
    used.endpoints + e.epPeak > cap.endpoints || used.meta + e.metaPeak > cap.meta
  }

  // ---- the list of plans ----------------------------------------------------------------------

  /** The sort key is `(net rows, ip, port, proto)`. */
  predicate KeyLess(a: FrontPlan, b: FrontPlan, meta: map<LbFrontKey, FrontMeta>) {
    var na := PlanEffect(a, a.front in meta).ep;
    var nb := PlanEffect(b, b.front in meta).ep;
    na < nb || (na == nb && FrontLess(a.front, b.front))
  }

  predicate FrontLess(a: LbFrontKey, b: LbFrontKey) {
    || ByteOrder.Less(a.ip, b.ip)
    || (a.ip == b.ip && (a.port < b.port || (a.port == b.port && a.proto < b.proto)))
  }

  /** `plan` is what its front needs. */
  predicate Follows(inp: Input, plan: FrontPlan) {
    && (plan.front in inp.desired ==> inp.desired[plan.front].Valid())
    && plan.steps == ShapeFor(inp, plan.front).Steps(plan.front)
  }

  predicate DistinctFronts(plans: seq<FrontPlan>) {
    forall i, j :: 0 <= i < j < |plans| ==> plans[i].front != plans[j].front
  }

  /** What `plan_front_writes` returns: one non-empty plan per front that needs one, shrinking first. */
  ghost predicate IsPlanList(inp: Input, plans: seq<FrontPlan>)
    requires inp.Valid()
  {
    && DistinctFronts(plans)
    && (forall i :: 0 <= i < |plans| ==> Follows(inp, plans[i]))
    && (forall i :: 0 <= i < |plans| ==> plans[i].front in FrontsOf(inp) && plans[i].steps != [])
    && (forall f :: f in FrontsOf(inp) && ShapeFor(inp, f).Total() > 0 ==> Planned(plans, f))
    && (forall i, j :: 0 <= i < j < |plans| ==> !KeyLess(plans[j], plans[i], inp.maps.meta))
  }

  ghost predicate Planned(plans: seq<FrontPlan>, f: LbFrontKey) {
    exists i :: 0 <= i < |plans| && plans[i].front == f
  }

  // ---- one pass -------------------------------------------------------------------------------

  /** A pass: what it plans from, its plans, which writes the kernel accepts, and the caps. */
  datatype Pass = Pass(inp: Input, plans: seq<FrontPlan>, oks: seq<seq<bool>>, cap: Capacity) {
    predicate Sized() {
      && |oks| == |plans|
      && forall i :: 0 <= i < |plans| ==> |oks[i]| == |plans[i].steps|
    }

    /** Each front is written by at most one plan, and by the plan it needs. */
    predicate Runs() {
      && Sized() && DistinctFronts(plans)
      && forall i :: 0 <= i < |plans| ==> Follows(inp, plans[i])
    }

    ghost predicate Valid() {
      Runs() && inp.Valid() && IsPlanList(inp, plans)
    }

    function Live(i: nat): Option<FrontMeta>
      requires i < |plans|
    {
      Lookup(inp.maps.meta, plans[i].front)
    }
  }

  datatype PassState = PassState(maps: Maps, used: Usage, swapped: seq<LbFrontKey>, refused: bool, failed: bool)

  /** The state after the first `i` plans of the pass. */
  function PassTo(p: Pass, i: nat): PassState
    requires p.Sized() && i <= |p.plans|
    decreases i, 0
  {
    if i == 0 then PassState(p.inp.maps, Usage(|p.inp.maps.meta|, |p.inp.maps.eps|), [], false, false)
    else
      var s := PassTo(p, i - 1);
      if Shortfall(p.plans[i - 1], p.Live(i - 1).Some?, s.used, p.cap) then s.(refused := true)
      else
        var r := Boundary(p, i - 1, |p.plans[i - 1].steps|);
        PassState(r.maps, r.used, if r.committed then s.swapped + [p.plans[i - 1].front] else s.swapped,
                  s.refused, s.failed || r.failed)
  }

  /** The state after the first `i` plans and `k` steps of the next one, if that one is not refused. */
  function Boundary(p: Pass, i: nat, k: nat): Run
    requires p.Sized() && i < |p.plans| && k <= |p.plans[i].steps|
    decreases i, 1
  {
    var s := PassTo(p, i);
    ExecTo(Start(s.maps, s.used), p.plans[i].steps, p.oks[i], p.Live(i), k)
  }
}
