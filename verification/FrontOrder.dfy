/** The order of a pass's plans does not depend on how the maps happen to be iterated. */
module FrontOrder {
  import opened Types
  import opened FrontPlan
  import opened FrontSizing
  import FrontWriter
  import ByteOrder

  /** The sort key, read off the front's needs. */
  predicate Before(inp: Input, f: LbFrontKey, g: LbFrontKey)
    requires (f in inp.desired ==> inp.desired[f].Valid()) && (g in inp.desired ==> inp.desired[g].Valid())
  {
    var m, n := Net(ShapeFor(inp, f)), Net(ShapeFor(inp, g));
    m < n || (m == n && FrontLess(f, g))
  }

  lemma FrontLessTotal(f: LbFrontKey, g: LbFrontKey)
    requires f != g && f.pad == g.pad
    ensures FrontLess(f, g) || FrontLess(g, f)
  {
    ByteOrder.LessTotal(f.ip, g.ip);
  }

  lemma FrontLessAsymmetric(f: LbFrontKey, g: LbFrontKey)
    requires FrontLess(f, g)
    ensures !FrontLess(g, f)
  {
    ByteOrder.LessIrreflexive(f.ip);
    if ByteOrder.Less(f.ip, g.ip) && ByteOrder.Less(g.ip, f.ip) {
      ByteOrder.LessTransitive(f.ip, g.ip, f.ip);
    }
  }

  ghost predicate Ascending(inp: Input, fronts: seq<LbFrontKey>)
    requires inp.Valid()
  {
    forall i, j :: 0 <= i < j < |fronts| ==> Before(inp, fronts[i], fronts[j])
  }

  lemma HeadIn(fronts: seq<LbFrontKey>)
    requires fronts != []
    ensures fronts[0] in fronts
  {
  }

  /** Two ascending lists of the same fronts start with the same one. */
  lemma SameHead(inp: Input, a: seq<LbFrontKey>, b: seq<LbFrontKey>)
    requires inp.Valid() && Ascending(inp, a) && Ascending(inp, b) && forall f :: f in a <==> f in b
    requires a != [] && b != []
    ensures a[0] == b[0]
  {
    HeadIn(a);
    HeadIn(b);
    var i :| 0 <= i < |b| && b[i] == a[0];
    var j :| 0 <= j < |a| && a[j] == b[0];
    if i > 0 && j > 0 {
      assert Before(inp, b[0], a[0]) && Before(inp, a[0], b[0]);
      if FrontLess(a[0], b[0]) {
        FrontLessAsymmetric(a[0], b[0]);
      }
    }
  }

  lemma NotBeforeItself(inp: Input, f: LbFrontKey)
    requires inp.Valid()
    ensures !Before(inp, f, f)
  {
    if FrontLess(f, f) {
      FrontLessAsymmetric(f, f);
    }
  }

  lemma TailMembers(inp: Input, a: seq<LbFrontKey>, f: LbFrontKey)
    requires inp.Valid() && Ascending(inp, a) && a != []
    ensures f in a[1..] <==> f in a && f != a[0]
  {
    NotBeforeItself(inp, a[0]);
    assert a == [a[0]] + a[1..];
  }

  /** So there is only one ascending list of given fronts. */
  lemma {:induction false} OneAscendingList(inp: Input, a: seq<LbFrontKey>, b: seq<LbFrontKey>)
    requires inp.Valid() && Ascending(inp, a) && Ascending(inp, b) && forall f :: f in a <==> f in b
    ensures a == b
  {
    if a == [] {
      if b != [] {
        HeadIn(b);
        assert false;
      }
    } else {
      HeadIn(a);
      SameHead(inp, a, b);
      forall f ensures f in a[1..] <==> f in b[1..] {
        TailMembers(inp, a, f);
        TailMembers(inp, b, f);
      }
      OneAscendingList(inp, a[1..], b[1..]);
      assert a == [a[0]] + a[1..] && b == [b[0]] + b[1..];
    }
  }

  function Fronts(plans: seq<FrontPlan>): (r: seq<LbFrontKey>)
    ensures |r| == |plans| && forall i :: 0 <= i < |plans| ==> r[i] == plans[i].front
  {
    seq(|plans|, i requires 0 <= i < |plans| => plans[i].front)
  }

  predicate Needs(inp: Input, f: LbFrontKey)
    requires f in inp.desired ==> inp.desired[f].Valid()
  {
    f in FrontsOf(inp) && ShapeFor(inp, f).Total() > 0
  }

  /** The sort key, which leaves out the padding, tells the planned fronts apart. */
  ghost predicate NoTies(inp: Input)
    requires inp.Valid()
  {
    forall f, g :: f != g && Needs(inp, f) && Needs(inp, g) ==> Before(inp, f, g) || Before(inp, g, f)
  }

  /** Zeroed padding, as every writer leaves it, is enough. */
  lemma ZeroPaddingBreaksTies(inp: Input)
    requires inp.Valid() && forall f :: f in FrontsOf(inp) ==> f.pad == 0
    ensures NoTies(inp)
  {
    forall f, g | f != g && Needs(inp, f) && Needs(inp, g) ensures Before(inp, f, g) || Before(inp, g, f) {
      FrontLessTotal(f, g);
    }
  }

  lemma PlansAscend(inp: Input, plans: seq<FrontPlan>)
    requires inp.Valid() && IsPlanList(inp, plans) && NoTies(inp)
    ensures Ascending(inp, Fronts(plans))
  {
    forall i, j | 0 <= i < j < |plans| ensures Before(inp, plans[i].front, plans[j].front) {
      KeyLessIsBefore(inp, plans[j], plans[i]);
      assert !KeyLess(plans[j], plans[i], inp.maps.meta);
      PlanIsNeeded(inp, plans, i);
      PlanIsNeeded(inp, plans, j);
    }
  }

  lemma PlanIsNeeded(inp: Input, plans: seq<FrontPlan>, i: nat)
    requires inp.Valid() && IsPlanList(inp, plans) && i < |plans|
    ensures Needs(inp, plans[i].front)
  {
    assert Follows(inp, plans[i]) && plans[i].steps != [];
  }

  lemma KeyLessIsBefore(inp: Input, a: FrontPlan, b: FrontPlan)
    requires Follows(inp, a) && Follows(inp, b)
    ensures KeyLess(a, b, inp.maps.meta) <==> Before(inp, a.front, b.front)
  {
    EffectOf(inp, a.front, a.front in inp.maps.meta);
    EffectOf(inp, b.front, b.front in inp.maps.meta);
    assert a == FrontPlan(a.front, ShapeFor(inp, a.front).Steps(a.front));
    assert b == FrontPlan(b.front, ShapeFor(inp, b.front).Steps(b.front));
  }

  lemma PlannedIff(inp: Input, plans: seq<FrontPlan>, f: LbFrontKey)
    requires inp.Valid() && IsPlanList(inp, plans)
    ensures f in Fronts(plans) <==> f in FrontsOf(inp) && ShapeFor(inp, f).Total() > 0
  {
    if f in FrontsOf(inp) && ShapeFor(inp, f).Total() > 0 {
      var i :| 0 <= i < |plans| && plans[i].front == f;
      assert Fronts(plans)[i] == f;
    }
    if f in Fronts(plans) {
      var i :| 0 <= i < |plans| && Fronts(plans)[i] == f;
      assert Follows(inp, plans[i]) && plans[i].steps != [];
    }
  }

  /** What a front needs, in numbers, is the same for every iteration order. */
  lemma OrderDoesNotMatter(a: Input, b: Input, f: LbFrontKey)
    requires a.Valid() && b.Valid() && b == a.(order := b.order)
    ensures Net(ShapeFor(a, f)) == Net(ShapeFor(b, f)) && ShapeFor(a, f).Total() == ShapeFor(b, f).Total()
  {
    DoomedSize(a, f);
    DoomedSize(b, f);
    assert Gone(a, f) == Gone(b, f);
  }

  lemma SameTies(a: Input, b: Input)
    requires a.Valid() && b.Valid() && b == a.(order := b.order) && NoTies(a)
    ensures NoTies(b)
  {
    forall f, g | f != g && Needs(b, f) && Needs(b, g) ensures Before(b, f, g) || Before(b, g, f) {
      OrderDoesNotMatter(a, b, f);
      OrderDoesNotMatter(a, b, g);
      assert Needs(a, f) && Needs(a, g);
    }
  }

  /** Without ties, whatever order the endpoint map is iterated in, the plans come in the same order of fronts. */
  lemma PlanOrderIsDeterministic(a: Input, b: Input, ps: seq<FrontPlan>, qs: seq<FrontPlan>)
    requires a.Valid() && b.Valid() && b == a.(order := b.order) && NoTies(a)
    requires IsPlanList(a, ps) && IsPlanList(b, qs)
    ensures Fronts(ps) == Fronts(qs)
  {
    PlansAscend(a, ps);
    SameTies(a, b);
    PlansAscend(b, qs);
    forall f ensures f in Fronts(ps) <==> f in Fronts(qs) {
      PlannedIff(a, ps, f);
      PlannedIff(b, qs, f);
      OrderDoesNotMatter(a, b, f);
    }
    forall i, j | 0 <= i < j < |qs| ensures Before(a, Fronts(qs)[i], Fronts(qs)[j]) {
      OrderDoesNotMatter(a, b, Fronts(qs)[i]);
      OrderDoesNotMatter(a, b, Fronts(qs)[j]);
    }
    OneAscendingList(a, Fronts(ps), Fronts(qs));
  }

  /** In particular zeroed padding fixes the order, however the endpoint map is iterated. */
  lemma ZeroPaddingFixesTheOrder(a: Input, b: Input, ps: seq<FrontPlan>, qs: seq<FrontPlan>)
    requires a.Valid() && b.Valid() && b == a.(order := b.order)
    requires forall f :: f in FrontsOf(a) ==> f.pad == 0
    requires IsPlanList(a, ps) && IsPlanList(b, qs)
    ensures Fronts(ps) == Fronts(qs)
  {
    ZeroPaddingBreaksTies(a);
    PlanOrderIsDeterministic(a, b, ps, qs);
  }

  // ---- ties --------------------------------------------------------------------------------------------

  function Swapped(plans: seq<FrontPlan>, i: nat, j: nat): seq<FrontPlan>
    requires i < |plans| && j < |plans|
  {
    plans[i := plans[j]][j := plans[i]]
  }

  /** Between two plans that tie, all plans tie with both. */
  lemma TieBetween(inp: Input, plans: seq<FrontPlan>, i: nat, x: nat, j: nat)
    requires inp.Valid() && IsPlanList(inp, plans) && i <= x <= j < |plans| && !KeyLess(plans[i], plans[j], inp.maps.meta)
    ensures !KeyLess(plans[i], plans[x], inp.maps.meta) && !KeyLess(plans[x], plans[j], inp.maps.meta)
  {
    var meta := inp.maps.meta;
    if KeyLess(plans[i], plans[x], meta) {
      FrontWriter.KeyLessWeak(plans[i], plans[j], plans[x], meta);
    }
    if KeyLess(plans[x], plans[j], meta) {
      FrontWriter.KeyLessWeak(plans[x], plans[i], plans[j], meta);
    }
  }

  lemma SwappedStaysSorted(inp: Input, plans: seq<FrontPlan>, i: nat, j: nat, a: nat, b: nat)
    requires inp.Valid() && IsPlanList(inp, plans) && i < j < |plans| && !KeyLess(plans[i], plans[j], inp.maps.meta)
    requires a < b < |plans|
    ensures !KeyLess(Swapped(plans, i, j)[b], Swapped(plans, i, j)[a], inp.maps.meta)
  {
    if i <= a <= j {
      TieBetween(inp, plans, i, a, j);
    }
    if i <= b <= j {
      TieBetween(inp, plans, i, b, j);
    }
  }

  /** Exchanging two plans that tie gives another list the sort may return. */
  lemma TiedPlansMaySwap(inp: Input, plans: seq<FrontPlan>, i: nat, j: nat)
    requires inp.Valid() && IsPlanList(inp, plans) && i < j < |plans| && !KeyLess(plans[i], plans[j], inp.maps.meta)
    ensures IsPlanList(inp, Swapped(plans, i, j)) && Fronts(Swapped(plans, i, j)) != Fronts(plans)
  {
    var qs := Swapped(plans, i, j);
    forall a, b | 0 <= a < b < |qs| ensures !KeyLess(qs[b], qs[a], inp.maps.meta) {
      SwappedStaysSorted(inp, plans, i, j, a, b);
    }
    forall x | 0 <= x < |qs| ensures Follows(inp, qs[x]) && qs[x].front in FrontsOf(inp) && qs[x].steps != [] {
      SwappedFollows(inp, plans, i, j, x);
    }
    forall f | Needs(inp, f) ensures Planned(qs, f) {
      SwappedPlans(inp, plans, i, j, f);
    }
    SwappedDistinct(plans, i, j);
    assert Fronts(qs)[i] != Fronts(plans)[i];
  }

  /** Where the plan at `x` comes from. */
  function Place(i: nat, j: nat, x: nat): nat {
    if x == i then j else if x == j then i else x
  }

  lemma SwappedFollows(inp: Input, plans: seq<FrontPlan>, i: nat, j: nat, x: nat)
    requires inp.Valid() && IsPlanList(inp, plans) && i < j < |plans| && x < |plans|
    ensures var q := Swapped(plans, i, j)[x]; Follows(inp, q) && q.front in FrontsOf(inp) && q.steps != []
  {
    assert Swapped(plans, i, j)[x] == plans[Place(i, j, x)];
  }

  lemma SwappedPlans(inp: Input, plans: seq<FrontPlan>, i: nat, j: nat, f: LbFrontKey)
    requires inp.Valid() && IsPlanList(inp, plans) && i < j < |plans| && Needs(inp, f)
    ensures Planned(Swapped(plans, i, j), f)
  {
    var x :| 0 <= x < |plans| && plans[x].front == f;
    assert Swapped(plans, i, j)[Place(i, j, x)].front == f;
  }

  lemma SwappedDistinct(plans: seq<FrontPlan>, i: nat, j: nat)
    requires DistinctFronts(plans) && i < j < |plans|
    ensures DistinctFronts(Swapped(plans, i, j))
  {
  }

  /** The order of the plans is determined if and only if the sort key tells the planned fronts apart. */
  lemma PlanOrderUniqueIff(inp: Input, plans: seq<FrontPlan>)
    requires inp.Valid() && IsPlanList(inp, plans)
    ensures (forall qs :: IsPlanList(inp, qs) ==> Fronts(qs) == Fronts(plans)) <==> NoTies(inp)
  {
    if NoTies(inp) {
      forall qs | IsPlanList(inp, qs) ensures Fronts(qs) == Fronts(plans) {
        PlanOrderIsDeterministic(inp, inp, qs, plans);
      }
    } else {
      var f, g :| f != g && Needs(inp, f) && Needs(inp, g) && !Before(inp, f, g) && !Before(inp, g, f);
      TieShows(inp, plans, f, g);
    }
  }

  lemma TieShows(inp: Input, plans: seq<FrontPlan>, f: LbFrontKey, g: LbFrontKey)
    requires inp.Valid() && IsPlanList(inp, plans) && f != g && Needs(inp, f) && Needs(inp, g)
    requires !Before(inp, f, g) && !Before(inp, g, f)
    ensures exists qs :: IsPlanList(inp, qs) && Fronts(qs) != Fronts(plans)
  {
    var x :| 0 <= x < |plans| && plans[x].front == f;
    var y :| 0 <= y < |plans| && plans[y].front == g;
    KeyLessIsBefore(inp, plans[x], plans[y]);
    KeyLessIsBefore(inp, plans[y], plans[x]);
    if x < y {
      TiedPlansMaySwap(inp, plans, x, y);
    } else {
      TiedPlansMaySwap(inp, plans, y, x);
    }
  }
}
