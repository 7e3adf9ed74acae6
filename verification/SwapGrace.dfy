/** Fronts that committed recently, so that their previous generation is still held. */
module SwapGrace {
  import opened Types

  /** `saturating_duration_since(at) < grace`. */
  predicate Within(at: int, now: int, grace: nat) {
    (if now < at then 0 else now - at) < grace
  }

  function Recorded(at: map<LbFrontKey, int>, swapped: seq<LbFrontKey>, now: int, grace: nat): map<LbFrontKey, int> {
    map f | f in at.Keys + (set x | x in swapped) && (f in swapped || Within(at[f], now, grace)) ::
      if f in swapped then now else at[f]
  }

  function HeldAt(at: map<LbFrontKey, int>, now: int, grace: nat): set<LbFrontKey> {
    set f | f in at && Within(at[f], now, grace)
  }

  class RecentSwaps {
    var at: map<LbFrontKey, int>

    constructor ()
      ensures at == map[]
    {
      at := map[];
    }

    method Held(now: int, grace: nat) returns (held: set<LbFrontKey>)
      ensures held == HeldAt(at, now, grace)
    {
      held := set f | f in at && Within(at[f], now, grace);
    }

    /** Forgets expired holds, then starts the grace of `swapped`. */
    method Record(swapped: seq<LbFrontKey>, now: int, grace: nat)
      modifies this
      ensures at == Recorded(old(at), swapped, now, grace)
    {
      at := map f | f in at && Within(at[f], now, grace) :: at[f];
      for i := 0 to |swapped|
        invariant forall f :: f in at <==> f in swapped[..i] || (f in old(at) && Within(old(at)[f], now, grace))
        invariant forall f :: f in at ==> at[f] == if f in swapped[..i] then now else old(at)[f]
      {
        at := at[swapped[i] := now];
      }
      assert swapped[..|swapped|] == swapped;
    }

    method Expired(now: int, grace: nat) returns (b: bool)
      ensures b <==> HeldAt(at, now, grace) != at.Keys
    {
      b := exists f :: f in at && !Within(at[f], now, grace);
    }
  }

  datatype Tick = Tick(swapped: seq<LbFrontKey>, now: int)

  function RecordAll(at: map<LbFrontKey, int>, ticks: seq<Tick>, grace: nat): map<LbFrontKey, int> {
    if ticks == [] then at
    else
      var t := ticks[|ticks| - 1];
      Recorded(RecordAll(at, ticks[..|ticks| - 1], grace), t.swapped, t.now, grace)
  }

  /** A front is held by every pass that starts within the grace of the instant last recorded for it, whatever is recorded between. */
  lemma {:induction false} HeldForTheGrace(at: map<LbFrontKey, int>, f: LbFrontKey, ticks: seq<Tick>, now: int, grace: nat)
    requires f in at && at[f] <= now && now - at[f] < grace
    requires forall i :: 0 <= i < |ticks| ==> at[f] <= ticks[i].now <= now
    ensures f in HeldAt(RecordAll(at, ticks, grace), now, grace)
    ensures RecordAll(at, ticks, grace)[f] >= at[f]
  {
    if ticks != [] {
      HeldForTheGrace(at, f, ticks[..|ticks| - 1], now, grace);
    }
  }

  /** And by none that starts after it. */
  lemma {:induction false} NotHeldAfterTheGrace(at: map<LbFrontKey, int>, f: LbFrontKey, ticks: seq<Tick>, now: int, grace: nat)
    requires f in at ==> now - at[f] >= grace
    requires forall i :: 0 <= i < |ticks| ==> f !in ticks[i].swapped
    requires forall i :: 0 <= i < |ticks| ==> ticks[i].now <= now
    requires grace > 0
    ensures f !in HeldAt(RecordAll(at, ticks, grace), now, grace)
    ensures f in RecordAll(at, ticks, grace) ==> f in at && RecordAll(at, ticks, grace)[f] == at[f]
  {
    if ticks != [] {
      NotHeldAfterTheGrace(at, f, ticks[..|ticks| - 1], now, grace);
    }
  }
}
