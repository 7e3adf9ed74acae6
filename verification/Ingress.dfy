/** Many nodes publish their own addresses in one atomic list, each by get, modify and version-checked patch. */
module Ingress {
  import opened Types
  import opened Lease

  /** An entry this node must drop: its own address, no longer wanted. */
  predicate Stale(e: Entry, own: set<string>, desired: seq<string>) {
    e.ip.Some? && e.ip.value in own && e.ip.value !in desired
  }

  function WithoutStale(list: seq<Entry>, own: set<string>, desired: seq<string>): seq<Entry> {
    if list == [] then []
    else
      var rest, e := WithoutStale(list[..|list| - 1], own, desired), list[|list| - 1];
      if Stale(e, own, desired) then rest else rest + [e]
  }

  predicate HasIp(list: seq<Entry>, ip: string) {
    exists i :: 0 <= i < |list| && list[i].ip == Some(ip)
  }

  /** Appends the first `n` wanted addresses that are missing. */
  function WithWanted(list: seq<Entry>, desired: seq<string>, n: nat): seq<Entry>
    requires n <= |desired|
  {
    if n == 0 then list
    else
      var sofar := WithWanted(list, desired, n - 1);
      if HasIp(sofar, desired[n - 1]) then sofar else sofar + [Entry(Some(desired[n - 1]), "")]
  }

  /** The corrected list. */
  function Merged(list: seq<Entry>, own: set<string>, desired: seq<string>): seq<Entry> {
    WithWanted(WithoutStale(list, own, desired), desired, |desired|)
  }

  // ---- what one publish does --------------------------------------------------------------------------

  /** The entries that are not among `own`, in order: what belongs to the others. */
  function Others(list: seq<Entry>, own: set<string>): seq<Entry> {
    if list == [] then []
    else
      var rest, e := Others(list[..|list| - 1], own), list[|list| - 1];
      if e.ip.Some? && e.ip.value in own then rest else rest + [e]
  }

  lemma {:induction false} DroppingStaleKeepsOthers(list: seq<Entry>, own: set<string>, desired: seq<string>)
    ensures Others(WithoutStale(list, own, desired), own) == Others(list, own)
  {
    if list != [] {
      var init, e := list[..|list| - 1], list[|list| - 1];
      DroppingStaleKeepsOthers(init, own, desired);
      var rest := WithoutStale(init, own, desired);
      assert (rest + [e])[..|rest|] == rest;
    }
  }

  lemma {:induction false} AddingWantedKeepsOthers(list: seq<Entry>, own: set<string>, desired: seq<string>, n: nat)
    requires n <= |desired| && forall ip :: ip in desired ==> ip in own
    ensures Others(WithWanted(list, desired, n), own) == Others(list, own)
  {
    if n > 0 {
      AddingWantedKeepsOthers(list, own, desired, n - 1);
      var sofar := WithWanted(list, desired, n - 1);
      assert (sofar + [Entry(Some(desired[n - 1]), "")])[..|sofar|] == sofar;
    }
  }

  /** A publish neither removes nor reorders what other nodes published. */
  lemma OthersUntouched(list: seq<Entry>, own: set<string>, desired: seq<string>)
    requires forall ip :: ip in desired ==> ip in own
    ensures Others(Merged(list, own, desired), own) == Others(list, own)
  {
    DroppingStaleKeepsOthers(list, own, desired);
    AddingWantedKeepsOthers(WithoutStale(list, own, desired), own, desired, |desired|);
  }

  lemma {:induction false} OthersHave(list: seq<Entry>, own: set<string>, ip: string)
    requires ip !in own
    ensures HasIp(Others(list, own), ip) <==> HasIp(list, ip)
  {
    if list != [] {
      var init, e := list[..|list| - 1], list[|list| - 1];
      OthersHave(init, own, ip);
      HasIpSnoc(init, e, ip);
      HasIpSnoc(Others(init, own), e, ip);
      assert list == init + [e];
    }
  }

  lemma HasIpSnoc(list: seq<Entry>, e: Entry, ip: string)
    ensures HasIp(list + [e], ip) <==> HasIp(list, ip) || e.ip == Some(ip)
  {
    var r := list + [e];
    if HasIp(list, ip) {
      var i :| 0 <= i < |list| && list[i].ip == Some(ip);
      assert r[i].ip == Some(ip);
    }
    if e.ip == Some(ip) {
      assert r[|list|].ip == Some(ip);
    }
  }

  lemma {:induction false} DroppedIps(list: seq<Entry>, own: set<string>, desired: seq<string>, ip: string)
    ensures HasIp(WithoutStale(list, own, desired), ip) <==> HasIp(list, ip) && !(ip in own && ip !in desired)
  {
    if list != [] {
      var init, e := list[..|list| - 1], list[|list| - 1];
      DroppedIps(init, own, desired, ip);
      HasIpSnoc(init, e, ip);
      HasIpSnoc(WithoutStale(init, own, desired), e, ip);
      assert list == init + [e];
    }
  }

  lemma {:induction false} AddedIps(list: seq<Entry>, desired: seq<string>, n: nat, ip: string)
    requires n <= |desired|
    ensures HasIp(WithWanted(list, desired, n), ip) <==> HasIp(list, ip) || ip in desired[..n]
  {
    if n > 0 {
      AddedIps(list, desired, n - 1, ip);
      AddedIps(list, desired, n - 1, desired[n - 1]);
      HasIpSnoc(WithWanted(list, desired, n - 1), Entry(Some(desired[n - 1]), ""), ip);
      assert desired[..n] == desired[..n - 1] + [desired[n - 1]];
    }
  }

  /** Of a node's own addresses, the merged list carries exactly the wanted ones. */
  lemma OwnAreWanted(list: seq<Entry>, own: set<string>, desired: seq<string>, ip: string)
    requires ip in own
    ensures HasIp(Merged(list, own, desired), ip) <==> ip in desired
  {
    DroppedIps(list, own, desired, ip);
    AddedIps(WithoutStale(list, own, desired), desired, |desired|, ip);
    assert desired[..|desired|] == desired;
  }

  lemma {:induction false} ShorterHadStale(list: seq<Entry>, own: set<string>, desired: seq<string>)
    ensures |WithoutStale(list, own, desired)| <= |list|
    ensures WithoutStale(list, own, desired) != list ==>
              |WithoutStale(list, own, desired)| < |list| && exists i :: 0 <= i < |list| && Stale(list[i], own, desired)
  {
    if list != [] {
      var init, e := list[..|list| - 1], list[|list| - 1];
      ShorterHadStale(init, own, desired);
      assert list == init + [e];
      if WithoutStale(init, own, desired) != init {
        var i :| 0 <= i < |init| && Stale(init[i], own, desired);
        assert Stale(list[i], own, desired);
      }
    }
  }

  lemma {:induction false} AddingGrows(list: seq<Entry>, desired: seq<string>, n: nat)
    requires n <= |desired|
    ensures |WithWanted(list, desired, n)| >= |list|
    ensures |WithWanted(list, desired, n)| == |list| ==> WithWanted(list, desired, n) == list
  {
    if n > 0 {
      AddingGrows(list, desired, n - 1);
    }
  }

  /** No entry of this node is stale, and every wanted address is there. */
  predicate AlreadyRight(list: seq<Entry>, own: set<string>, desired: seq<string>) {
    && (forall i :: 0 <= i < |list| ==> !Stale(list[i], own, desired))
    && forall k :: 0 <= k < |desired| ==> HasIp(list, desired[k])
  }

  lemma {:induction false} NothingMissing(list: seq<Entry>, desired: seq<string>, n: nat)
    requires n <= |desired| && forall k :: 0 <= k < n ==> HasIp(list, desired[k])
    ensures WithWanted(list, desired, n) == list
  {
    if n > 0 {
      NothingMissing(list, desired, n - 1);
    }
  }

  /** Correcting changes nothing if and only if the list is already right. */
  lemma UnchangedIff(list: seq<Entry>, own: set<string>, desired: seq<string>)
    ensures Merged(list, own, desired) == list <==> AlreadyRight(list, own, desired)
  {
    if AlreadyRight(list, own, desired) {
      ShorterHadStale(list, own, desired);
      NothingMissing(list, desired, |desired|);
    }
    if Merged(list, own, desired) == list {
      forall i | 0 <= i < |list| ensures !Stale(list[i], own, desired) {
        if Stale(list[i], own, desired) {
          OwnAreWanted(list, own, desired, list[i].ip.value);
          assert HasIp(list, list[i].ip.value);
        }
      }
      forall k | 0 <= k < |desired| ensures HasIp(list, desired[k]) {
        AddedIps(WithoutStale(list, own, desired), desired, |desired|, desired[k]);
        assert desired[..|desired|] == desired;
      }
    }
  }

  lemma FiltersUnchanged(list: seq<Entry>, own: set<string>, desired: seq<string>)
    ensures Merged(list, own, desired) == list <==>
              WithoutStale(list, own, desired) == list && WithWanted(list, desired, |desired|) == list
  {
    ShorterHadStale(list, own, desired);
    if WithoutStale(list, own, desired) != list {
      var i :| 0 <= i < |list| && Stale(list[i], own, desired);
      OwnAreWanted(list, own, desired, list[i].ip.value);
      assert HasIp(list, list[i].ip.value);
    }
  }

  /** `merged_ingress`: `None` exactly when the list is already right. */
  method MergedIngress(existing: seq<Entry>, own: set<string>, desired: seq<string>) returns (r: Option<seq<Entry>>)
    ensures r.None? <==> AlreadyRight(existing, own, desired)
    ensures r.Some? ==> r.value == Merged(existing, own, desired)
  {
    var merged: seq<Entry> := [];
    for i := 0 to |existing|
      invariant merged == WithoutStale(existing[..i], own, desired)
    {
      assert existing[..i + 1][..i] == existing[..i];
      if !Stale(existing[i], own, desired) {
        merged := merged + [existing[i]];
      }
    }
    assert existing[..|existing|] == existing;
    ghost var base := merged;
    ShorterHadStale(existing, own, desired);
    var changed := |merged| != |existing|;
    for i := 0 to |desired|
      invariant merged == WithWanted(base, desired, i)
      invariant changed <==> base != existing || merged != base
    {
      AddingGrows(base, desired, i);
      if !HasIp(merged, desired[i]) {
        merged := merged + [Entry(Some(desired[i]), "")];
        changed := true;
      }
    }
    FiltersUnchanged(existing, own, desired);
    UnchangedIff(existing, own, desired);
    r := if changed then Some(merged) else None;
  }
}
