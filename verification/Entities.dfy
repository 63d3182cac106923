/** Entity discovery: which ids each payload brings for the first time. */
module Entities {
  import opened Wrappers

  /** The ids a payload's items have; None is an item without one. */
  type Items = seq<Option<int>>

  /** The set of ids seen after the items. */
  function SeenAfter(items: Items, seen: set<int>): set<int> {
    if items == [] then seen
    else
      var before, last := SeenAfter(items[..|items| - 1], seen), items[|items| - 1];
      if last.None? then before else before + {last.value}
  }

  /** The ids that are new, in order of first appearance. */
  function NewIds(items: Items, seen: set<int>): seq<int> {
    if items == [] then []
    else
      var front, last := items[..|items| - 1], items[|items| - 1];
      var before := NewIds(front, seen);
      if last.None? || last.value in SeenAfter(front, seen) then before else before + [last.value]
  }

  /** discover_new_ids, with the set it adds to as in- and out-parameter. */
  method DiscoverNewIds(items: Items, seenIds: set<int>) returns (newIds: seq<int>, seen: set<int>)
    ensures newIds == NewIds(items, seenIds) && seen == SeenAfter(items, seenIds)
  {
    newIds, seen := [], seenIds;
    for i := 0 to |items|
      invariant newIds == NewIds(items[..i], seenIds) && seen == SeenAfter(items[..i], seenIds)
    {
      assert items[..i + 1][..i] == items[..i];
      if items[i].Some? && items[i].value !in seen {
        seen := seen + {items[i].value};
        newIds := newIds + [items[i].value];
      }
    }
    assert items[..|items|] == items;
  }

  predicate Distinct(ids: seq<int>) {
    forall i, j :: 0 <= i < j < |ids| ==> ids[i] != ids[j]
  }

  /** What one call reports: the ids of the items that had not been seen, each once. */
  lemma {:induction false} ReportsNew(items: Items, seen: set<int>)
    ensures Distinct(NewIds(items, seen))
    ensures forall id :: id in NewIds(items, seen) <==> Some(id) in items && id !in seen
    ensures forall id :: id in SeenAfter(items, seen) <==> Some(id) in items || id in seen
  {
    if items != [] {
      ReportsNew(items[..|items| - 1], seen);
      InFrontOrLast(items);
    }
  }

  /** In order of first appearance: what the first items report comes first, whatever follows them. */
  lemma {:induction false} ReportsInOrder(items: Items, seen: set<int>, k: nat)
    requires k <= |items|
    ensures NewIds(items[..k], seen) <= NewIds(items, seen)
  {
    if k < |items| {
      var front := items[..|items| - 1];
      ReportsInOrder(front, seen, k);
      assert front[..k] == items[..k];
    } else {
      assert items[..k] == items;
    }
  }

  lemma InFrontOrLast(items: Items)
    requires items != []
    ensures forall item :: item in items <==> item in items[..|items| - 1] || item == items[|items| - 1]
  {
    assert items == items[..|items| - 1] + [items[|items| - 1]];
  }

  /** What is reported over a run of payloads. */
  function Reported(payloads: seq<Items>, seen: set<int>): seq<int> {
    if payloads == [] then []
    else NewIds(payloads[0], seen) + Reported(payloads[1..], SeenAfter(payloads[0], seen))
  }

  predicate Occurs(id: int, payloads: seq<Items>) {
    exists k :: 0 <= k < |payloads| && Some(id) in payloads[k]
  }

  lemma OccursSplit(id: int, payloads: seq<Items>)
    requires payloads != []
    ensures Occurs(id, payloads) <==> Some(id) in payloads[0] || Occurs(id, payloads[1..])
  {
    if Occurs(id, payloads[1..]) {
      var k :| 0 <= k < |payloads[1..]| && Some(id) in payloads[1..][k];
      assert Some(id) in payloads[k + 1];
    }
    if Occurs(id, payloads) {
      var k :| 0 <= k < |payloads| && Some(id) in payloads[k];
      assert k > 0 ==> Some(id) in payloads[1..][k - 1];
    }
  }

  lemma DistinctJoined(first: seq<int>, rest: seq<int>, known: set<int>)
    requires Distinct(first) && Distinct(rest)
    requires forall id :: id in first ==> id in known
    requires forall id :: id in rest ==> id !in known
    ensures Distinct(first + rest)
  {
    var all := first + rest;
    forall i, j | 0 <= i < j < |all|
      ensures all[i] != all[j]
    {
      if i < |first| <= j {
        assert first[i] in first;
        assert rest[j - |first|] in rest;
      }
    }
  }

  /** Over every run of payloads: each id that occurs and was not known before is reported exactly once. */
  lemma {:induction false} ReportedOnce(payloads: seq<Items>, seen: set<int>)
    ensures Distinct(Reported(payloads, seen))
    ensures forall id :: id in Reported(payloads, seen) <==> Occurs(id, payloads) && id !in seen
    decreases |payloads|
  {
    if payloads != [] {
      var after := SeenAfter(payloads[0], seen);
      ReportsNew(payloads[0], seen);
      ReportedOnce(payloads[1..], after);
      forall id
        ensures id in Reported(payloads, seen) <==> Occurs(id, payloads) && id !in seen
      {
        OccursSplit(id, payloads);
      }
      DistinctJoined(NewIds(payloads[0], seen), Reported(payloads[1..], after), after);
    }
  }
}
