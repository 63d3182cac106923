/** Which test-framework releases the dependency updater tries for a minimum Home Assistant version. */
module Candidates {
  import opened Wrappers

  /** A release with its upload day, counted so that later days are larger. */
  datatype Release = Release(version: string, day: int)

  /** The Home Assistant feature line, year and month, a version is pinned to. */
  type Feature = string -> (int, int)

  datatype NoRelease = NoRelease

  function FeatureAt(rs: seq<Release>, feature: Feature, i: nat): (int, int)
    requires i < |rs|
  {
    feature(rs[i].version)
  }

  /** One past the last of the adjacent releases that share a feature with release i. */
  function RunEnd(rs: seq<Release>, feature: Feature, i: nat): (j: nat)
    requires i < |rs|
    ensures i < j <= |rs|
    ensures forall k :: i <= k < j ==> FeatureAt(rs, feature, k) == FeatureAt(rs, feature, i)
    ensures j < |rs| ==> FeatureAt(rs, feature, j) != FeatureAt(rs, feature, i)
    decreases |rs| - i
  {
    if i + 1 < |rs| && FeatureAt(rs, feature, i + 1) == FeatureAt(rs, feature, i) then RunEnd(rs, feature, i + 1) else i + 1
  }

  function Eligible(rs: seq<Release>, cutoff: int): seq<string> {
    if rs == [] then []
    else
      var n := |rs| - 1;
      Eligible(rs[..n], cutoff) + (if rs[n].day <= cutoff then [rs[n].version] else [])
  }

  /** The first position of a version. */
  function PositionOf(rs: seq<Release>, version: string): (i: nat)
    ensures i <= |rs| && (i < |rs| ==> rs[i].version == version) && forall k :: 0 <= k < i ==> rs[k].version != version
  {
    if rs == [] || rs[0].version == version then 0 else 1 + PositionOf(rs[1..], version)
  }

  /** The last position before j, from i on, of an eligible version; i itself is the fallback. */
  function LastEligibleIn(rs: seq<Release>, eligible: seq<string>, i: nat, j: nat): (p: nat)
    requires i < j <= |rs|
    ensures i <= p < j && (rs[i].version in eligible ==> rs[p].version in eligible)
    ensures forall k :: p < k < j ==> rs[k].version !in eligible
    decreases j - i
  {
    if j == i + 1 || rs[j - 1].version in eligible then j - 1 else LastEligibleIn(rs, eligible, i, j - 1)
  }

  /** The last positions of the next runs from i on, at most n of them. */
  function RunLasts(rs: seq<Release>, feature: Feature, i: nat, n: nat): seq<nat>
    requires i <= |rs|
    decreases n
  {
    if i == |rs| || n == 0 then []
    else [RunEnd(rs, feature, i) - 1] + RunLasts(rs, feature, RunEnd(rs, feature, i), n - 1)
  }

  predicate Inside(positions: seq<nat>, n: nat) {
    forall k :: 0 <= k < |positions| ==> positions[k] < n
  }

  function Versions(rs: seq<Release>, positions: seq<nat>): (r: seq<string>)
    requires Inside(positions, |rs|)
    ensures |r| == |positions| && forall k :: 0 <= k < |r| ==> r[k] == rs[positions[k]].version
  {
    if positions == [] then [] else [rs[positions[0]].version] + Versions(rs, positions[1..])
  }

  /** Where the search starts: at the last of the eligible versions. */
  function Start(rs: seq<Release>, cutoff: int): (i: nat)
    requires Eligible(rs, cutoff) != []
    ensures i < |rs|
  {
    var eligible := Eligible(rs, cutoff);
    EligibleOccurs(rs, cutoff);
    PositionOf(rs, eligible[|eligible| - 1])
  }

  /** The positions of the candidates. */
  function Positions(rs: seq<Release>, cutoff: int, maxAttempts: int, feature: Feature): (r: seq<nat>)
    requires Eligible(rs, cutoff) != []
    ensures r != []
  {
    var start := Start(rs, cutoff);
    var end := RunEnd(rs, feature, start);
    [LastEligibleIn(rs, Eligible(rs, cutoff), start, end)]
    + RunLasts(rs, feature, end, if maxAttempts > 1 then maxAttempts - 1 else 0)
  }

  lemma {:induction false} EligibleOccurs(rs: seq<Release>, cutoff: int)
    ensures forall v :: v in Eligible(rs, cutoff) <==> exists i :: 0 <= i < |rs| && rs[i].version == v && rs[i].day <= cutoff
    ensures Eligible(rs, cutoff) != [] ==> PositionOf(rs, Eligible(rs, cutoff)[|Eligible(rs, cutoff)| - 1]) < |rs|
  {
    hide Eligible;
    EligibleAre(rs, cutoff);
    var eligible := Eligible(rs, cutoff);
    if eligible != [] {
      var last := eligible[|eligible| - 1];
      assert last in eligible;
      var i :| 0 <= i < |rs| && rs[i].version == last && rs[i].day <= cutoff;
      assert PositionOf(rs, last) <= i;
    }
  }

  lemma {:induction false} EligibleAre(rs: seq<Release>, cutoff: int)
    ensures forall v :: v in Eligible(rs, cutoff) <==> exists i :: 0 <= i < |rs| && rs[i].version == v && rs[i].day <= cutoff
  {
    if rs != [] {
      var n := |rs| - 1;
      EligibleAre(rs[..n], cutoff);
      forall v
        ensures v in Eligible(rs, cutoff) <==> exists i :: 0 <= i < |rs| && rs[i].version == v && rs[i].day <= cutoff
      {
        if v in Eligible(rs[..n], cutoff) {
          var i :| 0 <= i < n && rs[..n][i].version == v && rs[..n][i].day <= cutoff;
          assert rs[i].version == v;
        }
        if exists i :: 0 <= i < |rs| && rs[i].version == v && rs[i].day <= cutoff {
          var i :| 0 <= i < |rs| && rs[i].version == v && rs[i].day <= cutoff;
          if i < n {
            assert rs[..n][i].version == v;
          }
        }
      }
    }
  }

  // The loop

  method EligibleVersions(rs: seq<Release>, cutoff: int) returns (eligible: seq<string>)
    ensures eligible == Eligible(rs, cutoff)
  {
    eligible := [];
    for i := 0 to |rs|
      invariant eligible == Eligible(rs[..i], cutoff)
    {
      assert rs[..i + 1][..i] == rs[..i];
      if rs[i].day <= cutoff {
        eligible := eligible + [rs[i].version];
      }
    }
    assert rs[..|rs|] == rs;
  }

  /** One group of adjacent releases with the same feature. */
  method GroupEnd(rs: seq<Release>, feature: Feature, i: nat) returns (j: nat)
    requires i < |rs|
    ensures j == RunEnd(rs, feature, i)
  {
    j := i + 1;
    while j < |rs| && FeatureAt(rs, feature, j) == FeatureAt(rs, feature, i)
      invariant i < j <= |rs|
      invariant FeatureAt(rs, feature, j - 1) == FeatureAt(rs, feature, i)
      invariant RunEnd(rs, feature, i) == RunEnd(rs, feature, j - 1)
    {
      j := j + 1;
    }
  }

  /** The last of the first group's members that is eligible. */
  method LastMember(rs: seq<Release>, eligible: seq<string>, i: nat, j: nat) returns (p: nat)
    requires i < j <= |rs|
    ensures p == LastEligibleIn(rs, eligible, i, j)
  {
    p := j - 1;
    while p > i && rs[p].version !in eligible
      invariant i <= p < j
      invariant LastEligibleIn(rs, eligible, i, j) == LastEligibleIn(rs, eligible, i, p + 1)
    {
      p := p - 1;
    }
  }

  /** min_ha_version_candidates */
  method MinHaVersionCandidates(rs: seq<Release>, cutoff: int, maxAttempts: int, feature: Feature)
    returns (r: Result<seq<string>, NoRelease>)
    ensures r.Err? <==> Eligible(rs, cutoff) == []
    ensures r.Ok? ==> Inside(Positions(rs, cutoff, maxAttempts, feature), |rs|)
    ensures r.Ok? ==> r.value == Versions(rs, Positions(rs, cutoff, maxAttempts, feature))
  {
    var eligible := EligibleVersions(rs, cutoff);
    if eligible == [] {
      return Err(NoRelease);
    }
    var start := Start(rs, cutoff);
    var i := GroupEnd(rs, feature, start);
    var first := LastMember(rs, eligible, start, i);
    var later := LaterGroups(rs, feature, i, if maxAttempts > 1 then maxAttempts - 1 else 0);
    r := Ok([rs[first].version] + later);
  }

  /** The passes over the groups after the first. */
  method LaterGroups(rs: seq<Release>, feature: Feature, from: nat, limit: nat) returns (versions: seq<string>)
    requires from <= |rs|
    ensures Inside(RunLasts(rs, feature, from, limit), |rs|)
    ensures versions == Versions(rs, RunLasts(rs, feature, from, limit))
  {
    hide RunLasts, Versions, RunEnd;
    versions := [];
    var i: nat, attempts: nat := from, 0;
    ghost var positions: seq<nat> := [];
    while i < |rs| && attempts < limit
      invariant i <= |rs| && attempts == |positions| <= limit
      invariant Chosen(rs, positions, versions)
      invariant RunLasts(rs, feature, from, limit) == positions + RunLasts(rs, feature, i, limit - attempts)
      decreases limit - attempts
    {
      var j := GroupEnd(rs, feature, i);
      ChosenMore(rs, positions, versions, j - 1);
      NextLast(rs, feature, i, limit - attempts, positions);
      versions := versions + [rs[j - 1].version];
      positions := positions + [j - 1];
      i, attempts := j, attempts + 1;
    }
    NoMoreLasts(rs, feature, i, limit - attempts, positions);
  }

  lemma {:induction false} NoMoreLasts(rs: seq<Release>, feature: Feature, i: nat, n: nat, positions: seq<nat>)
    requires i <= |rs| && (i == |rs| || n == 0)
    ensures positions + RunLasts(rs, feature, i, n) == positions
  {
  }

  predicate Chosen(rs: seq<Release>, positions: seq<nat>, versions: seq<string>) {
    Inside(positions, |rs|) && versions == Versions(rs, positions)
  }

  lemma {:induction false} ChosenMore(rs: seq<Release>, positions: seq<nat>, versions: seq<string>, p: nat)
    requires p < |rs| && Chosen(rs, positions, versions)
    ensures Chosen(rs, positions + [p], versions + [rs[p].version])
  {
  }

  lemma NextLast(rs: seq<Release>, feature: Feature, i: nat, n: nat, positions: seq<nat>)
    requires i < |rs| && n >= 1
    ensures var j := RunEnd(rs, feature, i);
            positions + RunLasts(rs, feature, i, n) == positions + [j - 1] + RunLasts(rs, feature, j, n - 1)
  {
  }

  lemma {:induction false} RunLastsInside(rs: seq<Release>, feature: Feature, i: nat, n: nat)
    requires i <= |rs|
    ensures forall k :: 0 <= k < |RunLasts(rs, feature, i, n)| ==> i <= RunLasts(rs, feature, i, n)[k] < |rs|
    decreases n
  {
    if i < |rs| && n > 0 {
      RunLastsInside(rs, feature, RunEnd(rs, feature, i), n - 1);
    }
  }

  // What is chosen

  predicate SortedByDay(rs: seq<Release>) {
    forall i, j :: 0 <= i < j < |rs| ==> rs[i].day <= rs[j].day
  }

  predicate DistinctVersions(rs: seq<Release>) {
    forall i, j :: 0 <= i < j < |rs| ==> rs[i].version != rs[j].version
  }

  /** Release p is the last one on or before the cutoff. */
  predicate LastByCutoff(rs: seq<Release>, cutoff: int, p: nat) {
    p < |rs| && rs[p].day <= cutoff && forall k :: p < k < |rs| ==> rs[k].day > cutoff
  }

  /** Release p is the last of its run of adjacent releases with the same feature. */
  predicate LastOfRun(rs: seq<Release>, feature: Feature, p: nat) {
    p < |rs| && (p + 1 < |rs| ==> FeatureAt(rs, feature, p + 1) != FeatureAt(rs, feature, p))
  }

  lemma {:induction false} LastEligible(rs: seq<Release>, cutoff: int) returns (p: nat)
    requires SortedByDay(rs) && Eligible(rs, cutoff) != []
    ensures LastByCutoff(rs, cutoff, p) && rs[p].version == Eligible(rs, cutoff)[|Eligible(rs, cutoff)| - 1]
  {
    var n := |rs| - 1;
    if rs[n].day <= cutoff {
      p := n;
    } else {
      p := LastEligible(rs[..n], cutoff);
      assert rs[..n][p] == rs[p];
      forall k | p < k < |rs|
        ensures rs[k].day > cutoff
      {
        assert k < n ==> rs[..n][k].day > cutoff;
      }
    }
  }

  lemma {:induction false} StartIsLast(rs: seq<Release>, cutoff: int)
    requires SortedByDay(rs) && DistinctVersions(rs) && Eligible(rs, cutoff) != []
    ensures LastByCutoff(rs, cutoff, Start(rs, cutoff))
  {
    var p := LastEligible(rs, cutoff);
    var q := Start(rs, cutoff);
    assert rs[q].version == rs[p].version;
  }

  lemma {:induction false} EligibleByCutoff(rs: seq<Release>, cutoff: int, q: nat)
    requires DistinctVersions(rs) && q < |rs| && rs[q].version in Eligible(rs, cutoff)
    ensures rs[q].day <= cutoff
  {
    EligibleOccurs(rs, cutoff);
    var i :| 0 <= i < |rs| && rs[i].version == rs[q].version && rs[i].day <= cutoff;
    assert i == q;
  }

  lemma {:induction false} StartEligible(rs: seq<Release>, cutoff: int)
    requires Eligible(rs, cutoff) != []
    ensures rs[Start(rs, cutoff)].version in Eligible(rs, cutoff)
  {
    EligibleOccurs(rs, cutoff);
  }

  /** The first candidate is the last release on or before the cutoff; restricting the first group to eligible versions
      changes nothing about that. */
  lemma {:induction false} FirstCandidate(rs: seq<Release>, cutoff: int, maxAttempts: int, feature: Feature)
    requires SortedByDay(rs) && DistinctVersions(rs) && Eligible(rs, cutoff) != []
    ensures Positions(rs, cutoff, maxAttempts, feature)[0] == Start(rs, cutoff)
    ensures LastByCutoff(rs, cutoff, Positions(rs, cutoff, maxAttempts, feature)[0])
  {
    var start := Start(rs, cutoff);
    StartIsLast(rs, cutoff);
    StartEligible(rs, cutoff);
    var q := LastEligibleIn(rs, Eligible(rs, cutoff), start, RunEnd(rs, feature, start));
    EligibleByCutoff(rs, cutoff, q);
  }

  lemma {:induction false} SameInRun(rs: seq<Release>, feature: Feature, i: nat, p: nat)
    requires i <= p < |rs| && i < |rs|
    ensures p + 1 < RunEnd(rs, feature, i) ==> FeatureAt(rs, feature, p + 1) == FeatureAt(rs, feature, p)
  {
  }

  /** What the later candidates are: exactly the last releases of the runs that follow, in order, up to the limit. */
  lemma {:induction false} LaterCandidates(rs: seq<Release>, feature: Feature, i: nat, n: nat)
    requires i <= |rs|
    ensures var lasts := RunLasts(rs, feature, i, n);
            && |lasts| <= n
            && (forall k :: 0 <= k < |lasts| ==> i <= lasts[k] && LastOfRun(rs, feature, lasts[k]))
            && (forall k, l :: 0 <= k < l < |lasts| ==> lasts[k] < lasts[l])
            && (forall p :: i <= p < |rs| && LastOfRun(rs, feature, p) && p !in lasts ==>
                  |lasts| == n && forall k :: 0 <= k < n ==> lasts[k] < p)
    decreases n
  {
    if i < |rs| && n > 0 {
      var j := RunEnd(rs, feature, i);
      LaterCandidates(rs, feature, j, n - 1);
      assert LastOfRun(rs, feature, j - 1);
      forall p | i <= p < |rs| && LastOfRun(rs, feature, p) && p !in RunLasts(rs, feature, i, n)
        ensures p >= j
      {
        SameInRun(rs, feature, i, p);
      }
    }
  }

  /** The number of runs from position i on. */
  function Runs(rs: seq<Release>, feature: Feature, i: nat): nat
    requires i <= |rs|
    decreases |rs| - i
  {
    if i == |rs| then 0 else 1 + Runs(rs, feature, RunEnd(rs, feature, i))
  }

  lemma {:induction false} LastsCount(rs: seq<Release>, feature: Feature, i: nat, n: nat)
    requires i <= |rs|
    ensures |RunLasts(rs, feature, i, n)| == if Runs(rs, feature, i) < n then Runs(rs, feature, i) else n
    decreases n
  {
    if i < |rs| && n > 0 {
      LastsCount(rs, feature, RunEnd(rs, feature, i), n - 1);
    }
  }

  /** The candidates as a whole: from the last release by the cutoff on, strictly forward, one for each run, until the
      runs or the attempts are used up. */
  lemma {:induction false} CandidatesAre(rs: seq<Release>, cutoff: int, maxAttempts: int, feature: Feature)
    requires SortedByDay(rs) && DistinctVersions(rs) && Eligible(rs, cutoff) != [] && maxAttempts >= 1
    ensures var ps := Positions(rs, cutoff, maxAttempts, feature);
            && LastByCutoff(rs, cutoff, ps[0])
            && (forall k :: 1 <= k < |ps| ==> LastOfRun(rs, feature, ps[k]))
            && (forall k, l :: 0 <= k < l < |ps| ==> ps[k] < ps[l])
            && |ps| == (if Runs(rs, feature, ps[0]) < maxAttempts then Runs(rs, feature, ps[0]) else maxAttempts)
  {
    hide LastOfRun;
    FirstCandidate(rs, cutoff, maxAttempts, feature);
    var end := RunEnd(rs, feature, Start(rs, cutoff));
    LaterCandidates(rs, feature, end, maxAttempts - 1);
    LastsCount(rs, feature, end, maxAttempts - 1);
  }
}
