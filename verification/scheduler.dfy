/**
 * The DRF scheduler of the controller: the dominant share of a job against the
 * cluster's total resources, the aging adjustment, and the priority score.
 *
 * Quantities, shares and scores are exact reals; timestamps are seconds.
 */
module Scheduler {

  datatype ResourceType = Cpu | Gpu | Memory

  datatype JobPriority = Normal | Urgent

  /** A job's resource requests: the items of the request dictionary, in insertion order. */
  type Requests = seq<(ResourceType, real)>

  /** Total (or allocated) quantity per resource type. */
  type Capacity = map<ResourceType, real>

  datatype JobInfo = JobInfo(
    name: string,
    namespace: string,
    priority: JobPriority,
    creationTimestamp: real,
    resources: Requests,
    gangScheduling: bool,
    gangId: Option<string>)

  datatype ClusterInfo = ClusterInfo(totalResources: Capacity, allocatedResources: Capacity)

  import opened Wrappers

  /** The aging constant the scheduler is built with when none is given. */
  const DefaultAgingAlpha: real := 0.1

  /** A resource type takes part in the dominant share iff the cluster knows it with a positive total. */
  predicate Counted(total: Capacity, r: ResourceType) {
    r in total && total[r] > 0.0
  }

  /** The list of per-type shares that the scheduler collects, in request order. */
  function Shares(req: Requests, total: Capacity): seq<real>
  {
    if req == [] then []
    else
      var (r, amount) := req[|req| - 1];
      Shares(req[..|req| - 1], total) + (if Counted(total, r) then [amount / total[r]] else [])
  }

  /** The largest element of a non-empty list (Python's `max`). */
  function MaxOf(xs: seq<real>): real
    requires xs != []
  {
    if |xs| == 1 then xs[0]
    else
      var m := MaxOf(xs[..|xs| - 1]);
      if xs[|xs| - 1] > m then xs[|xs| - 1] else m
  }

  /** The dominant share: the largest per-type share, or 0.0 when no type is counted. */
  function DominantShare(req: Requests, total: Capacity): real
  {
    var shares := Shares(req, total);
    if shares == [] then 0.0 else MaxOf(shares)
  }

  /** Computes the dominant share the way the scheduler does: collect the shares, then take their maximum. */
  method CalculateDominantShare(job: JobInfo, cluster: ClusterInfo) returns (share: real)
    ensures share == DominantShare(job.resources, cluster.totalResources)
  {
    var total := cluster.totalResources;
    var dominantShares: seq<real> := [];
    for i := 0 to |job.resources|
      invariant dominantShares == Shares(job.resources[..i], total)
    {
      var (resourceType, requestedAmount) := job.resources[i];
      assert job.resources[..i + 1][..i] == job.resources[..i];
      if resourceType in total {
        var totalResource := total[resourceType];
        if totalResource > 0.0 {
          dominantShares := dominantShares + [requestedAmount / totalResource];
        }
      }
    }
    assert job.resources[..|job.resources|] == job.resources;
    if dominantShares != [] {
      share := MaxOf(dominantShares);
    } else {
      share := 0.0;
    }
  }

  lemma {:induction false} MaxOfIsMaximum(xs: seq<real>)
    requires xs != []
    ensures MaxOf(xs) in xs
    ensures forall i :: 0 <= i < |xs| ==> xs[i] <= MaxOf(xs)
  {
    if |xs| > 1 {
      MaxOfIsMaximum(xs[..|xs| - 1]);
    }
  }

  /** Every share in the list comes from a counted request, and every counted request contributes its share. */
  lemma {:induction false} SharesExactly(req: Requests, total: Capacity)
    ensures forall x :: x in Shares(req, total) <==>
      exists i :: 0 <= i < |req| && Counted(total, req[i].0) && x == req[i].1 / total[req[i].0]
  {
    if req != [] {
      var init := req[..|req| - 1];
      SharesExactly(init, total);
      forall x
        ensures x in Shares(req, total) <==>
          exists i :: 0 <= i < |req| && Counted(total, req[i].0) && x == req[i].1 / total[req[i].0]
      {
        if x in Shares(init, total) {
          var i :| 0 <= i < |init| && Counted(total, init[i].0) && x == init[i].1 / total[init[i].0];
          assert req[i] == init[i];
        }
        if exists i :: 0 <= i < |req| && Counted(total, req[i].0) && x == req[i].1 / total[req[i].0] {
          var i :| 0 <= i < |req| && Counted(total, req[i].0) && x == req[i].1 / total[req[i].0];
          if i < |init| {
            assert init[i] == req[i];
          }
        }
      }
    }
  }

  /** The dominant share is at least the share of every counted request type. */
  lemma DominantShareIsUpperBound(req: Requests, total: Capacity)
    ensures forall i :: 0 <= i < |req| && Counted(total, req[i].0) ==>
      req[i].1 / total[req[i].0] <= DominantShare(req, total)
  {
    SharesExactly(req, total);
    var shares := Shares(req, total);
    if shares != [] {
      MaxOfIsMaximum(shares);
    }
    forall i | 0 <= i < |req| && Counted(total, req[i].0)
      ensures req[i].1 / total[req[i].0] <= DominantShare(req, total)
    {
      var x := req[i].1 / total[req[i].0];
      assert x in shares;
      var k :| 0 <= k < |shares| && shares[k] == x;
    }
  }

  /** When some request type is counted, the dominant share is the share of one of them. */
  lemma DominantShareIsAttained(req: Requests, total: Capacity)
    requires exists i :: 0 <= i < |req| && Counted(total, req[i].0)
    ensures exists i :: 0 <= i < |req| && Counted(total, req[i].0) && DominantShare(req, total) == req[i].1 / total[req[i].0]
  {
    SharesExactly(req, total);
    var i :| 0 <= i < |req| && Counted(total, req[i].0);
    assert req[i].1 / total[req[i].0] in Shares(req, total);
    MaxOfIsMaximum(Shares(req, total));
  }

  /** Request types missing from the cluster, or with a non-positive total, are ignored; with none left the share is 0.0. */
  lemma DominantShareDefault(req: Requests, total: Capacity)
    requires forall i :: 0 <= i < |req| ==> !Counted(total, req[i].0)
    ensures DominantShare(req, total) == 0.0
  {
    SharesNoneCounted(req, total);
  }

  lemma {:induction false} SharesNoneCounted(req: Requests, total: Capacity)
    requires forall i :: 0 <= i < |req| ==> !Counted(total, req[i].0)
    ensures Shares(req, total) == []
  {
    if req != [] {
      var init := req[..|req| - 1];
      assert forall i :: 0 <= i < |init| ==> init[i] == req[i];
      SharesNoneCounted(init, total);
    }
  }

  /** Adding a request for a type that is not counted leaves the dominant share unchanged. */
  lemma DominantShareIgnoresUncounted(req: Requests, total: Capacity, r: ResourceType, amount: real)
    requires !Counted(total, r)
    ensures DominantShare(req + [(r, amount)], total) == DominantShare(req, total)
  {
    var req' := req + [(r, amount)];
    assert req'[..|req'| - 1] == req;
    assert req'[|req'| - 1] == (r, amount);
    assert Shares(req', total) == Shares(req, total);
  }

  /** With non-negative requests, each within its positive capacity, the dominant share lies in [0, 1]. */
  lemma DominantShareInUnitRange(req: Requests, total: Capacity)
    requires forall i :: 0 <= i < |req| ==> 0.0 <= req[i].1
    requires forall i :: 0 <= i < |req| && Counted(total, req[i].0) ==> req[i].1 <= total[req[i].0]
    ensures 0.0 <= DominantShare(req, total) <= 1.0
  {
    if exists i :: 0 <= i < |req| && Counted(total, req[i].0) {
      DominantShareIsAttained(req, total);
      var i :| 0 <= i < |req| && Counted(total, req[i].0) && DominantShare(req, total) == req[i].1 / total[req[i].0];
      var a, t := req[i].1, total[req[i].0];
      assert 0.0 <= a / t <= 1.0 by {
        assert a / t * t == a;
      }
    } else {
      DominantShareDefault(req, total);
    }
  }

  /** The job of the aging test against the test cluster: the GPU share 1/8 dominates. */
  lemma TestClusterDominantShare()
    ensures DominantShare([(Cpu, 2.0), (Gpu, 1.0), (Memory, 4096.0)],
                          map[Cpu := 32.0, Gpu := 8.0, Memory := 131072.0]) == 0.125
  {
    var req: Requests := [(Cpu, 2.0), (Gpu, 1.0), (Memory, 4096.0)];
    var total: Capacity := map[Cpu := 32.0, Gpu := 8.0, Memory := 131072.0];
    assert req[..2][..1] == [(Cpu, 2.0)];
    assert req[..2] == [(Cpu, 2.0), (Gpu, 1.0)];
    assert |req[..2][..1][..0]| == 0;
    assert Shares(req[..2][..1], total) == [0.0625];
    assert Shares(req[..2], total) == [0.0625, 0.125];
    assert Shares(req, total) == [0.0625, 0.125, 0.03125];
    assert MaxOf([0.0625, 0.125]) == 0.125;
  }

  // ----- aging -----

  /**
   * The aging adjustment: the share minus alpha times the hours waited, clamped at 0.
   * The controller never calls it; the priority score below ages in seconds instead.
   */
  function ApplyAging(dominantShare: real, agingAlpha: real, creationTimestamp: real, now: real): (r: real)
    ensures r >= 0.0
    ensures r >= dominantShare - agingAlpha * ((now - creationTimestamp) / 3600.0)
    ensures r == 0.0 || r == dominantShare - agingAlpha * ((now - creationTimestamp) / 3600.0)
  {
    var timeDiff := (now - creationTimestamp) / 3600.0;
    var agingFactor := agingAlpha * timeDiff;
    if dominantShare - agingFactor > 0.0 then dominantShare - agingFactor else 0.0
  }

  /** With a non-negative constant and a non-negative wait, aging never raises a non-negative share. */
  lemma ApplyAgingBounded(dominantShare: real, agingAlpha: real, creationTimestamp: real, now: real)
    requires 0.0 <= dominantShare && 0.0 <= agingAlpha && creationTimestamp <= now
    ensures 0.0 <= ApplyAging(dominantShare, agingAlpha, creationTimestamp, now) <= dominantShare
  {
    assert 0.0 <= agingAlpha * ((now - creationTimestamp) / 3600.0);
  }

  /** Waiting longer never raises the aged share. */
  lemma ApplyAgingNonIncreasing(dominantShare: real, agingAlpha: real, creationTimestamp: real, now: real, later: real)
    requires 0.0 <= agingAlpha && now <= later
    ensures ApplyAging(dominantShare, agingAlpha, creationTimestamp, later)
         <= ApplyAging(dominantShare, agingAlpha, creationTimestamp, now)
  {
    var d := (later - creationTimestamp) / 3600.0 - (now - creationTimestamp) / 3600.0;
    assert d >= 0.0;
    assert agingAlpha * ((later - creationTimestamp) / 3600.0) == agingAlpha * ((now - creationTimestamp) / 3600.0) + agingAlpha * d;
    assert agingAlpha * d >= 0.0;
  }

  // ----- priority score -----

  /** The weight of a priority class: 0 for urgent jobs, 1000 for all others. */
  function PriorityWeight(p: JobPriority): (w: real)
    ensures w == 0.0 <==> p == Urgent
    ensures w == 1000.0 <==> p != Urgent
  {
    if p == Urgent then 0.0 else 1000.0
  }

  /** The final score: weight plus dominant share minus alpha times the seconds waited. Lower is scheduled sooner. */
  function PriorityScore(job: JobInfo, total: Capacity, agingAlpha: real, now: real): real
  {
    PriorityWeight(job.priority) + DominantShare(job.resources, total) - agingAlpha * (now - job.creationTimestamp)
  }

  method CalculatePriorityScore(job: JobInfo, cluster: ClusterInfo, agingAlpha: real, now: real) returns (finalScore: real)
    ensures finalScore == PriorityScore(job, cluster.totalResources, agingAlpha, now)
  {
    var dominantShare := CalculateDominantShare(job, cluster);
    var timeDiff := now - job.creationTimestamp;
    var agingFactor := agingAlpha * timeDiff;
    var priorityWeight := if job.priority == Urgent then 0.0 else 1000.0;
    finalScore := priorityWeight + dominantShare - agingFactor;
  }

  /** Waiting longer never raises the score; there is no floor, so the score can become negative. */
  lemma PriorityScoreNonIncreasing(job: JobInfo, total: Capacity, agingAlpha: real, now: real, later: real)
    requires 0.0 <= agingAlpha && now <= later
    ensures PriorityScore(job, total, agingAlpha, later) <= PriorityScore(job, total, agingAlpha, now)
  {
    assert agingAlpha * (later - job.creationTimestamp) == agingAlpha * (now - job.creationTimestamp) + agingAlpha * (later - now);
    assert agingAlpha * (later - now) >= 0.0;
  }

  /**
   * Two jobs created at the same time whose requests fit the cluster: the urgent one scores strictly
   * lower (is scheduled sooner) than the normal one, whatever their shares.
   */
  lemma UrgentScoresBelowNormal(urgent: JobInfo, normal: JobInfo, total: Capacity, agingAlpha: real, now: real)
    requires urgent.priority == Urgent && normal.priority == Normal
    requires urgent.creationTimestamp == normal.creationTimestamp
    requires forall i :: 0 <= i < |urgent.resources| ==> 0.0 <= urgent.resources[i].1
    requires forall i :: 0 <= i < |urgent.resources| && Counted(total, urgent.resources[i].0) ==>
      urgent.resources[i].1 <= total[urgent.resources[i].0]
    requires forall i :: 0 <= i < |normal.resources| ==> 0.0 <= normal.resources[i].1
    ensures PriorityScore(urgent, total, agingAlpha, now) < PriorityScore(normal, total, agingAlpha, now)
  {
    DominantShareInUnitRange(urgent.resources, total);
    if exists i :: 0 <= i < |normal.resources| && Counted(total, normal.resources[i].0) {
      DominantShareIsAttained(normal.resources, total);
      var i :| 0 <= i < |normal.resources| && Counted(total, normal.resources[i].0) &&
        DominantShare(normal.resources, total) == normal.resources[i].1 / total[normal.resources[i].0];
    } else {
      DominantShareDefault(normal.resources, total);
    }
    var u, n := DominantShare(urgent.resources, total), DominantShare(normal.resources, total);
    assert 0.0 <= n;
    assert u <= 1.0;
    var aging := agingAlpha * (now - urgent.creationTimestamp);
    assert PriorityScore(urgent, total, agingAlpha, now) == u - aging;
    assert PriorityScore(normal, total, agingAlpha, now) == 1000.0 + n - aging;
  }

  /**
   * A normal job requesting 2 of 10 CPUs, aged 100 hours with alpha 0.1: the aging term is counted
   * per second (36000), not per hour, and is not capped, so the score is far below zero.
   */
  lemma HundredHourNormalJobScore(job: JobInfo)
    requires job.priority == Normal && job.resources == [(Cpu, 2.0)] && job.creationTimestamp == 0.0
    ensures PriorityScore(job, map[Cpu := 10.0], 0.1, 360000.0) == 1000.2 - 36000.0
  {
    assert job.resources[..0] == [];
    assert Shares(job.resources, map[Cpu := 10.0]) == [0.2];
  }
}
