/**
 * The Kubernetes-facing controller: reading a job's annotations, summing node capacities,
 * gang grouping, and computing and ordering the priority of every pending job.
 *
 * Listing jobs and nodes is done by the caller; its results are parameters here.
 */
module Controller {

  import opened Wrappers
  import opened Scheduler
  import Ordering

  // ----- annotations -----

  function LowerChar(c: char): char {
    if 'A' <= c <= 'Z' then (c as int + 32) as char else c
  }

  /** Lower-casing of ASCII letters; other characters are kept. */
  function Lower(s: string): (r: string)
    ensures |r| == |s|
    ensures forall i :: 0 <= i < |s| ==> r[i] == LowerChar(s[i])
  {
    if s == [] then [] else [LowerChar(s[0])] + Lower(s[1..])
  }

  /** A job is urgent iff its `priority` annotation is exactly `approved`. */
  function PriorityOf(annotations: map<string, string>): JobPriority {
    if "priority" in annotations && annotations["priority"] == "approved" then Urgent else Normal
  }

  /** `true` in any mixture of letter cases. */
  predicate TrueInAnyCase(v: string) {
    |v| == 4 && forall i :: 0 <= i < 4 ==> v[i] == "true"[i] || v[i] == "TRUE"[i]
  }

  /** The gang flag: the `gang-scheduling` annotation, lower-cased, defaulting to `false`, equals `true`. */
  function GangFlagOf(annotations: map<string, string>): bool {
    var value := if "gang-scheduling" in annotations then annotations["gang-scheduling"] else "false";
    Lower(value) == "true"
  }

  /** The gang flag is set iff the annotation is present and reads `true` in any letter case. */
  lemma GangFlagOfAnyCase(annotations: map<string, string>)
    ensures GangFlagOf(annotations) <==>
      "gang-scheduling" in annotations && TrueInAnyCase(annotations["gang-scheduling"])
  {
    if "gang-scheduling" in annotations {
      var v := annotations["gang-scheduling"];
      var lv := Lower(v);
      if lv == "true" {
        forall i | 0 <= i < 4 ensures v[i] == "true"[i] || v[i] == "TRUE"[i] {
          assert LowerChar(v[i]) == "true"[i];
        }
      }
      if TrueInAnyCase(v) {
        assert lv == "true";
      }
    } else {
      assert Lower("false")[0] == 'f';
    }
  }

  function GangIdOf(annotations: map<string, string>): Option<string> {
    if "gang-id" in annotations then Some(annotations["gang-id"]) else None
  }

  /**
   * The job record built from a Kubernetes job's metadata: urgent iff the `priority` annotation is
   * `approved`, in a gang iff `gang-scheduling` reads `true` in any letter case, the gang id passed
   * through. A job without annotations has the empty map here. The resource requests are taken as
   * already read from the first container.
   */
  function ExtractJobInfo(name: string, namespace: string, creationTimestamp: real,
                          annotations: map<string, string>, resources: Requests): (job: JobInfo)
    ensures job.priority == Urgent <==> "priority" in annotations && annotations["priority"] == "approved"
    ensures job.gangScheduling <==>
      "gang-scheduling" in annotations && TrueInAnyCase(annotations["gang-scheduling"])
    ensures job.gangId.Some? <==> "gang-id" in annotations
    ensures job.gangId.Some? ==> job.gangId.value == annotations["gang-id"]
    ensures job.name == name && job.namespace == namespace
    ensures job.creationTimestamp == creationTimestamp && job.resources == resources
  {
    GangFlagOfAnyCase(annotations);
    JobInfo(name, namespace, PriorityOf(annotations), creationTimestamp, resources,
            GangFlagOf(annotations), GangIdOf(annotations))
  }

  // ----- cluster capacity -----

  /** A node's capacity and allocatable amounts, already parsed; a type the node lacks is absent. */
  datatype NodeResources = NodeResources(capacity: Capacity, allocatable: Capacity)

  function Amount(c: Capacity, r: ResourceType): real {
    if r in c then c[r] else 0.0
  }

  function TotalCapacity(nodes: seq<NodeResources>, r: ResourceType): real {
    if nodes == [] then 0.0
    else TotalCapacity(nodes[..|nodes| - 1], r) + Amount(nodes[|nodes| - 1].capacity, r)
  }

  function TotalAllocatable(nodes: seq<NodeResources>, r: ResourceType): real {
    if nodes == [] then 0.0
    else TotalAllocatable(nodes[..|nodes| - 1], r) + Amount(nodes[|nodes| - 1].allocatable, r)
  }

  function AllTypes(): set<ResourceType> { {Cpu, Memory, Gpu} }

  /**
   * Sums capacity and allocatable amounts over the listed nodes, per resource type, starting
   * every type at 0.0. A failed node listing (`None`) gives no cluster information.
   */
  method GetClusterInfo(listing: Option<seq<NodeResources>>) returns (info: Option<ClusterInfo>)
    ensures listing.None? <==> info.None?
    ensures listing.Some? ==>
      && info.value.totalResources.Keys == AllTypes()
      && info.value.allocatedResources.Keys == AllTypes()
      && (forall r :: r in info.value.totalResources ==> info.value.totalResources[r] == TotalCapacity(listing.value, r))
      && (forall r :: r in info.value.allocatedResources ==> info.value.allocatedResources[r] == TotalAllocatable(listing.value, r))
  {
    if listing.None? {
      return None;
    }
    var nodes := listing.value;
    var totalResources: Capacity := map[Cpu := 0.0, Memory := 0.0, Gpu := 0.0];
    var allocatedResources: Capacity := map[Cpu := 0.0, Memory := 0.0, Gpu := 0.0];
    for i := 0 to |nodes|
      invariant totalResources.Keys == AllTypes() && allocatedResources.Keys == AllTypes()
      invariant forall r :: r in totalResources ==> totalResources[r] == TotalCapacity(nodes[..i], r)
      invariant forall r :: r in allocatedResources ==> allocatedResources[r] == TotalAllocatable(nodes[..i], r)
    {
      assert nodes[..i + 1][..i] == nodes[..i];
      totalResources := Accumulate(totalResources, nodes[i].capacity);
      allocatedResources := Accumulate(allocatedResources, nodes[i].allocatable);
    }
    assert nodes[..|nodes|] == nodes;
    info := Some(ClusterInfo(totalResources, allocatedResources));
  }

  /** Adds one node's amounts into the running per-type sums. */
  method Accumulate(sums: Capacity, amounts: Capacity) returns (sums': Capacity)
    requires sums.Keys == AllTypes()
    ensures sums'.Keys == AllTypes()
    ensures forall r :: r in sums' ==> sums'[r] == sums[r] + Amount(amounts, r)
  {
    sums' := sums;
    if Cpu in amounts { sums' := sums'[Cpu := sums'[Cpu] + amounts[Cpu]]; }
    if Memory in amounts { sums' := sums'[Memory := sums'[Memory] + amounts[Memory]]; }
    if Gpu in amounts { sums' := sums'[Gpu := sums'[Gpu] + amounts[Gpu]]; }
  }

  /** Summing over two node lists one after the other adds their totals. */
  lemma {:induction false} TotalCapacityAppend(a: seq<NodeResources>, b: seq<NodeResources>, r: ResourceType)
    ensures TotalCapacity(a + b, r) == TotalCapacity(a, r) + TotalCapacity(b, r)
  {
    if b != [] {
      var b' := b[..|b| - 1];
      TotalCapacityAppend(a, b', r);
      assert (a + b)[..|a + b| - 1] == a + b';
      assert (a + b)[|a + b| - 1] == b[|b| - 1];
    } else {
      assert a + b == a;
    }
  }

  /** With non-negative node capacities the cluster total is non-negative, and at least any one node's. */
  lemma {:induction false} TotalCapacityBounds(nodes: seq<NodeResources>, r: ResourceType)
    requires forall k :: 0 <= k < |nodes| ==> 0.0 <= Amount(nodes[k].capacity, r)
    ensures 0.0 <= TotalCapacity(nodes, r)
    ensures forall k :: 0 <= k < |nodes| ==> Amount(nodes[k].capacity, r) <= TotalCapacity(nodes, r)
  {
    if nodes != [] {
      var init := nodes[..|nodes| - 1];
      assert forall k :: 0 <= k < |init| ==> init[k] == nodes[k];
      TotalCapacityBounds(init, r);
    }
  }

  // ----- gang scheduling -----

  /** A job takes part in a gang: it is flagged and carries a non-empty gang id. */
  predicate InGang(job: JobInfo) {
    job.gangScheduling && job.gangId.Some? && job.gangId.value != ""
  }

  /** The ids of the gangs, in order of first appearance. */
  function GangIds(jobs: seq<JobInfo>): seq<string> {
    if jobs == [] then []
    else
      var ids := GangIds(jobs[..|jobs| - 1]);
      var job := jobs[|jobs| - 1];
      if InGang(job) && job.gangId.value !in ids then ids + [job.gangId.value] else ids
  }

  /** The members of gang `g`, in input order. */
  function Members(jobs: seq<JobInfo>, g: string): seq<JobInfo> {
    if jobs == [] then []
    else
      var job := jobs[|jobs| - 1];
      Members(jobs[..|jobs| - 1], g) + (if InGang(job) && job.gangId.value == g then [job] else [])
  }

  /** The members of the gangs `ids`, gang after gang. */
  function Groups(jobs: seq<JobInfo>, ids: seq<string>): seq<JobInfo> {
    if ids == [] then []
    else Groups(jobs, ids[..|ids| - 1]) + Members(jobs, ids[|ids| - 1])
  }

  /** The jobs not flagged for gang scheduling, in input order. */
  function NonGangJobs(jobs: seq<JobInfo>): seq<JobInfo> {
    if jobs == [] then []
    else
      var job := jobs[|jobs| - 1];
      NonGangJobs(jobs[..|jobs| - 1]) + (if !job.gangScheduling then [job] else [])
  }

  /** Flagged jobs without a usable gang id: they are in neither part of the result. */
  function Dropped(jobs: seq<JobInfo>): seq<JobInfo> {
    if jobs == [] then []
    else
      var job := jobs[|jobs| - 1];
      Dropped(jobs[..|jobs| - 1]) + (if job.gangScheduling && !InGang(job) then [job] else [])
  }

  function GangJobs(jobs: seq<JobInfo>): seq<JobInfo> {
    if jobs == [] then []
    else
      var job := jobs[|jobs| - 1];
      GangJobs(jobs[..|jobs| - 1]) + (if InGang(job) then [job] else [])
  }

  /** The order gang handling produces: the gangs in first-appearance order, then the non-gang jobs. */
  function GangOrder(jobs: seq<JobInfo>): seq<JobInfo> {
    Groups(jobs, GangIds(jobs)) + NonGangJobs(jobs)
  }

  /**
   * Groups gang jobs by id in a dictionary (`groups`, with `order` its key order), then lists the
   * groups followed by the non-gang jobs. The readiness test on each group accepts every group.
   */
  method HandleGangScheduling(jobs: seq<JobInfo>) returns (result: seq<JobInfo>)
    ensures result == GangOrder(jobs)
  {
    var gangGroups: map<string, seq<JobInfo>> := map[];
    var order: seq<string> := [];
    for i := 0 to |jobs|
      invariant order == GangIds(jobs[..i])
      invariant forall g :: g in gangGroups <==> g in order
      invariant forall g :: g in gangGroups ==> gangGroups[g] == Members(jobs[..i], g)
    {
      assert jobs[..i + 1][..i] == jobs[..i];
      var job := jobs[i];
      if job.gangScheduling && job.gangId.Some? && job.gangId.value != "" {
        var g := job.gangId.value;
        if g !in gangGroups {
          gangGroups := gangGroups[g := []];
          order := order + [g];
          MembersOfAbsent(jobs[..i], g);
        }
        gangGroups := gangGroups[g := gangGroups[g] + [job]];
      }
    }
    assert jobs[..|jobs|] == jobs;
    var readyGangs: seq<JobInfo> := [];
    for k := 0 to |order|
      invariant readyGangs == Groups(jobs, order[..k])
    {
      assert order[..k + 1][..k] == order[..k];
      readyGangs := readyGangs + gangGroups[order[k]];
    }
    assert order[..|order|] == order;
    var nonGangJobs := NonGangJobs(jobs);
    result := readyGangs + nonGangJobs;
  }

  /** A gang id that does not occur yet has no members yet. */
  lemma {:induction false} MembersOfAbsent(jobs: seq<JobInfo>, g: string)
    requires g !in GangIds(jobs)
    ensures Members(jobs, g) == []
  {
    if jobs != [] {
      GangIdsGrow(jobs[..|jobs| - 1], jobs[|jobs| - 1]);
      MembersOfAbsent(jobs[..|jobs| - 1], g);
    }
  }

  lemma GangIdsGrow(jobs: seq<JobInfo>, job: JobInfo)
    ensures jobs + [job] != [] && (jobs + [job])[..|jobs|] == jobs
    ensures GangIds(jobs) <= GangIds(jobs + [job])
    ensures InGang(job) ==> job.gangId.value in GangIds(jobs + [job])
  {
    assert (jobs + [job])[..|jobs|] == jobs;
  }

  predicate Distinct(ids: seq<string>) {
    forall i, j :: 0 <= i < j < |ids| ==> ids[i] != ids[j]
  }

  /** The gang ids are distinct, and they are exactly the ids of the jobs that take part in a gang. */
  lemma {:induction false} GangIdsExactly(jobs: seq<JobInfo>)
    ensures Distinct(GangIds(jobs))
    ensures forall g :: g in GangIds(jobs) <==>
      exists i :: 0 <= i < |jobs| && InGang(jobs[i]) && jobs[i].gangId.value == g
  {
    if jobs != [] {
      var init, job := jobs[..|jobs| - 1], jobs[|jobs| - 1];
      GangIdsExactly(init);
      assert forall i :: 0 <= i < |init| ==> init[i] == jobs[i];
      forall g ensures g in GangIds(jobs) <==>
        exists i :: 0 <= i < |jobs| && InGang(jobs[i]) && jobs[i].gangId.value == g
      {
        if exists i :: 0 <= i < |jobs| && InGang(jobs[i]) && jobs[i].gangId.value == g {
          var i :| 0 <= i < |jobs| && InGang(jobs[i]) && jobs[i].gangId.value == g;
          if i < |init| {
            assert g in GangIds(init);
          }
        }
      }
    }
  }

  /** First-appearance order: the gang ids seen in any prefix of the jobs come first, in the same order. */
  lemma {:induction false} GangIdsFirstAppearance(jobs: seq<JobInfo>, k: nat)
    requires k <= |jobs|
    ensures GangIds(jobs[..k]) <= GangIds(jobs)
    decreases |jobs| - k
  {
    if k < |jobs| {
      GangIdsFirstAppearance(jobs, k + 1);
      GangIdsGrow(jobs[..k], jobs[k]);
      assert jobs[..k] + [jobs[k]] == jobs[..k + 1];
    } else {
      assert jobs[..k] == jobs;
    }
  }

  lemma MembersAreOfGang(jobs: seq<JobInfo>, g: string)
    ensures forall x :: x in Members(jobs, g) ==> InGang(x) && x.gangId.value == g && x in jobs
  {
    if jobs != [] {
      var init := jobs[..|jobs| - 1];
      MembersAreOfGang(init, g);
      assert forall x :: x in init ==> x in jobs;
    }
  }

  /** Selecting the members of a gang distributes over concatenation. */
  lemma {:induction false} MembersAppend(a: seq<JobInfo>, b: seq<JobInfo>, g: string)
    ensures Members(a + b, g) == Members(a, g) + Members(b, g)
  {
    if b == [] {
      assert a + b == a;
    } else {
      var b' := b[..|b| - 1];
      MembersAppend(a, b', g);
      assert (a + b)[..|a + b| - 1] == a + b';
      assert (a + b)[|a + b| - 1] == b[|b| - 1];
    }
  }

  lemma {:induction false} MembersOfMembers(jobs: seq<JobInfo>, h: string, g: string)
    ensures Members(Members(jobs, h), g) == if h == g then Members(jobs, g) else []
  {
    if jobs != [] {
      var init, job := jobs[..|jobs| - 1], jobs[|jobs| - 1];
      MembersOfMembers(init, h, g);
      var last := if InGang(job) && job.gangId.value == h then [job] else [];
      MembersAppend(Members(init, h), last, g);
      if last != [] {
        assert last[..0] == [];
      }
    }
  }

  lemma {:induction false} MembersOfNonGang(jobs: seq<JobInfo>, g: string)
    ensures Members(NonGangJobs(jobs), g) == []
  {
    if jobs != [] {
      var init, job := jobs[..|jobs| - 1], jobs[|jobs| - 1];
      MembersOfNonGang(init, g);
      var last := if !job.gangScheduling then [job] else [];
      MembersAppend(NonGangJobs(init), last, g);
      if last != [] {
        assert last[..0] == [];
      }
    }
  }

  lemma {:induction false} MembersOfGroups(jobs: seq<JobInfo>, ids: seq<string>, g: string)
    ensures Members(Groups(jobs, ids), g) == if g in ids then Members(jobs, g) else []
    requires Distinct(ids)
  {
    if ids != [] {
      var init, h := ids[..|ids| - 1], ids[|ids| - 1];
      assert Distinct(init);
      MembersOfGroups(jobs, init, g);
      MembersAppend(Groups(jobs, init), Members(jobs, h), g);
      MembersOfMembers(jobs, h, g);
      assert g in ids <==> g in init || g == h;
      assert h !in init;
    }
  }

  /** Within the output, each gang's members appear exactly as they did in the input, in input order. */
  lemma GangOrderKeepsGangs(jobs: seq<JobInfo>, g: string)
    ensures Members(GangOrder(jobs), g) == Members(jobs, g)
  {
    var ids := GangIds(jobs);
    GangIdsExactly(jobs);
    MembersAppend(Groups(jobs, ids), NonGangJobs(jobs), g);
    MembersOfGroups(jobs, ids, g);
    MembersOfNonGang(jobs, g);
    if g !in ids {
      MembersOfAbsent(jobs, g);
    }
  }

  /** The gang part of the output is in blocks: jobs of one gang are contiguous. */
  lemma {:induction false} GroupsContiguous(jobs: seq<JobInfo>, ids: seq<string>)
    requires Distinct(ids)
    ensures forall k :: 0 <= k < |Groups(jobs, ids)| ==>
      InGang(Groups(jobs, ids)[k]) && Groups(jobs, ids)[k].gangId.value in ids
    ensures forall i, j, k ::
      (0 <= i < j < k < |Groups(jobs, ids)| && Groups(jobs, ids)[i].gangId == Groups(jobs, ids)[k].gangId) ==>
      Groups(jobs, ids)[j].gangId == Groups(jobs, ids)[i].gangId
  {
    if ids != [] {
      var init, h := ids[..|ids| - 1], ids[|ids| - 1];
      assert Distinct(init);
      assert h !in init;
      GroupsContiguous(jobs, init);
      MembersAreOfGang(jobs, h);
      var front, block := Groups(jobs, init), Members(jobs, h);
      var all := front + block;
      assert all == Groups(jobs, ids);
      forall k | 0 <= k < |all| ensures InGang(all[k]) && all[k].gangId.value in ids {
        if k >= |front| {
          assert all[k] == block[k - |front|];
        } else {
          assert all[k] == front[k];
        }
      }
      forall i, j, k | 0 <= i < j < k < |all| && all[i].gangId == all[k].gangId
        ensures all[j].gangId == all[i].gangId
      {
        if k < |front| {
          assert all[i] == front[i] && all[j] == front[j] && all[k] == front[k];
        } else if i >= |front| {
          assert all[i] == block[i - |front|] && all[j] == block[j - |front|];
        } else {
          assert false;
        }
      }
    }
  }

  lemma {:induction false} GroupsOfNoJobs(ids: seq<string>)
    ensures Groups([], ids) == []
  {
    if ids != [] {
      GroupsOfNoJobs(ids[..|ids| - 1]);
    }
  }

  lemma {:induction false} GroupsAddJob(jobs: seq<JobInfo>, job: JobInfo, ids: seq<string>)
    requires Distinct(ids)
    ensures multiset(Groups(jobs + [job], ids)) == multiset(Groups(jobs, ids)) +
      (if InGang(job) && job.gangId.value in ids then multiset{job} else multiset{})
  {
    if ids != [] {
      var init, h := ids[..|ids| - 1], ids[|ids| - 1];
      assert Distinct(init);
      assert h !in init;
      GroupsAddJob(jobs, job, init);
      assert (jobs + [job])[..|jobs|] == jobs;
      assert InGang(job) ==> (job.gangId.value in ids <==> job.gangId.value in init || job.gangId.value == h);
    }
  }

  lemma {:induction false} GroupsCollectGangJobs(jobs: seq<JobInfo>, ids: seq<string>)
    requires Distinct(ids)
    requires forall i :: 0 <= i < |jobs| && InGang(jobs[i]) ==> jobs[i].gangId.value in ids
    ensures multiset(Groups(jobs, ids)) == multiset(GangJobs(jobs))
  {
    if jobs == [] {
      GroupsOfNoJobs(ids);
    } else {
      var init, job := jobs[..|jobs| - 1], jobs[|jobs| - 1];
      assert init + [job] == jobs;
      assert forall i :: 0 <= i < |init| ==> init[i] == jobs[i];
      GroupsCollectGangJobs(init, ids);
      GroupsAddJob(init, job, ids);
    }
  }

  lemma {:induction false} SplitPartition(jobs: seq<JobInfo>)
    ensures multiset(GangJobs(jobs)) + multiset(NonGangJobs(jobs)) + multiset(Dropped(jobs)) == multiset(jobs)
  {
    if jobs != [] {
      var init, job := jobs[..|jobs| - 1], jobs[|jobs| - 1];
      SplitPartition(init);
      SplitStep(init, job);
      assert init + [job] == jobs;
    }
  }

  lemma SplitStep(init: seq<JobInfo>, job: JobInfo)
    ensures multiset(GangJobs(init + [job])) + multiset(NonGangJobs(init + [job])) + multiset(Dropped(init + [job]))
         == multiset(GangJobs(init)) + multiset(NonGangJobs(init)) + multiset(Dropped(init)) + multiset{job}
  {
    var jobs := init + [job];
    assert jobs[..|jobs| - 1] == init;
    assert jobs[|jobs| - 1] == job;
  }

  lemma {:induction false} SplitSelects(jobs: seq<JobInfo>)
    ensures forall x :: x in GangJobs(jobs) ==> InGang(x)
    ensures forall x :: x in NonGangJobs(jobs) ==> !x.gangScheduling
    ensures forall x :: x in Dropped(jobs) ==> x.gangScheduling && !InGang(x)
  {
    if jobs != [] {
      SplitSelects(jobs[..|jobs| - 1]);
    }
  }

  /**
   * Gang handling repeats nothing and loses only the dropped jobs: the output and the dropped
   * jobs together are the input, as a multiset.
   */
  lemma GangOrderPermutes(jobs: seq<JobInfo>)
    ensures multiset(GangOrder(jobs)) + multiset(Dropped(jobs)) == multiset(jobs)
  {
    GangIdsExactly(jobs);
    GroupsCollectGangJobs(jobs, GangIds(jobs));
    SplitPartition(jobs);
  }

  /**
   * A job reaches the output iff it is in the input and is either in a gang or not flagged for
   * gang scheduling; the readiness test removes nothing.
   */
  lemma GangOrderMembership(jobs: seq<JobInfo>)
    ensures forall x :: x in GangOrder(jobs) <==> x in jobs && (InGang(x) || !x.gangScheduling)
  {
    var ids := GangIds(jobs);
    GangOrderPermutes(jobs);
    SplitSelects(jobs);
    GangIdsExactly(jobs);
    GroupsContiguous(jobs, ids);
    forall x ensures x in GangOrder(jobs) <==> x in jobs && (InGang(x) || !x.gangScheduling) {
      if x in jobs && (InGang(x) || !x.gangScheduling) {
        assert x in multiset(jobs);
        assert x !in Dropped(jobs);
      }
      if x in GangOrder(jobs) {
        assert x in multiset(GangOrder(jobs));
        assert x in multiset(jobs);
        if x in Groups(jobs, ids) {
          assert InGang(x);
        } else {
          assert x in NonGangJobs(jobs);
        }
      }
    }
  }

  /** The output lists the gang blocks first, then every non-gang job in input order. */
  lemma GangOrderShape(jobs: seq<JobInfo>)
    ensures var gangs := Groups(jobs, GangIds(jobs));
      && GangOrder(jobs) == gangs + NonGangJobs(jobs)
      && (forall k :: 0 <= k < |gangs| ==> InGang(gangs[k]))
      && (forall i, j, k :: (0 <= i < j < k < |gangs| && gangs[i].gangId == gangs[k].gangId) ==>
            gangs[j].gangId == gangs[i].gangId)
  {
    GangIdsExactly(jobs);
    GroupsContiguous(jobs, GangIds(jobs));
  }

  // ----- priority computation -----

  /** Each job paired with its own priority score, in the given order. */
  function Scored(jobs: seq<JobInfo>, total: Capacity, agingAlpha: real, now: real): seq<(JobInfo, real)> {
    if jobs == [] then []
    else
      var job := jobs[|jobs| - 1];
      Scored(jobs[..|jobs| - 1], total, agingAlpha, now) + [(job, PriorityScore(job, total, agingAlpha, now))]
  }

  /**
   * One priority computation over the already-listed pending jobs and cluster information:
   * nothing when there are no pending jobs or no cluster information; otherwise gang handling,
   * a score per job, and a stable sort by ascending score.
   */
  method CalculateJobPriorities(pendingJobs: seq<JobInfo>, clusterInfo: Option<ClusterInfo>, now: real)
    returns (jobPriorities: seq<(JobInfo, real)>)
    ensures pendingJobs == [] || clusterInfo.None? ==> jobPriorities == []
    ensures pendingJobs != [] && clusterInfo.Some? ==>
      jobPriorities == Ordering.SortByScore(Scored(GangOrder(pendingJobs), clusterInfo.value.totalResources, DefaultAgingAlpha, now))
  {
    if pendingJobs == [] {
      return [];
    }
    if clusterInfo.None? {
      return [];
    }
    var cluster := clusterInfo.value;
    var schedulableJobs := HandleGangScheduling(pendingJobs);
    jobPriorities := ScoreJobs(schedulableJobs, cluster, DefaultAgingAlpha, now);
    jobPriorities := Ordering.SortByScore(jobPriorities);
  }

  /** The scoring loop: appends each job with its score, in order. */
  method ScoreJobs(jobs: seq<JobInfo>, cluster: ClusterInfo, agingAlpha: real, now: real)
    returns (jobPriorities: seq<(JobInfo, real)>)
    ensures jobPriorities == Scored(jobs, cluster.totalResources, agingAlpha, now)
  {
    jobPriorities := [];
    for i := 0 to |jobs|
      invariant jobPriorities == Scored(jobs[..i], cluster.totalResources, agingAlpha, now)
    {
      assert jobs[..i + 1][..i] == jobs[..i];
      var job := jobs[i];
      var priorityScore := CalculatePriorityScore(job, cluster, agingAlpha, now);
      jobPriorities := jobPriorities + [(job, priorityScore)];
    }
    assert jobs[..|jobs|] == jobs;
  }

  /** A pair occurs in the scored list as often as its job occurs in the jobs, and only with the job's own score. */
  lemma {:induction false} ScoredCounts(jobs: seq<JobInfo>, total: Capacity, agingAlpha: real, now: real, job: JobInfo, score: real)
    ensures multiset(Scored(jobs, total, agingAlpha, now))[(job, score)] ==
      if score == PriorityScore(job, total, agingAlpha, now) then multiset(jobs)[job] else 0
  {
    if jobs != [] {
      var init := jobs[..|jobs| - 1];
      ScoredCounts(init, total, agingAlpha, now, job, score);
      assert jobs == init + [jobs[|jobs| - 1]];
    }
  }

  lemma {:induction false} ScoredLength(jobs: seq<JobInfo>, total: Capacity, agingAlpha: real, now: real)
    ensures |Scored(jobs, total, agingAlpha, now)| == |jobs|
  {
    if jobs != [] {
      ScoredLength(jobs[..|jobs| - 1], total, agingAlpha, now);
    }
  }

  /**
   * The computed priorities list every job that gang handling keeps, each as often as it is kept and
   * each with its own score (gang members are not given a shared score), in ascending score order,
   * with jobs of equal score in gang-handling order.
   */
  lemma JobPrioritiesOrdered(pendingJobs: seq<JobInfo>, total: Capacity, agingAlpha: real, now: real)
    ensures var scored := Scored(GangOrder(pendingJobs), total, agingAlpha, now);
      var result := Ordering.SortByScore(scored);
      && Ordering.SortedByScore(result)
      && |result| == |GangOrder(pendingJobs)|
      && (forall job, score :: multiset(result)[(job, score)] ==
            if score == PriorityScore(job, total, agingAlpha, now) then multiset(GangOrder(pendingJobs))[job] else 0)
      && (forall v :: Ordering.WithScore(result, v) == Ordering.WithScore(scored, v))
  {
    var scored := Scored(GangOrder(pendingJobs), total, agingAlpha, now);
    Ordering.SortByScoreSorted(scored);
    ScoredLength(GangOrder(pendingJobs), total, agingAlpha, now);
    assert |multiset(Ordering.SortByScore(scored))| == |multiset(scored)|;
    forall job, score ensures multiset(Ordering.SortByScore(scored))[(job, score)] ==
      if score == PriorityScore(job, total, agingAlpha, now) then multiset(GangOrder(pendingJobs))[job] else 0
    {
      ScoredCounts(GangOrder(pendingJobs), total, agingAlpha, now, job, score);
    }
  }
}
