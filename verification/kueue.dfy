/**
 * Write-back of computed priorities to the queueing layer's Workload objects: finding the
 * workload of a job, building the patch, ranking and batching the patches, and listing the
 * workloads that are still pending.
 *
 * The workload listing is a parameter (`None` when the listing call fails), the patch call is
 * the parameter `patch` (true when the call returns, false when it raises), and the rendering
 * of a float score as text is the parameter `showReal`.
 */
module Kueue {

  import opened Wrappers
  import opened Scheduler
  import Ordering

  // ----- workload objects, with the keys the controller reads -----

  datatype Metadata = Metadata(name: Option<string>, namespace: Option<string>)

  datatype Condition = Condition(conditionType: Option<string>, status: Option<string>)

  datatype WorkloadSpec = WorkloadSpec(queueName: Option<string>, priority: Option<int>)

  datatype WorkloadStatus = WorkloadStatus(conditions: Option<seq<Condition>>)

  datatype Workload = Workload(metadata: Option<Metadata>, spec: Option<WorkloadSpec>, status: Option<WorkloadStatus>)

  /** The workload's name, `""` when the metadata or the name is missing. */
  function WorkloadName(w: Workload): string {
    match w.metadata
    case Some(m) => m.name.GetOr("")
    case None => ""
  }

  /** The workload's status conditions, none when the status or its conditions are missing. */
  function Conditions(w: Workload): seq<Condition> {
    match w.status
    case Some(st) => st.conditions.GetOr([])
    case None => []
  }

  // ----- finding the workload of a job -----

  /** Python's `needle in haystack` on strings. */
  function Contains(haystack: string, needle: string): bool {
    if |needle| <= |haystack| && haystack[..|needle|] == needle then true
    else if haystack == [] then false
    else Contains(haystack[1..], needle)
  }

  /** `needle` occurs in `haystack` starting at position `i`. */
  predicate OccursAt(haystack: string, needle: string, i: int) {
    0 <= i && i + |needle| <= |haystack| && haystack[i..i + |needle|] == needle
  }

  /** `needle` occurs in `haystack` iff some slice of `haystack` equals it. */
  lemma {:induction false} ContainsIffSlice(haystack: string, needle: string)
    ensures Contains(haystack, needle) <==> exists i :: OccursAt(haystack, needle, i)
  {
    if |needle| <= |haystack| && haystack[..|needle|] == needle {
      assert OccursAt(haystack, needle, 0);
    } else if haystack == [] {
    } else {
      var tail := haystack[1..];
      ContainsIffSlice(tail, needle);
      if exists i :: OccursAt(haystack, needle, i) {
        var i :| OccursAt(haystack, needle, i);
        assert i != 0;
        assert tail[i - 1..i - 1 + |needle|] == haystack[i..i + |needle|];
        assert OccursAt(tail, needle, i - 1);
      }
      if exists i :: OccursAt(tail, needle, i) {
        var i :| OccursAt(tail, needle, i);
        assert haystack[i + 1..i + 1 + |needle|] == tail[i..i + |needle|];
        assert OccursAt(haystack, needle, i + 1);
      }
    }
  }

  /** The first workload, in list order, whose name contains the job name. */
  function FirstMatch(jobName: string, items: seq<Workload>): Option<Workload> {
    if items == [] then None
    else if Contains(WorkloadName(items[0]), jobName) then Some(items[0])
    else FirstMatch(jobName, items[1..])
  }

  /** `FirstMatch` is `None` iff no name contains the job name, and otherwise the earliest one that does. */
  lemma {:induction false} FirstMatchIsFirst(jobName: string, items: seq<Workload>)
    ensures FirstMatch(jobName, items).None? <==>
      forall k :: 0 <= k < |items| ==> !Contains(WorkloadName(items[k]), jobName)
    ensures FirstMatch(jobName, items).Some? ==>
      exists k :: 0 <= k < |items| && items[k] == FirstMatch(jobName, items).value &&
        Contains(WorkloadName(items[k]), jobName) &&
        forall j :: 0 <= j < k ==> !Contains(WorkloadName(items[j]), jobName)
  {
    if items != [] && !Contains(WorkloadName(items[0]), jobName) {
      var tail := items[1..];
      FirstMatchIsFirst(jobName, tail);
      assert forall k :: 0 < k < |items| ==> items[k] == tail[k - 1];
      if FirstMatch(jobName, tail).Some? {
        var k :| 0 <= k < |tail| && tail[k] == FirstMatch(jobName, tail).value &&
          Contains(WorkloadName(tail[k]), jobName) &&
          forall j :: 0 <= j < k ==> !Contains(WorkloadName(tail[j]), jobName);
        assert items[k + 1] == tail[k];
        forall j | 0 <= j < k + 1 ensures !Contains(WorkloadName(items[j]), jobName) {
          if j > 0 {
            assert items[j] == tail[j - 1];
          }
        }
      }
    } else if items != [] {
      assert items[0] == FirstMatch(jobName, items).value;
    }
  }

  /** Linear search over the listed workloads; a failed listing finds nothing. */
  method GetWorkloadForJob(job: JobInfo, listing: Option<seq<Workload>>) returns (workload: Option<Workload>)
    ensures listing.None? ==> workload == None
    ensures listing.Some? ==> workload == FirstMatch(job.name, listing.value)
  {
    if listing.None? {
      return None;
    }
    var items := listing.value;
    for i := 0 to |items|
      invariant FirstMatch(job.name, items) == FirstMatch(job.name, items[i..])
    {
      assert items[i..][1..] == items[i + 1..];
      var workloadName := WorkloadName(items[i]);
      if Contains(workloadName, job.name) {
        return Some(items[i]);
      }
    }
    return None;
  }

  // ----- the patch body -----

  /** Python's `int(x)` on a float: truncation toward zero. */
  function Truncate(x: real): (n: int)
    ensures 0.0 <= x ==> 0 <= n && n as real <= x < n as real + 1.0
    ensures x < 0.0 ==> n <= 0 && n as real - 1.0 < x <= n as real
  {
    if x >= 0.0 then x.Floor else -((-x).Floor)
  }

  /** Truncation is monotone. */
  lemma TruncateMonotone(x: real, y: real)
    requires x <= y
    ensures Truncate(x) <= Truncate(y)
  {
  }

  function DigitChar(d: nat): char
    requires d < 10
  {
    "0123456789"[d]
  }

  function Decimal(n: nat): string
    decreases n
  {
    if n < 10 then [DigitChar(n)] else Decimal(n / 10) + [DigitChar(n % 10)]
  }

  /** Python's `str` on an integer: decimal digits, with a minus sign when negative. */
  function IntToString(n: int): string {
    if n < 0 then "-" + Decimal(-n) else Decimal(n)
  }

  function DigitValue(c: char): Option<nat> {
    if '0' <= c <= '9' then Some(c as int - '0' as int) else None
  }

  function ParseDecimal(s: string): Option<nat> {
    if s == [] then None
    else
      var d := DigitValue(s[|s| - 1]);
      if d.None? then None
      else if |s| == 1 then d
      else
        var front := ParseDecimal(s[..|s| - 1]);
        if front.None? then None else Some(front.value * 10 + d.value)
  }

  /** Reading an integer back from its text, as a client of the annotation would. */
  function ParseInt(s: string): Option<int> {
    if |s| > 0 && s[0] == '-' then
      var m := ParseDecimal(s[1..]);
      if m.None? then None else Some(0 - m.value as int)
    else
      var m := ParseDecimal(s);
      if m.None? then None else Some(m.value)
  }

  lemma {:induction false} DecimalRoundTrip(n: nat)
    ensures Decimal(n) != [] && Decimal(n)[0] != '-'
    ensures ParseDecimal(Decimal(n)) == Some(n)
    decreases n
  {
    if n >= 10 {
      DecimalRoundTrip(n / 10);
      var s := Decimal(n);
      assert s[..|s| - 1] == Decimal(n / 10);
      assert DigitValue(s[|s| - 1]) == Some(n % 10);
    }
  }

  /** The rank annotation reads back as the rank. */
  lemma IntToStringRoundTrip(n: int)
    ensures ParseInt(IntToString(n)) == Some(n)
  {
    var s := IntToString(n);
    if n < 0 {
      DecimalRoundTrip(-n);
      assert s == "-" + Decimal(-n);
      assert s[0] == '-';
      assert s[1..] == Decimal(-n);
      assert ParseDecimal(s[1..]) == Some(-n);
    } else {
      DecimalRoundTrip(n);
      assert s == Decimal(n);
      assert ParseDecimal(s) == Some(n);
    }
  }

  const ScoreAnnotation: string := "drf-scheduler/priority-score"
  const RankAnnotation: string := "drf-scheduler/rank"
  const UpdatedByAnnotation: string := "drf-scheduler/updated-by"

  /** The merge patch: three annotations and the workload's `spec.priority`. */
  datatype PatchBody = PatchBody(annotations: map<string, string>, specPriority: int)

  /**
   * The patch sets exactly the three annotations (the rank in decimal) and `spec.priority`,
   * a thousand times the score truncated toward zero.
   */
  function MakePatchBody(priorityScore: real, rank: int, showReal: real -> string): (body: PatchBody)
    ensures body.annotations.Keys == {ScoreAnnotation, RankAnnotation, UpdatedByAnnotation}
    ensures body.annotations[ScoreAnnotation] == showReal(priorityScore)
    ensures body.annotations[RankAnnotation] == IntToString(rank)
    ensures body.annotations[UpdatedByAnnotation] == "drf-controller"
    ensures 0.0 <= priorityScore ==>
      body.specPriority as real <= priorityScore * 1000.0 < body.specPriority as real + 1.0
    ensures priorityScore < 0.0 ==>
      body.specPriority as real - 1.0 < priorityScore * 1000.0 <= body.specPriority as real
  {
    PatchBody(
      map[ScoreAnnotation := showReal(priorityScore),
          RankAnnotation := IntToString(rank),
          UpdatedByAnnotation := "drf-controller"],
      Truncate(priorityScore * 1000.0))
  }

  /** The rank annotation of a patch reads back as the rank. */
  lemma PatchRankReadsBack(priorityScore: real, rank: int, showReal: real -> string)
    ensures ParseInt(MakePatchBody(priorityScore, rank, showReal).annotations[RankAnnotation]) == Some(rank)
  {
    IntToStringRoundTrip(rank);
  }

  /**
   * `spec.priority` moves with the score: a job with a lower score (earlier in the controller's order)
   * never gets a larger `spec.priority` than a job with a higher score.
   */
  lemma SpecPriorityFollowsScore(lower: real, higher: real, rankA: int, rankB: int, showReal: real -> string)
    requires lower <= higher
    ensures MakePatchBody(lower, rankA, showReal).specPriority <= MakePatchBody(higher, rankB, showReal).specPriority
  {
    TruncateMonotone(lower * 1000.0, higher * 1000.0);
  }

  // ----- updating one workload -----

  /** The namespace and name the patch is addressed to; missing keys make the update fail before patching. */
  function PatchTarget(w: Workload): Option<(string, string)> {
    match w.metadata
    case Some(Metadata(Some(name), Some(namespace))) => Some((namespace, name))
    case _ => None
  }

  /** The result of updating one job's workload: true only when a matching workload was patched successfully. */
  function UpdateSucceeds(job: JobInfo, priorityScore: real, rank: int, listing: Option<seq<Workload>>,
                          patch: (string, string, PatchBody) -> bool, showReal: real -> string): bool
  {
    if listing.None? then false
    else
      match FirstMatch(job.name, listing.value)
      case None => false
      case Some(w) =>
        match PatchTarget(w)
        case None => false
        case Some(target) => patch(target.0, target.1, MakePatchBody(priorityScore, rank, showReal))
  }

  method UpdateWorkloadPriority(job: JobInfo, priorityScore: real, rank: int, listing: Option<seq<Workload>>,
                                patch: (string, string, PatchBody) -> bool, showReal: real -> string)
    returns (ok: bool)
    ensures ok == UpdateSucceeds(job, priorityScore, rank, listing, patch, showReal)
  {
    var workload := GetWorkloadForJob(job, listing);
    if workload.None? {
      return false;
    }
    var target := PatchTarget(workload.value);
    if target.None? {
      return false;
    }
    var body := MakePatchBody(priorityScore, rank, showReal);
    ok := patch(target.value.0, target.value.1, body);
  }

  /**
   * An update fails without any patch when no workload name contains the job name, and it succeeds
   * only by patching the first matching workload with the body for this score and rank.
   */
  lemma UpdateSucceedsCases(job: JobInfo, priorityScore: real, rank: int, items: seq<Workload>,
                            patch: (string, string, PatchBody) -> bool, showReal: real -> string)
    ensures (forall k :: 0 <= k < |items| ==> !Contains(WorkloadName(items[k]), job.name)) ==>
      !UpdateSucceeds(job, priorityScore, rank, Some(items), patch, showReal)
    ensures UpdateSucceeds(job, priorityScore, rank, Some(items), patch, showReal) ==>
      exists k :: 0 <= k < |items| && Contains(WorkloadName(items[k]), job.name) &&
        (forall j :: 0 <= j < k ==> !Contains(WorkloadName(items[j]), job.name)) &&
        PatchTarget(items[k]).Some? &&
        patch(PatchTarget(items[k]).value.0, PatchTarget(items[k]).value.1, MakePatchBody(priorityScore, rank, showReal))
  {
    FirstMatchIsFirst(job.name, items);
  }

  // ----- updating all jobs: ranks and batches -----

  const BatchSize: nat := 10

  /** The number of batches `range(0, n, BatchSize)` yields. */
  function BatchCount(n: nat): nat {
    (n + BatchSize - 1) / BatchSize
  }

  function BatchStart(b: nat): nat {
    b * BatchSize
  }

  function BatchEnd(n: nat, b: nat): nat {
    if b * BatchSize + BatchSize < n then b * BatchSize + BatchSize else n
  }

  /** Position `k` lies in batch `b` of a list of length `n`. */
  predicate InBatch(n: nat, b: nat, k: int) {
    BatchStart(b) <= k < BatchEnd(n, b)
  }

  /** How many positions the first `b` batches cover. */
  function Covered(n: nat, b: nat): nat {
    if b * BatchSize < n then b * BatchSize else n
  }

  /**
   * The batches partition the positions 0..n: none is empty, each ends where the next starts,
   * all but the last hold exactly BatchSize positions, the last ends at n, and each position lies in
   * exactly one batch. With n = 0 there are no batches.
   */
  lemma BatchesPartition(n: nat)
    ensures BatchCount(n) == 0 <==> n == 0
    ensures forall b :: 0 <= b < BatchCount(n) ==> BatchStart(b) < BatchEnd(n, b)
    ensures forall b :: 0 <= b < BatchCount(n) - 1 ==>
      BatchEnd(n, b) == BatchStart(b + 1) && BatchEnd(n, b) - BatchStart(b) == BatchSize
    ensures n > 0 ==> BatchEnd(n, BatchCount(n) - 1) == n
    ensures forall k :: 0 <= k < n ==> k / BatchSize < BatchCount(n) && InBatch(n, k / BatchSize, k)
    ensures forall k, b :: 0 <= b < BatchCount(n) && InBatch(n, b, k) ==> b == k / BatchSize
  {
    forall b | 0 <= b < BatchCount(n) ensures BatchStart(b) < BatchEnd(n, b) {
      assert b * BatchSize < n;
    }
    forall k | 0 <= k < n ensures k / BatchSize < BatchCount(n) && InBatch(n, k / BatchSize, k) {
      assert k / BatchSize * BatchSize <= k;
    }
  }

  /** One call of the per-job update: the rank, the job and its score. */
  datatype PatchCall = PatchCall(rank: int, job: JobInfo, priorityScore: real)

  /** The calls made for a sorted list: the job at position k gets rank k + 1. */
  function RankedCalls(sorted: seq<(JobInfo, real)>): seq<PatchCall> {
    seq(|sorted|, k requires 0 <= k < |sorted| => PatchCall(k + 1, sorted[k].0, sorted[k].1))
  }

  function Succeeded(c: PatchCall, listing: Option<seq<Workload>>,
                     patch: (string, string, PatchBody) -> bool, showReal: real -> string): bool
  {
    UpdateSucceeds(c.job, c.priorityScore, c.rank, listing, patch, showReal)
  }

  /** How many of the calls succeeded. */
  function SuccessCount(calls: seq<PatchCall>, listing: Option<seq<Workload>>,
                        patch: (string, string, PatchBody) -> bool, showReal: real -> string): nat
  {
    if calls == [] then 0
    else
      SuccessCount(calls[..|calls| - 1], listing, patch, showReal) +
      (if Succeeded(calls[|calls| - 1], listing, patch, showReal) then 1 else 0)
  }

  /**
   * Sorts the scored jobs by ascending score, then patches them batch by batch; `calls` records
   * the per-job update calls in the order they are issued.
   */
  method UpdateAllJobPriorities(jobPriorities: seq<(JobInfo, real)>, listing: Option<seq<Workload>>,
                                patch: (string, string, PatchBody) -> bool, showReal: real -> string)
    returns (calls: seq<PatchCall>, successCount: nat)
    ensures calls == RankedCalls(Ordering.SortByScore(jobPriorities))
    ensures successCount == SuccessCount(calls, listing, patch, showReal)
  {
    var sorted := Ordering.SortByScore(jobPriorities);
    var all := RankedCalls(sorted);
    successCount := 0;
    var totalCount := |sorted|;
    calls := [];
    BatchesPartition(totalCount);
    for b := 0 to BatchCount(totalCount)
      invariant calls == all[..Covered(totalCount, b)]
      invariant successCount == SuccessCount(calls, listing, patch, showReal)
    {
      var i := BatchStart(b);
      assert i == Covered(totalCount, b);
      var results: seq<bool> := [];
      for k := i to BatchEnd(totalCount, b)
        invariant calls == all[..k]
        invariant successCount + CountTrue(results) == SuccessCount(calls, listing, patch, showReal)
      {
        var call := PatchCall(k + 1, sorted[k].0, sorted[k].1);
        var ok := UpdateWorkloadPriority(call.job, call.priorityScore, call.rank, listing, patch, showReal);
        assert all[..k + 1] == all[..k] + [call];
        assert (calls + [call])[..|calls|] == calls;
        CountTrueAppend(results, ok);
        results := results + [ok];
        calls := calls + [call];
      }
      successCount := successCount + CountTrue(results);
      assert BatchEnd(totalCount, b) == Covered(totalCount, b + 1);
    }
    assert Covered(totalCount, BatchCount(totalCount)) == totalCount;
    assert all[..totalCount] == all;
  }

  /** Python's `sum` over a list of booleans. */
  function CountTrue(results: seq<bool>): nat {
    if results == [] then 0 else CountTrue(results[..|results| - 1]) + (if results[|results| - 1] then 1 else 0)
  }

  lemma CountTrueAppend(results: seq<bool>, ok: bool)
    ensures CountTrue(results + [ok]) == CountTrue(results) + (if ok then 1 else 0)
  {
    assert (results + [ok])[..|results|] == results;
  }

  /**
   * The write-back issues one call per scored job, in ascending score order, with ranks 1..n by
   * position; equal scores keep their input order.
   */
  lemma RankedCallsCoverJobs(jobPriorities: seq<(JobInfo, real)>)
    ensures var sorted := Ordering.SortByScore(jobPriorities);
      var calls := RankedCalls(sorted);
      && |calls| == |jobPriorities|
      && (forall k :: 0 <= k < |calls| ==> calls[k].rank == k + 1 && (calls[k].job, calls[k].priorityScore) == sorted[k])
      && (forall i, j :: 0 <= i < j < |calls| ==> calls[i].priorityScore <= calls[j].priorityScore)
      && multiset(sorted) == multiset(jobPriorities)
      && (forall v :: Ordering.WithScore(sorted, v) == Ordering.WithScore(jobPriorities, v))
  {
    Ordering.SortByScoreSorted(jobPriorities);
    assert |multiset(Ordering.SortByScore(jobPriorities))| == |multiset(jobPriorities)|;
  }

  /** The outcome of each call, in order. */
  function Outcomes(calls: seq<PatchCall>, listing: Option<seq<Workload>>,
                    patch: (string, string, PatchBody) -> bool, showReal: real -> string): seq<bool>
  {
    seq(|calls|, k requires 0 <= k < |calls| => Succeeded(calls[k], listing, patch, showReal))
  }

  /** The success count is the number of true outcomes. */
  lemma {:induction false} SuccessCountOfOutcomes(calls: seq<PatchCall>, listing: Option<seq<Workload>>,
                                                  patch: (string, string, PatchBody) -> bool, showReal: real -> string)
    ensures SuccessCount(calls, listing, patch, showReal) == CountTrue(Outcomes(calls, listing, patch, showReal))
  {
    if calls != [] {
      var init := calls[..|calls| - 1];
      SuccessCountOfOutcomes(init, listing, patch, showReal);
      var outcomes := Outcomes(calls, listing, patch, showReal);
      assert outcomes[..|outcomes| - 1] == Outcomes(init, listing, patch, showReal);
    }
  }

  /** A count of true values lies between 0 and the length, reaching either end iff all agree. */
  lemma {:induction false} CountTrueBounds(results: seq<bool>)
    ensures CountTrue(results) <= |results|
    ensures CountTrue(results) == |results| <==> forall k :: 0 <= k < |results| ==> results[k]
    ensures CountTrue(results) == 0 <==> forall k :: 0 <= k < |results| ==> !results[k]
  {
    if results != [] {
      var init := results[..|results| - 1];
      CountTrueBounds(init);
      assert forall k :: 0 <= k < |init| ==> init[k] == results[k];
    }
  }

  /**
   * The success count lies between 0 and the number of calls; it is the number of calls iff every
   * call's outcome is a success, and 0 iff none is.
   */
  lemma SuccessCountBounds(calls: seq<PatchCall>, listing: Option<seq<Workload>>,
                           patch: (string, string, PatchBody) -> bool, showReal: real -> string)
    ensures var outcomes := Outcomes(calls, listing, patch, showReal);
      && |outcomes| == |calls|
      && SuccessCount(calls, listing, patch, showReal) <= |calls|
      && (SuccessCount(calls, listing, patch, showReal) == |calls| <==> forall k :: 0 <= k < |outcomes| ==> outcomes[k])
      && (SuccessCount(calls, listing, patch, showReal) == 0 <==> forall k :: 0 <= k < |outcomes| ==> !outcomes[k])
  {
    SuccessCountOfOutcomes(calls, listing, patch, showReal);
    CountTrueBounds(Outcomes(calls, listing, patch, showReal));
  }

  // ----- pending workloads -----

  predicate Admitted(c: Condition) {
    c.conditionType == Some("Admitted") && c.status == Some("True")
  }

  /** A workload is pending iff none of its conditions says it was admitted. */
  predicate IsPending(w: Workload) {
    forall k :: 0 <= k < |Conditions(w)| ==> !Admitted(Conditions(w)[k])
  }

  function PendingOnly(items: seq<Workload>): seq<Workload> {
    if items == [] then []
    else
      var w := items[|items| - 1];
      PendingOnly(items[..|items| - 1]) + (if IsPending(w) then [w] else [])
  }

  /** Keeps the workloads with no admitted condition; a failed listing gives none. */
  method GetPendingWorkloads(listing: Option<seq<Workload>>) returns (pendingWorkloads: seq<Workload>)
    ensures listing.None? ==> pendingWorkloads == []
    ensures listing.Some? ==> pendingWorkloads == PendingOnly(listing.value)
  {
    if listing.None? {
      return [];
    }
    var items := listing.value;
    pendingWorkloads := [];
    for i := 0 to |items|
      invariant pendingWorkloads == PendingOnly(items[..i])
    {
      assert items[..i + 1][..i] == items[..i];
      var workload := items[i];
      var conditions := Conditions(workload);
      var isPending := true;
      var j := 0;
      while j < |conditions|
        invariant 0 <= j <= |conditions|
        invariant isPending <==> forall k :: 0 <= k < j ==> !Admitted(conditions[k])
        invariant !isPending ==> !IsPending(workload)
      {
        var condition := conditions[j];
        if condition.conditionType == Some("Admitted") && condition.status == Some("True") {
          isPending := false;
          break;
        }
        j := j + 1;
      }
      if isPending {
        pendingWorkloads := pendingWorkloads + [workload];
      }
    }
    assert items[..|items|] == items;
  }

  /** The pending workloads are exactly the listed ones with no admitted condition. */
  lemma {:induction false} PendingOnlySelects(items: seq<Workload>)
    ensures forall w :: w in PendingOnly(items) <==> w in items && IsPending(w)
  {
    if items != [] {
      var init := items[..|items| - 1];
      PendingOnlySelects(init);
      assert items == init + [items[|items| - 1]];
    }
  }

  /** Filtering keeps the input order: it distributes over concatenation. */
  lemma {:induction false} PendingOnlyAppend(a: seq<Workload>, b: seq<Workload>)
    ensures PendingOnly(a + b) == PendingOnly(a) + PendingOnly(b)
  {
    if b == [] {
      assert a + b == a;
    } else {
      var b' := b[..|b| - 1];
      PendingOnlyAppend(a, b');
      assert (a + b)[..|a + b| - 1] == a + b';
      assert (a + b)[|a + b| - 1] == b[|b| - 1];
    }
  }

  /** A workload without a status, or without conditions, counts as pending. */
  lemma MissingConditionsArePending(w: Workload)
    requires w.status.None? || w.status.value.conditions.None?
    ensures IsPending(w)
    ensures PendingOnly([w]) == [w]
  {
    assert [w][..0] == [];
  }

  // ----- pending workload summaries -----

  datatype WorkloadInfo = WorkloadInfo(
    name: Option<string>,
    namespace: Option<string>,
    queue: Option<string>,
    priority: int,
    status: seq<Condition>)

  function Describe(w: Workload): WorkloadInfo {
    var name := if w.metadata.Some? then w.metadata.value.name else None;
    var namespace := if w.metadata.Some? then w.metadata.value.namespace else None;
    var queue := if w.spec.Some? then w.spec.value.queueName else None;
    var priority := if w.spec.Some? then w.spec.value.priority.GetOr(0) else 0;
    WorkloadInfo(name, namespace, queue, priority, Conditions(w))
  }

  /** One summary per pending workload, in order. */
  method GetPendingWorkloadsInfo(listing: Option<seq<Workload>>) returns (workloadInfo: seq<WorkloadInfo>)
    ensures var pending := if listing.Some? then PendingOnly(listing.value) else [];
      |workloadInfo| == |pending| &&
      forall k :: 0 <= k < |pending| ==> workloadInfo[k] == Describe(pending[k])
  {
    var pendingWorkloads := GetPendingWorkloads(listing);
    workloadInfo := [];
    for i := 0 to |pendingWorkloads|
      invariant |workloadInfo| == i
      invariant forall k :: 0 <= k < i ==> workloadInfo[k] == Describe(pendingWorkloads[k])
    {
      workloadInfo := workloadInfo + [Describe(pendingWorkloads[i])];
    }
  }

  /**
   * A summary carries the workload's name and conditions, reports priority 0 when the spec has
   * none, and never shows an admitted condition when it summarises a pending workload.
   */
  lemma DescribePending(w: Workload)
    requires IsPending(w)
    ensures var info := Describe(w);
      && info.name == (if w.metadata.Some? then w.metadata.value.name else None)
      && (w.spec.None? || w.spec.value.priority.None? ==> info.priority == 0)
      && (w.spec.Some? && w.spec.value.priority.Some? ==> info.priority == w.spec.value.priority.value)
      && (w.status.None? || w.status.value.conditions.None? ==> info.status == [])
      && (forall k :: 0 <= k < |info.status| ==> !Admitted(info.status[k]))
  {
  }
}
