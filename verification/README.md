# DRF priority controller — Dafny model

This project models the core of a Kubernetes controller that orders pending batch jobs by
Dominant Resource Fairness (DRF, Ghodsi et al., NSDI 2011) with an aging adjustment, and writes
the resulting priority and rank onto the matching Kueue `Workload` objects.

The model covers:

- the DRF scheduler (`scheduler.dfy`, module `Scheduler`): the dominant share of a job, the aging
  adjustment, the priority score `weight + share − alpha·seconds`;
- quantity parsing (`quantity.dfy`, module `Quantity`): CPU strings to cores, memory strings to MiB;
- the controller (`controller.dfy`, module `Controller`): how annotations decide a job's
  priority class and gang membership, the per-type summation of node capacities, gang handling,
  and the compute-and-sort of all job priorities;
- the stable ascending sort by score shared by the controller and the write-back
  (`ordering.dfy`, module `Ordering`);
- the Kueue write-back (`kueue.dfy`, module `Kueue`): finding the workload of a job, the patch
  body, ranking and batching of patches with the success count, the pending-workload filter and
  the pending-workload summaries.

Quantities, shares and scores are exact `real`s; timestamps are seconds as `real`. The current
time `now`, the aging constant, the job list, the node list and the workload listing are
parameters. The Kubernetes calls are not modelled: a listing that fails is `None`; the patch call
is a parameter `patch(namespace, name, body)` that is true when the call returns and false when
it raises. Python's `float()` on a string is the parameter `num` (yielding `None` where `float`
raises) and `str()` of a float is the parameter `showReal`.

A job's request dictionary is a sequence of (resource type, amount) pairs in the dictionary's
iteration order. Cluster totals are maps keyed by resource type: the code builds them under the
strings `cpu`, `memory` and `gpu`, and the `ClusterInfo` record's typed fields turn those into the
enumeration members that the dominant-share lookup uses.

Behaviour of the code worth knowing, which the model keeps:

- the priority score ages by seconds (`alpha · (now − created)` in seconds), with no ceiling, so
  scores can become negative. The separate `apply_aging` uses hours and clamps at 0, but nothing
  in the controller calls it;
- gang members are not given a shared score, an aggregate share or the oldest member's timestamp:
  every job is scored on its own;
- the order is a stable sort by score only; there is no tie-break by timestamp or name;
- priority classes are a closed enumeration: anything but `priority: approved` is normal;
- a job whose workload is not found counts as a failed update (false), like any other failure;
- the controller builds its scheduler with the default aging constant 0.1
  (Code/Controller.py:177), which the priority computation uses.

## Model

| member | source | states |
|---|---|---|
| `Scheduler.CalculateDominantShare` | Code/Controller.py:63-101 | collecting the per-type shares in a loop and taking their maximum yields `DominantShare` of the job's requests and the cluster totals |
| `Scheduler.MaxOfIsMaximum` | Code/Controller.py:95-98 | the maximum of a non-empty share list is one of its elements and no element exceeds it |
| `Scheduler.SharesExactly` | Code/Controller.py:74-93 | the collected shares are exactly `requested/total` of the request types present in the cluster with a positive total |
| `Scheduler.DominantShareIsUpperBound` | Code/Controller.py:74-98 | the dominant share is at least `requested/total` for every request type present with total > 0 |
| `Scheduler.DominantShareIsAttained` | Code/Controller.py:95-98 | when some request type qualifies, the dominant share equals the share of one of them |
| `Scheduler.DominantShareDefault` | Code/Controller.py:77-101 | when no request type is present with a positive total, the dominant share is exactly 0.0 |
| `Scheduler.DominantShareIgnoresUncounted` | Code/Controller.py:77-93 | a request for a type missing from the cluster or with non-positive total does not change the dominant share |
| `Scheduler.DominantShareInUnitRange` | Code/Controller.py:74-101 | with non-negative requests each at most its positive capacity, the dominant share lies in [0, 1] |
| `Scheduler.TestClusterDominantShare` | Code/test_controller.py:167-176 | the aging-test job (2 CPU, 1 GPU, 4096 MiB) against the test cluster built at Code/test_controller.py lines 85-98 (32 CPU, 8 GPU, 131072 MiB) has dominant share 0.125 |
| `Scheduler.ApplyAging` | Code/Controller.py:103-121 | the aged share is the least value that is at least 0 and at least `share − alpha·hours` |
| `Scheduler.ApplyAgingBounded` | Code/Controller.py:114-121 | with alpha ≥ 0, elapsed time ≥ 0 and share ≥ 0 the aged share lies between 0 and the share |
| `Scheduler.ApplyAgingNonIncreasing` | Code/Controller.py:114-121 | with alpha ≥ 0 the aged share never increases as time passes |
| `Scheduler.PriorityWeight` | Code/Controller.py:142-143 | the weight is 0 iff the job is urgent and 1000 iff it is not |
| `Scheduler.CalculatePriorityScore` | Code/Controller.py:123-155 | the computed score is `PriorityScore`: weight plus dominant share minus alpha times the seconds since creation |
| `Scheduler.PriorityScoreNonIncreasing` | Code/Controller.py:137-146 | with alpha ≥ 0 the score never increases as time passes (and has no floor) |
| `Scheduler.UrgentScoresBelowNormal` | Code/Controller.py:142-146 | of two jobs created together whose requests fit the cluster, the urgent one scores strictly lower than the normal one |
| `Scheduler.HundredHourNormalJobScore` | Code/Controller.py:137-146 | a normal job at 2/10 CPU aged 100 hours with alpha 0.1 scores 1000.2 − 36000: aging is per second and uncapped |
| `Quantity.ParseCpuRequest` | Code/Controller.py:275-279 | with an `m` suffix the result times 1000 is the number before it (and fails iff that number does); without one the result is the number itself |
| `Quantity.CpuMillicores` | Code/Controller.py:275-279 | `n+"m"` parses to `num(n)/1000`; a string without `m` parses to `num` of itself |
| `Quantity.ParseMemoryRequest` | Code/Controller.py:281-292 | the result is in MiB: times 2^20 it is the number before the suffix times the bytes its suffix stands for (Ki 2^10, Mi 2^20, Gi 2^30, Ti 2^40, none 1); it fails iff that number does |
| `Quantity.MemorySuffixesScale` | Code/Controller.py:281-290 | `n+"Ti"` is 1024 × `n+"Gi"`, which is 1024 × `n+"Mi"`, which is 1024 × `n+"Ki"`; `n+"Mi"` is `num(n)` MiB |
| `Quantity.MemoryPlainBytes` | Code/Controller.py:291-292 | a memory string with no binary suffix is bytes: `num(s)` divided by 1024 twice |
| `Quantity.MemoryFailsOnlyOnNumber` | Code/Controller.py:281-290 | parsing a suffixed memory string fails exactly when the number before the suffix fails |
| `Controller.Lower` | Code/Controller.py:258 | lower-casing keeps the length and lower-cases each ASCII letter |
| `Controller.GangFlagOfAnyCase` | Code/Controller.py:255-258 | the gang flag is set iff the `gang-scheduling` annotation is present and reads `true` in any letter case; a missing annotation defaults to `false` |
| `Controller.ExtractJobInfo` | Code/Controller.py:236-259 | urgent iff annotation `priority` is `approved`; in a gang iff `gang-scheduling` reads `true` in any letter case; gang id present iff annotated, and then passed through; name, namespace, timestamp and requests kept |
| `Controller.Accumulate` | Code/Controller.py:317-336 | adding one node keeps the keys cpu, memory, gpu and adds the node's amount of each type (0 when the node lacks it) |
| `Controller.GetClusterInfo` | Code/Controller.py:294-345 | the totals and allocatable maps hold exactly cpu, memory and gpu, each the sum over all nodes; a failed node listing gives no cluster information |
| `Controller.TotalCapacityAppend` | Code/Controller.py:317-326 | summing over two node lists in turn adds their totals |
| `Controller.TotalCapacityBounds` | Code/Controller.py:317-326 | with non-negative node capacities the total is non-negative and at least each node's capacity |
| `Controller.HandleGangScheduling` | Code/Controller.py:347-376 | building the gang dictionary and concatenating its groups with the non-gang jobs yields `GangOrder` |
| `Controller.GangIdsExactly` | Code/Controller.py:357-364 | the gang keys are distinct and are exactly the ids of jobs flagged for gang scheduling with a non-empty id |
| `Controller.GangIdsFirstAppearance` | Code/Controller.py:357-371 | the gangs seen in any prefix of the input come first in the key order, in the same order: groups follow first appearance |
| `Controller.GroupsContiguous` | Code/Controller.py:366-371 | every job of the gang part is in a gang, and the jobs of one gang are contiguous |
| `Controller.GangOrderKeepsGangs` | Code/Controller.py:357-376 | for every gang id, the output's members of that gang are the input's members, in input order |
| `Controller.GangOrderPermutes` | Code/Controller.py:357-376 | output plus dropped jobs equals the input as a multiset: nothing is duplicated or lost except the dropped jobs |
| `Controller.SplitSelects` | Code/Controller.py:357-364 | dropped jobs are flagged for gang scheduling without a usable gang id; gang jobs are in a gang; the others are not flagged |
| `Controller.GangOrderMembership` | Code/Controller.py:357-376 | a job is in the output iff it is in the input and is in a gang or not flagged; the readiness test removes nothing |
| `Controller.GangOrderShape` | Code/Controller.py:366-376 | the output is the contiguous gang blocks followed by the non-gang jobs in input order |
| `Controller.ScoreJobs` | Code/Controller.py:400-404 | the scoring loop pairs each job, in order, with its own priority score |
| `Controller.ScoredCounts` | Code/Controller.py:400-404 | a (job, score) pair occurs as often as the job does, and only with the job's own score |
| `Controller.CalculateJobPriorities` | Code/Controller.py:378-409 | no pending jobs or no cluster information gives an empty list; otherwise the stable ascending sort of the gang-handled jobs paired with their scores under the default aging constant 0.1 |
| `Controller.JobPrioritiesOrdered` | Code/Controller.py:398-409 | the result is sorted ascending, lists each kept job as often as gang handling keeps it with its own score, and keeps gang-handling order among equal scores |
| `Ordering.SortByScoreSorted` | Code/Controller.py:406-407 | the stable sort yields an ascending list that is a permutation of the input, and for every score the elements with that score keep their input order |
| `Ordering.SortByScoreIdempotent` | Code/kueue_integration.py:195-196 | sorting an already sorted list (the write-back sorts the controller's sorted output again) leaves it unchanged |
| `Kueue.ContainsIffSlice` | Code/kueue_integration.py:69-71 | `job.name in workload_name` holds iff some slice of the workload name equals the job name |
| `Kueue.FirstMatchIsFirst` | Code/kueue_integration.py:64-73 | the search yields None iff no workload name contains the job name, and otherwise the earliest workload whose name does (a missing name is "") |
| `Kueue.GetWorkloadForJob` | Code/kueue_integration.py:46-77 | the linear search with early return yields `FirstMatch` over the listing; a failed listing yields None |
| `Kueue.Truncate` | Code/kueue_integration.py:102 | `int(x)` truncates toward zero: for x ≥ 0, n ≤ x < n+1; for x < 0, n−1 < x ≤ n |
| `Kueue.TruncateMonotone` | Code/kueue_integration.py:102 | truncation toward zero is monotone |
| `Kueue.IntToStringRoundTrip` | Code/kueue_integration.py:97 | the decimal text of an integer reads back as that integer |
| `Kueue.MakePatchBody` | Code/kueue_integration.py:93-104 | the patch sets exactly the annotations priority-score = str(score), rank = str(rank), updated-by = drf-controller, and spec.priority = int(score·1000), bounded as truncation toward zero on either sign |
| `Kueue.PatchRankReadsBack` | Code/kueue_integration.py:97 | the rank annotation of a patch reads back as the rank |
| `Kueue.SpecPriorityFollowsScore` | Code/kueue_integration.py:102 | a lower score never yields a larger spec.priority |
| `Kueue.UpdateWorkloadPriority` | Code/kueue_integration.py:17-44 | the update's result is `UpdateSucceeds`: false on a failed listing, no match or missing name/namespace, otherwise the patch call's outcome |
| `Kueue.UpdateSucceedsCases` | Code/kueue_integration.py:29-44 | with no workload name containing the job name the update is false; a true update patched the first matching workload with this score and rank |
| `Kueue.BatchesPartition` | Code/kueue_integration.py:198-208 | batches `[i, i+10)` for i = 0, 10, … partition `[0, n)`: none empty, consecutive, all but the last full, the last ending at n, each position in exactly one batch, none when n = 0 |
| `Kueue.UpdateAllJobPriorities` | Code/kueue_integration.py:188-211 | the calls issued, batch by batch, are the sorted jobs with rank k+1 at sorted position k, and the success count is the number of calls that succeeded |
| `Kueue.RankedCallsCoverJobs` | Code/kueue_integration.py:196-207 | one call per scored job, ranks 1..n by position, scores ascending, the calls' jobs a permutation of the input keeping input order among equal scores |
| `Kueue.SuccessCountOfOutcomes` | Code/kueue_integration.py:208-209 | the success count is the number of true outcomes, one per call in order |
| `Kueue.CountTrueBounds` | Code/kueue_integration.py:209 | a sum of booleans lies in [0, n]; it is n iff all are true and 0 iff none is |
| `Kueue.SuccessCountBounds` | Code/kueue_integration.py:197-211 | one outcome per call; 0 ≤ success count ≤ number of calls; it equals the number of calls iff every outcome is a success and 0 iff none is |
| `Kueue.GetPendingWorkloads` | Code/kueue_integration.py:146-179 | the flag-and-break loop keeps exactly `PendingOnly` of the listing; a failed listing gives none |
| `Kueue.PendingOnlySelects` | Code/kueue_integration.py:161-175 | a workload is kept iff it is listed and has no condition with type Admitted and status True |
| `Kueue.PendingOnlyAppend` | Code/kueue_integration.py:161-175 | the filter distributes over concatenation, so input order is kept |
| `Kueue.MissingConditionsArePending` | Code/kueue_integration.py:162-172 | a workload with no status or no conditions is pending and kept |
| `Kueue.GetPendingWorkloadsInfo` | Code/kueue_integration.py:238-267 | one summary per pending workload, in order, each the projection `Describe` of that workload |
| `Kueue.DescribePending` | Code/kueue_integration.py:249-261 | a summary carries the name, priority 0 when the spec has none, conditions [] when missing, and no admitted condition for a pending workload |

## Left out

- Kubernetes and Kueue API calls (listing jobs, nodes and workloads, patching, loading the
  cluster configuration): external I/O. Their results are parameters; a failed call is `None` or false.
- One workload listing serves the whole write-back, while the code lists the workloads again for
  every job: the listings may differ between calls when the cluster changes meanwhile.
- The pending-job filter of `get_pending_jobs` and the reading of requests and capacities from
  client objects (the `hasattr` tests of `_extract_job_info` and `get_cluster_info`): they depend on
  client object shapes; resource requests and node amounts are taken as already read.
- `Controller.ExtractJobInfo`: `lower()` is modelled for ASCII letters only; no other
  character lower-cases to a letter of `true`, so the gang flag is unaffected.
- `Scheduler.CalculatePriorityScore`: the creation time and `now` are taken as comparable seconds.
  The code subtracts the job's creation timestamp, passed through unchanged from the Kubernetes
  job metadata, from the naive `datetime.now()`. When the creation timestamp is timezone-aware, as
  the Kubernetes client parses it, that subtraction raises `TypeError` instead of returning a
  score. The whole priority computation then stops with the error, which only the controller loop
  catches. The model always returns a score.
- `Scheduler.ApplyAging`: the same assumption. With a timezone-aware creation timestamp the code
  raises `TypeError` instead of returning an aged share.
- `Controller.ScoreJobs`: one clock reading `now` serves every job, while the code reads the clock
  afresh for each job it scores. Jobs with equal class, requests and creation second (common for
  the members of one gang) tie in the model and keep gang-handling order; in the code each later
  job has waited slightly longer, scores slightly lower and sorts ahead of the earlier ones.
- `Controller.CalculateJobPriorities`: inherits the single clock reading of `ScoreJobs`, so among
  jobs with equal inputs the order, and the ranks written back from it, may be the reverse of the code's.
- The thread pool of `update_all_job_priorities`: each batch is modelled sequentially, in the order
  `executor.map` returns results.
- The timer loop `DRFController.start`/`stop`, `main`, environment variables, and the
  `update_kueue_priorities` forwarding: process glue.
- `get_queue_status` (a single API read) and `get_job_queue_status` (the workload search above
  followed by a projection of name, status and queue): outside the modelled core.
- IEEE float rounding, `float()` on strings and `str()` of a float (parameters `num` and `showReal`),
  logging and message formatting.
- Workload fields present with a JSON null value: the model distinguishes only present and missing
  keys. In the summaries a null `spec.priority` appears as `None` where the model gives 0 (a null
  name, namespace or queue appears as `None` in both). A null `metadata`, `spec`, `status`,
  `conditions` or workload name makes the code raise where the model reads the field as missing.
