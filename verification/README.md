# Superkube, verified

Superkube is a multi-master, Kubernetes-like control plane: several API
servers share one database, and every node runs an agent with an embedded
container runtime. This project models its state machines in Dafny and proves
what they keep. A database table is a value (or a class that holds one) and an
SQL statement is one atomic step; a task that awaits is a sequence of steps
between its await points.

## The files

| file | models |
|---|---|
| `Wrappers.dfy`, `Sequences.dfy`, `Text.dfy` | options, sequence facts, decimal digits and byte-wise string order |
| `Quantity.dfy`, `Suffixes.dfy` | CPU and memory quantities: printing on the agent, parsing on the scheduler, binary64 rounding written out; what each suffix, fraction and exponent means |
| `Timestamp.dfy`, `Calendar.dfy` | RFC 3339 text of UTC instants and its order (section 5.1 of RFC 3339 promises it only for equal fraction lengths); the dates it prints |
| `Lease.dfy`, `LeasedPasses.dfy`, `SchedulerLease.dfy` | the lease table and its conditional UPSERT; passes under a lease; masters acquiring, listing and binding under it |
| `Cluster.dfy`, `Rows.dfy` | pods, nodes, the `pods` table and counting its rows |
| `Placement.dfy`, `Acceptable.dfy` | choosing a node for a pod; what the choice means, said of the objects' own fields |
| `SchedulerTick.dfy` | one scheduling tick |
| `LostAnswers.dfy`, `TickAmongWriters.dfy` | which bind outcomes a tick can bear; the tick while others change the table between its statements |
| `Deployments.dfy`, `StatefulSets.dfy`, `DaemonSets.dfy`, `Templates.dfy` | the three reconcilers; what their passes put into the table |
| `DeploymentLease.dfy` | masters reconciling Deployments under their lease, statement by statement |
| `WatchBus.dfy`, `WatchStream.dfy` | the replicated change feed; one client's watch |
| `LogText.dfy`, `LogViews.dfy`, `Utf8.dfy` | log lines and their rendering; what a reader is shown; the UTF-8 test against the encoding (RFC 3629) |
| `ContainerLog.dfy` | appending, pumps and followers |
| `Layers.dfy` | applying image layers against their declarative union ("Whiteouts" in the OCI Image Format Specification's layer.md) |
| `Ipam.dfy`, `Lifecycle.dfy` | pod addresses; container creation, restart, removal and detached teardown |
| `RingPipe.dfy` | the drop-oldest output pipe |

`dafny verify dfyconfig.toml` checks everything.

## Where the code and its comments differ

The model follows the code.

- `src/server/scheduler.rs:267` says ties go to the earlier node; `max_by_key`
  at line 275 returns the last maximum, and so does `Placement.Choice`.
- `src/server/scheduler.rs:112` reads a failed pod listing as an empty one.
  `SchedulerTick.CapacityRespected` is about ticks whose listing succeeded;
  `SchedulerTick.FailedListingHarmlessIff` says when an empty listing does no harm.
- `src/server/scheduler.rs:121` forgets a pod whose bind returns an error, also
  when the UPDATE was executed and only its answer was lost.
  `LostAnswers.KeepsCapacityIff` and `LostAnswers.KeepsApartIff` say exactly
  which outcomes do no harm.
- `src/server/controller.rs:367-370` takes every failed read for a missing pod,
  and the create that follows is an upsert that clears the node
  (`src/db/repository.rs:91`); `controller.rs:613-622` does the same when its
  ignored delete fails. `StatefulSets.ExistingKeptIff`,
  `StatefulSets.FailedReadUnbinds`, and the step `Reset` of `SchedulerLease`.
- `src/node/oci/image.rs:159` skips absolute and parent-traversal entries as
  defence in depth, but markers are handled before it, at lines 138-157.
  `Layers.ConfinedIff` and `Layers.AbsoluteMarkerActsOutside`.
- `src/node/network/veth.rs:178-191` takes a network down best-effort, and
  `src/node/runtime/embedded.rs:250` releases the address all the same.
  `Lifecycle.StrayIff` and `Lifecycle.StrayShares`.
- `src/node/runtime/embedded.rs:443-445` says a follower sees every line exactly
  once; line 486 ignores write errors. `ContainerLog.IntactIff` and
  `ContainerLog.FileShows`.
- `src/server/controller.rs:153` counts Failed pods as replicas, although the
  comment at 570-571 says a Deployment replaces them. `Deployments.Counts`
  does not look at the phase.
- `src/server/controller.rs:397` looks only 32 indices above the wanted count.
  `StatefulSets.TrimReach` and `StatefulSets.NoGapsKept` give the exact effect.
- Neither the Deployment nor the DaemonSet controller checks that the selector
  selects the template. `Deployments.ConvergesIffSelected` and
  `DaemonSets.CoversIffSelected` show that this decides whether a pass works.
- `src/server/table.rs:208-216` says that lag closes the stream; the keepalive
  task at 224-236 still holds a sender. `WatchStream.StoppedStreamGoesOn`.
- A client that lists and then subscribes misses what happens in between
  (`src/server/table.rs:287`). `WatchStream.ListThenSubscribe`.
- `src/server/mod.rs:324-327` says a pruned row never loses a change; it does
  for the peer that missed it. `WatchBus.QuietDelivery` counts it as missed.
- A log file with one invalid UTF-8 text reads back as empty
  (`src/node/runtime/embedded.rs:533`, 544), and `str::lines` drops a carriage
  return that live rendering keeps. `LogText.BacklogAgainstLive`.

## How to read the models

- Failures are inputs. `Env`, `Fate`, `Outcome`, `disk` and the `fetched` flag of
  steps range over every pattern of statements and foreign calls that fail. A
  statement that is not executed changes nothing; one that is may lose its
  answer, and the caller then takes it for failed (`Fate`). Where the code does
  the same after an error as after an answer, a flag says whether the statement
  took effect.
- Random name suffixes are inputs too. Premises named `FreshNames`, `DrawsFresh` and
  `FreshTurn` say that the drawn names are unused and differ.
- Rows of the pods table are listed newest first. Which of two rows created in
  the same instant comes first is left open by the database, and no result
  depends on it.
- Quantities are parsed where the model reads an object
  (`Cluster.ReadQuantities`), because parsing is pure. Sums of requests are
  exact naturals; the methods that follow the code saturate at u64::MAX and are
  proved equal to the exact sum cut there.
- Scores are computed over exact reals.
- In the cluster machine of `WatchBus`, `missed`, `handled`, `inserted` and the
  ids on broadcast entries are bookkeeping for the statements; no step that
  sends reads them.
- `Lifecycle.State.networks` records which pod network namespaces exist, by name;
  `Lifecycle.Trail` is the part of a history that decides it.

## Model

| member | source | states |
|---|---|---|
| Quantity.MemoryRoundTrip | src/node/agent.rs:928-945 | printing a byte count and parsing it back returns it if and only if the printed quotient has at most 53 significant bits, or the count is u64::MAX |
| Quantity.SmallQuotientsRoundTrip | src/server/scheduler.rs:423-462 | every count whose quotient by the printed unit is at most 2^53 survives the agent-to-scheduler path, zero included |
| Quantity.OddCountsFail | src/server/scheduler.rs:456-461 | the condition shuts out a whole family: no odd count from 2^53 up, short of the maximum, survives |
| Quantity.MillicoresRoundTrip | src/server/scheduler.rs:408-412 | a count of millicores printed with its suffix parses back |
| Quantity.WholeCoresAreThousands | src/server/scheduler.rs:413-417 | whole cores parse to a thousand millicores each, up to 2^53 of them |
| Quantity.RenderedQuantityParse | src/server/scheduler.rs:423-462 | any printed `q` with any printed unit parses as q rounded to binary64, times the unit, range-checked and cast |
| Quantity.PrintedUnitSplits | src/server/scheduler.rs:425-450 | the suffix that was printed is the one the parser strips, and the digits remain |
| Quantity.RoundingFixes | src/server/scheduler.rs:452-456 | binary64 rounding fixes exactly the integers of at most 53 significant bits |
| Quantity.RoundsToNearest | src/server/scheduler.rs:452-456 | from 2^52 on no binary64 integer is nearer to a number than what it rounds to |
| Quantity.TiesGoToEven | src/server/scheduler.rs:452-456 | half-way between two neighbours it rounds to the even one |
| Quantity.PrintedNumberParses | src/server/scheduler.rs:452-452 | decimal printing and float parsing are inverse on naturals, before rounding |
| Quantity.MaxRoundsUp | src/server/scheduler.rs:457-461 | u64::MAX rounds to 2^64, which the range check lets through and the cast cuts back |
| Suffixes.SuffixMeans | src/server/scheduler.rs:423-462 | for no suffix and for each of the twelve, with its size as a literal number: `n` printed with the suffix parses as n times the size, whenever binary64 holds both exactly and the product is a u64 |
| Suffixes.SmallSuffixMeans | src/server/scheduler.rs:425-450 | so it does whenever the product is at most 2^53 |
| Suffixes.PrintsLargestUnit | src/node/agent.rs:928-945 | the agent prints a byte count in the largest of Ti, Gi, Mi and Ki that divides it, and bare if none does |
| Suffixes.BlanksAreIgnored | src/server/scheduler.rs:409-424 | blanks before and after a quantity do not matter |
| Suffixes.NegativesAreRefused | src/server/scheduler.rs:413-416 | a negative number is no quantity, short of minus zero |
| Suffixes.PointedReads | src/server/scheduler.rs:413-417 | the digits before and behind a decimal point, of any length, parse as one number with its point moved |
| Suffixes.ExponentMoves | src/server/scheduler.rs:413-417 | an exponent, of either letter and sign, moves the point further |
| Suffixes.ThousandthsRead | src/server/scheduler.rs:408-418 | `a.bcd` cores parse to 1000a + bcd millicores for every a below 2^42, both binary64 roundings included |
| Suffixes.ThousandthsEnd | src/server/scheduler.rs:418-418 | and 2^42 cores and 22 thousandths parse to a millicore too many |
| Cluster.ReadQuantities | src/server/scheduler.rs:338-355 | a resource has an entry exactly when its quantity is present and parses, and the entry is the parsed number |
| Timestamp.TextOrderIsTimeOrder | src/db/lease.rs:68-79 | byte-wise order of two printed timestamps is their order in time, for years up to 9999 and any mix of 0, 3, 6 and 9 fraction digits; equal text means equal instant |
| Timestamp.CivilOrder | src/db/repository.rs:14-16 | printed field by field, text order is field order |
| Timestamp.CivilGrows | src/db/repository.rs:14-16 | later instants have later calendar fields, across leap years and month lengths |
| Timestamp.FractionOrder | src/db/lease.rs:68-69 | fractions of different printed lengths, followed by the offset, order as their nanoseconds do |
| Calendar.FieldsAreDate | src/db/lease.rs:68-69 | the fields of every instant are a date of the Gregorian calendar, and the instant is that date counted in closed form, leap years and month lengths included |
| Calendar.PrintsAs | src/db/lease.rs:68-69 | a date prints as its fields in fixed widths with their separators, then the fraction and the offset |
| Calendar.FractionIs | src/db/lease.rs:68-69 | no fraction for whole seconds, otherwise 3, 6 or 9 digits, the fewest that lose nothing |
| Text.ShowIntInjective | src/server/controller.rs:350-350 | two indices print alike only when they are equal |
| Lease.LeaseTable.Execute | src/db/lease.rs:75-86 | the conditional UPSERT on TEXT is the conditional UPSERT on instants |
| Lease.LeaseManager.TryAcquire | src/db/lease.rs:60-95 | won exactly when the row was missing, ours or expired and the answer came back; the row then expires TTL after the reading; on SQLite always won and nothing written |
| Lease.LeaseExclusion | src/db/lease.rs:68-86 | in every run of attempts by any servers, two writes of one lease by different holders are more than a TTL apart on the clocks |
| Lease.RealTimeExclusion | src/db/lease.rs:60-95 | with every clock within e of real time, no two holders are ever both within TTL - 2e of the reading they won with |
| Lease.ExpiryNeverDecreases | src/db/lease.rs:75-79 | a lease row never disappears and its expiry never moves back |
| Lease.RunIsExclusive | src/db/lease.rs:60-95 | the invariant of every run: the row is the trace of a write, bounds all writes, and separates holders |
| SchedulerLease.NoRebinding | src/server/scheduler.rs:67-131 | in every run of masters whose passes act within TTL - 2e of their reading, the unconditional UPDATE never lands on a pod that already has a node, reads and binds interleaving freely |
| SchedulerLease.NodeKeptIff | src/db/repository.rs:75-92 | a step that keeps a bound pod's row keeps its node if and only if it is not an upsert that names no node |
| SchedulerLease.BoundPodsKeepTheirNode | src/db/repository.rs:235-257 | so a bound pod keeps its node for as long as its row exists and nobody resets it with such an upsert |
| LeasedPasses.AcquireKeepsHolding | src/db/lease.rs:60-95 | while a pass is within TTL - 2e of its reading no other server gets the lease, whatever work the passes do |
| SchedulerLease.OnePassActs | src/server/scheduler.rs:67-83 | at most one pass is within its deadline at any time |
| SchedulerLease.DeadlineIsTight | src/server/scheduler.rs:67-131 | the deadline TTL - 2e cannot be relaxed: for every TTL, skew e up to half of it and allowance, however small, there is a run within that allowance in which a bound pod is moved |
| SchedulerLease.InvStep | src/server/scheduler.rs:67-131 | every step keeps: a pass that may act holds the lease and what is left of its batch is unbound |
| Cluster.PodTable.List | src/db/repository.rs:137-189 | the rows of the namespace whose labels contain the selector, in table order |
| Cluster.PodTable.Get | src/db/repository.rs:119-135 | the row of the key, or nothing |
| Cluster.PodTable.Create | src/db/repository.rs:58-117 | an upsert by (namespace, name); the key stays unique |
| Cluster.PodTable.Delete | src/db/repository.rs:191-203 | the row of the key is gone, every other stays, and the answer says whether it was there |
| Cluster.BindRowAt | src/db/repository.rs:235-257 | a bind changes the node of its own key's row if there is one, whatever node that row had, and answers for no other key |
| Rows.ListedIfUnscheduled | src/db/repository.rs:259-273 | the scheduler lists exactly the rows without node that are Pending |
| Cluster.PutRow | src/db/repository.rs:58-117 | an upsert answers for its own key and leaves every other key alone |
| Cluster.RemoveRow | src/db/repository.rs:191-203 | a deletion empties its own key and leaves every other key alone |
| Rows.CreatedIsNewest | src/db/repository.rs:58-117 | a pod created under a new key comes first in every listing and last in the scheduler's |
| Rows.OldestFirst | src/db/repository.rs:259-273 | of two rows the scheduler lists, the older comes first |
| Placement.OperatorsAgree | src/server/scheduler.rs:486-520 | node and pod selectors agree on their shared operators, each has its complement, and Gt and Lt exclude each other |
| Placement.PairMeansIn | src/server/scheduler.rs:579-611 | a matchLabels pair means the expression In with that one value |
| Placement.FindNodeForPod | src/server/scheduler.rs:190-280 | returns the position `Choice` specifies: an error exactly when no node is feasible, else the last feasible node of maximal score |
| Placement.Choice | src/server/scheduler.rs:270-279 | no node exactly when none is feasible; otherwise feasible, maximal in score, and later in the list than every other of that score |
| Placement.CheckNode | src/server/scheduler.rs:205-263 | the filter chain accepts exactly the nodes that are Ready, selected, affine, anti-affine and fit |
| Placement.CheckTerms | src/server/scheduler.rs:229-254 | the loop over terms is the conjunction of the terms |
| Placement.FilterNodes | src/server/scheduler.rs:200-265 | the candidates are exactly the feasible positions, in order |
| Placement.LastMaximum | src/server/scheduler.rs:272-277 | a maximum by key that keeps the later of equal keys |
| Placement.SumPodRequests | src/server/scheduler.rs:359-376 | the saturating container sums are the exact sums cut at u64::MAX |
| Placement.SumUsedOnNode | src/server/scheduler.rs:336-356 | the nested saturating sums over non-terminal pods on a node are the exact load cut at u64::MAX |
| Placement.NodeFits | src/server/scheduler.rs:378-404 | fits exactly when, for each resource with an allocatable below u64::MAX, exact load plus exact request stay within it |
| Placement.SaturatesOnce | src/server/scheduler.rs:336-376 | saturating after every addition is saturating once at the end |
| Placement.ScoreNode | src/server/scheduler.rs:290-332 | the score computed from saturated sums is the score of the exact loads |
| Placement.ScoreInRange | src/server/scheduler.rs:282-289 | every score lies in 0..=100 |
| Placement.ScoreFollowsLoad | src/server/scheduler.rs:282-332 | more load never raises the least-allocated score and never lowers the most-allocated one |
| Placement.StrategiesAreComplementary | src/server/scheduler.rs:282-332 | the two strategies give scores that sum to 100 or 101 when a resource is usable |
| Acceptable.NumbersCompare | src/server/scheduler.rs:501-510 | Gt holds of a printed i64 label exactly when it is greater than the printed first value, and Lt when it is less |
| Acceptable.PrintedIntParses | src/server/scheduler.rs:501-510 | a printed integer is read as itself, with or without a plus sign, exactly if it is an i64 |
| Acceptable.MeetsIs | src/server/scheduler.rs:486-513 | what each operator asks of a node, over its labels: one of the values carried, none, the key there or not, two numbers in order; any other operator asks nothing |
| Acceptable.FallsUnderIs | src/server/scheduler.rs:579-611 | what a label selector asks of a pod, pair by pair and expression by expression |
| Acceptable.InCompanyIs | src/server/scheduler.rs:522-573 | a term holds of a node exactly when some pod it is about runs on a listed node with the same value of the topology key, a later node of the same name counting; an anti-affinity term when none does |
| Acceptable.TakesIs | src/server/scheduler.rs:205-263 | the filters are together what they ask: readiness, every selector pair, one node term in full, company for every term, none for any anti-affinity term, and room for the sum of the container requests beside those of the pods on the node that have not ended |
| Acceptable.ChosenTakes | src/server/scheduler.rs:190-280 | the chosen node offers all that, and no node is chosen only if none does |
| Acceptable.RequiredCompany | src/server/scheduler.rs:229-241 | for every required affinity term some pod in the list is company of the chosen node, and a term that finds company on no node leaves the pod unplaced |
| Acceptable.ScoreRates | src/server/scheduler.rs:290-332 | the score in whole numbers: the percentage of the allocatable that is taken or left once the pod is there, averaged over the resources the node states, to the nearest whole with halves up |
| Acceptable.ChosenRatesBest | src/server/scheduler.rs:267-279 | the chosen node rates at least as high as every node that takes the pod, and comes after all that rate the same |
| SchedulerTick.Scheduler.SchedulePendingPods | src/server/scheduler.rs:85-132 | the batch loop takes the shared table through a tick: every pod in turn, its target the choice against the pods seen by then, for any fate of every bind; a failed listing is an empty one |
| SchedulerTick.Scheduler.SchedulePod | src/server/scheduler.rs:134-186 | one placement: choose, bind, and record the bound copy only when the answer comes back; an unanswered bind may still have changed the row |
| SchedulerTick.CapacityRespected | src/server/scheduler.rs:85-132 | at every turn of a tick no listed node holds more, in exact unbounded sums, than its allocatable or its load at the start, plus the requests of the binds on it that executed unanswered; with none of those, that is the capacity guarantee, for any batch order and failures |
| SchedulerTick.LostAnswerOvercommits | src/db/repository.rs:235-257 | the excess is real: two pods that fit a node one at a time both end on it when the first answer is lost |
| LostAnswers.KeepsCapacityIff | src/server/scheduler.rs:111-130 | on a Ready node that offers the resource, every tick with a given pattern of bind outcomes keeps capacity at every turn if and only if no lost answer is followed by an executed bind |
| LostAnswers.KeepsApartIff | src/server/scheduler.rs:242-254 | every tick with a given pattern of bind outcomes binds every pod apart from all rows its terms select that are bound by then, if and only if no lost answer is followed by an executed bind |
| SchedulerTick.TickKeepsBooks | src/server/scheduler.rs:111-130 | throughout the tick, on every node and from any listing, the table has gained exactly what the pods seen have gained and what was bound unanswered |
| SchedulerTick.FailedListingAddsAtMost | src/server/scheduler.rs:112-114 | with the empty fallback listing a node takes at most its allocatable on top of what it runs |
| SchedulerTick.FailedListingHarmlessIff | src/server/scheduler.rs:112-114 | on a Ready node every tick with the fallback listing and no answer lost stays within capacity if and only if the node starts without load or offers none of the resource |
| SchedulerTick.TickOnlyBinds | src/server/scheduler.rs:85-132 | a tick adds and removes no row and changes none but by binding an unscheduled pod to a listed node |
| SchedulerTick.SeenBindingsAreStored | src/server/scheduler.rs:120-130 | every binding recorded for later pods is in the table, and stems from the batch |
| SchedulerTick.BindsLast | src/server/scheduler.rs:85-132 | what a turn binds is in the table for the rest of the tick, answered or not |
| SchedulerTick.AntiAffinityHolds | src/server/scheduler.rs:242-254 | the pod of any turn shares no topology value of its required anti-affinity term with any row the term selects that was bound before it, at the start or earlier in the tick, unless that row was bound unanswered in this tick |
| SchedulerTick.LostAnswerBreaksAntiAffinity | src/server/scheduler.rs:115-130 | the exception is needed: two pods that repel each other end on one node when the first answer is lost |
| SchedulerTick.TargetAvoids | src/server/scheduler.rs:522-573 | a chosen node shares no topology value with a selected pod on a listed node |
| SchedulerTick.ListingIsBatch | src/db/repository.rs:259-273 | the unscheduled listing yields each unbound Pending row once |
| TickAmongWriters.CapacityAmongWriters | src/server/scheduler.rs:85-132 | the same bound on every node at every moment while others, between the tick's statements, make changes that load no node further and grow no pod of the batch |
| TickAmongWriters.DeletingIsCalm | src/db/repository.rs:191-203 | deleting a pod is such a change |
| TickAmongWriters.PhaseChangeIsCalm | src/db/repository.rs:205-233 | so is reporting a phase, short of reviving a pod that has ended |
| TickAmongWriters.CreatingUnboundIsCalm | src/db/repository.rs:58-117 | so is creating a pod without a node under a key that is not in the batch, over an existing row too |
| TickAmongWriters.TickIsRun | src/server/scheduler.rs:111-130 | every tick is such a run in which the others do nothing |
| TickAmongWriters.AntiAffinityAmongWriters | src/server/scheduler.rs:242-254 | a pod's target shares no topology value with any row its term selects that is bound by then, unless that row was bound unanswered in this tick, while others make changes that bind nothing and replace no pod of the batch |
| TickAmongWriters.DeletingIsGentle | src/db/repository.rs:191-203 | deleting a pod is such a change |
| TickAmongWriters.PhaseChangeIsGentle | src/db/repository.rs:205-233 | so is reporting any phase |
| TickAmongWriters.CreatingUnboundIsGentle | src/db/repository.rs:58-117 | so is creating a pod without a node under a key that is not in the batch, over an existing row too |
| Deployments.ControllerManager.ReconcileDeployment | src/server/controller.rs:100-241 | one pass creates or deletes as `Reconcile` says, whichever statements fail, and reports the Running owned pods; a failing listing changes nothing and reports nothing |
| Deployments.ControllerManager.ReconcileDeployments | src/server/controller.rs:82-97 | a deployment whose listing or statements fail does not stop the ones after it: the whole pass is `ReconcileAll` |
| Deployments.ControllerManager.CreateMany | src/server/controller.rs:167-177 | a failed create is skipped and the rest go on |
| Deployments.ControllerManager.DeleteFirst | src/server/controller.rs:202-208 | deletes go to the first surplus owned pods; failures are ignored |
| Deployments.FullPassConverges | src/server/controller.rs:82-241 | with independent deployments and fresh names a full pass leaves every count between its old value and its target, and at the target for all at once when nothing fails |
| Deployments.FullPass | src/server/controller.rs:82-241 | each count moves towards its target by exactly its own statements that took effect, none if its listing failed |
| Deployments.FullPassSparesOthers | src/server/controller.rs:82-241 | a pod that carries none of the deployments' uids comes through a full pass unchanged, and a pass adds only pods that carry one of the uids and no other |
| DeploymentLease.NoOvershoot | src/server/controller.rs:45-56 | in every run of any number of masters over any deployments, their passes acting within TTL - 2e of their reading, with creates, deletes and placements interleaving freely: from any moment on each count stays between what it was and its target |
| DeploymentLease.InvStep | src/server/controller.rs:82-218 | every timely step keeps: a pass that may act holds the lease, its plan does not lead past the target and its victims are there |
| DeploymentLease.LatePassOvershoots | src/server/controller.rs:45-56 | with any later deadline a deployment that lacks one pod can end up with one too many |
| DeploymentLease.PlanIsReconcile | src/server/controller.rs:156-208 | the plan of a listing, performed undisturbed, is the reconciler's pass |
| Deployments.ReconcileMovesCount | src/server/controller.rs:156-208 | one pass moves the count by exactly the statements that succeeded |
| Deployments.DeploymentConverges | src/server/controller.rs:156-208 | without failures one pass reaches the target |
| Deployments.ConvergesIffSelected | src/server/controller.rs:111-140 | when pods are missing, a pass without failures reaches the target if and only if the selector selects the template; otherwise it adds the missing number of pods and the count stands still |
| Deployments.ReconcileSparesOthers | src/server/controller.rs:142-153 | no pod lacking the deployment's uid is deleted or changed, and what is added carries only that uid |
| Deployments.ReconcileKeepsOtherCounts | src/server/controller.rs:142-208 | a pass leaves every other deployment's count alone |
| Deployments.CreationsCount | src/server/controller.rs:243-297 | creations under fresh names add exactly the successes to every count they belong to, and lose no row |
| Deployments.CreatedPodAwaitsScheduling | src/server/controller.rs:243-297 | a created pod is in the scheduler's next listing if and only if the template names no node |
| Deployments.DeletionsCount | src/server/controller.rs:202-208 | deletions take exactly the successes from every count their victims belong to |
| Templates.DeploymentCounts | src/server/controller.rs:111-153 | which pods a Deployment counts: its own in its namespace with the labels of its selector, or of its template if the selector is empty |
| Templates.DeploymentWants | src/server/controller.rs:103-103 | a Deployment and a StatefulSet want one pod unless they say, and none for a negative number |
| Templates.DeploymentCreates | src/server/controller.rs:243-297 | every row a pass adds has the labels, containers, node selector, affinity and node of the template, the Deployment's namespace and uid, phase Pending, and a name of the Deployment's, a hyphen and a drawn suffix |
| Templates.StatefulSetCreates | src/server/controller.rs:836-866 | every row a StatefulSet's pass adds is the same of its template, under the set's name, a hyphen and one of the wanted indices in decimal |
| Templates.TargetsAccept | src/server/controller.rs:443-455 | a DaemonSet is for exactly the listed nodes that carry every label of its template's node selector |
| Templates.DaemonSetOwns | src/server/controller.rs:461-482 | which pods a DaemonSet takes for its own; with no labels to ask for, none |
| Templates.DaemonSetCreates | src/server/controller.rs:869-903 | every row a DaemonSet's pass adds is the same of its template but bound to a listed node that its template accepts and on which the set had no pod |
| StatefulSets.ControllerManager.ReconcileStatefulSet | src/server/controller.rs:339-411 | one pass over the table is `Reconcile` on the set's numbered slots, with the walk's counters, and changes no row outside the set's names |
| StatefulSets.ControllerManager.CreateInOrder | src/server/controller.rs:349-393 | the creating walk with its breaks, under any pattern of failing reads and of creates that fail, or execute and lose their answer |
| StatefulSets.ControllerManager.TrimAbove | src/server/controller.rs:397-408 | the descending trim, under any pattern of failing reads and deletes |
| StatefulSets.IndexDecidesName | src/server/controller.rs:350-350 | distinct indices have distinct pod names |
| StatefulSets.OrderedWalk | src/server/controller.rs:349-393 | in OrderedReady mode a pass creates at most the first pod not read Running and nothing else; ready is the length of the all-Running prefix up to desired, and current is ready or ready + 1 |
| StatefulSets.ParallelWalk | src/server/controller.rs:346-394 | a Parallel pass whose creates are answered passes every wanted index, counts the pods it reads and the Running ones, and creates each it does not read |
| StatefulSets.WalkKeepsNoGaps | src/server/controller.rs:349-393 | creation leaves no gap among the indices, in both modes and whatever fails |
| StatefulSets.ExistingKeptIff | src/server/controller.rs:352-370 | a pass leaves every wanted pod that exists as it was if and only if no read of one that the walk comes to fails and is followed by an executed create |
| StatefulSets.FailedReadUnbinds | src/server/controller.rs:367-370 | one failed read of a running, bound first pod makes it an unscheduled pod again, when the template names no node |
| StatefulSets.NoGapsKept | src/server/controller.rs:395-408 | with deletes succeeding, a set without gaps stays so if and only if no pod sits exactly 32 above desired |
| StatefulSets.TrimReach | src/server/controller.rs:395-408 | with deletes succeeding, no index from desired up survives if and only if none was 32 or more above it |
| StatefulSets.RoundLowersDeficit | src/server/controller.rs:339-411 | a pass without failures followed by its pods starting strictly lowers missing-plus-not-running, until it is zero |
| StatefulSets.StatefulSetConverges | src/server/controller.rs:339-411 | after at most as many rounds as the deficit, every wanted pod runs, in both modes |
| DaemonSets.ControllerManager.ReconcileDaemonSet | src/server/controller.rs:438-547 | one pass over the table is `Reconcile`, and the three status counts are those of the listing before it |
| DaemonSets.ControllerManager.ListOwned | src/server/controller.rs:464-485 | the owned pods; an effective selector that is empty lists nothing |
| DaemonSets.ControllerManager.CreateOnTargets | src/server/controller.rs:492-522 | one create per target not covered before the pass; failures go on |
| DaemonSets.ControllerManager.DeleteOffTargets | src/server/controller.rs:524-535 | deletes go to owned pods bound outside the targets; failures are ignored |
| DaemonSets.DaemonSetPass | src/server/controller.rs:438-547 | whatever fails no node goes from one owned pod to two, targets lose none and other nodes gain none; without failures each target has one and no other node any |
| DaemonSets.NextPassChangesNothing | src/server/controller.rs:438-547 | after a pass without failures the next pass, whatever its own outcomes, changes nothing |
| DaemonSets.SettledStays | src/server/controller.rs:487-535 | a table whose covered nodes are the targets is a fixed point |
| DaemonSets.CreatedPodSkipsScheduler | src/server/controller.rs:869-904 | a created pod is stored bound to its node and the scheduler never lists it |
| DaemonSets.PassOnNode | src/server/controller.rs:487-535 | the number of owned pods on a node changes by exactly the statements that succeeded there |
| DaemonSets.CoversIffSelected | src/server/controller.rs:464-485 | a pass without failures covers an uncovered target, with one pod, if the selector is not empty and selects the template; otherwise the target stays uncovered |
| WatchBus.Bus.HandleNotification | src/server/mod.rs:252-304 | an own row, an unknown verb or kind, or a missing row broadcast nothing; any other row its decoded event |
| WatchBus.ChangeLog.PruneOlderThan | src/db/change_log.rs:73-80 | the DELETE that compares TEXT keeps exactly the rows whose instants are within the TTL of the pruner's clock, and counts the others |
| WatchBus.PruneAgrees | src/db/change_log.rs:73-80 | deleting by text order and deleting by time order leave the same rows, for any mix of fraction lengths |
| WatchBus.RowsAreKept | src/db/change_log.rs:73-80 | with clocks at most e off, no row is pruned within TTL - 2e of its stamp |
| WatchBus.RowRoundTrip | src/server/mod.rs:253-303 | a peer decodes exactly the published event if its kind is listed; the origin ignores its own row |
| WatchBus.PublishedKindsDecode | src/server/mod.rs:258-296 | a peer's row is republished, for what it says, exactly when its kind is one of the fourteen the servers publish and its verb one of the three words |
| WatchBus.PrunedWhen | src/server/mod.rs:324-336 | a row is pruned exactly once it is more than five minutes old |
| WatchBus.StepSends | src/server/bus.rs:144-220 | each step of the cluster machine sends on a server exactly what its method sends |
| WatchBus.StepInv | src/server/bus.rs:231-257 | every step of replication, notification, loss, pruning and republication keeps the invariant |
| WatchBus.NoEcho | src/server/bus.rs:144-257 | in every run of N servers each publication is on its origin's broadcast exactly once, on each peer's at most once, unaltered, and nothing unpublished anywhere |
| WatchBus.QuietDelivery | src/server/mod.rs:238-312 | in a run come to rest, a peer has an event exactly when its replication was not aborted, its kind is listed and the peer did not miss the notification |
| WatchBus.Agreement | src/server/mod.rs:238-347 | if every row is replicated and, with servers' clocks at most e off, every notification is taken within TTL - 2e of its row's stamp, all servers have broadcast the same multiset of events |
| WatchStream.Watcher.constructor | src/server/table.rs:171-192 | subscribed at the end of the broadcast; snapshot then bookmark queued |
| WatchStream.Watcher.Poll | src/server/table.rs:198-219 | one turn of the live task: forward, skip, stop on lag or hang-up |
| WatchStream.Watcher.Drain | src/server/table.rs:198-219 | the live task until it blocks forwards exactly the matching events it passes, and stops for good only when it lags or finds the client gone |
| WatchStream.RunGapFree | src/server/table.rs:194-220 | in every run the changes sent are the snapshot and then, without gap, duplicate or reordering, the matching events since the subscription up to the receiver's position |
| WatchStream.OpensWith | src/server/table.rs:175-188 | a watch begins with every object of the snapshot, as added and in order, and one bookmark |
| WatchStream.ForwardedTells | src/server/bus.rs:84-94 | the lines sent tell, in order, of exactly the events of the kind, in the namespace if one is asked for; an object without namespace is in none |
| WatchStream.TakeStopsWhen | src/server/table.rs:193-218 | the live task goes on while the client is at most 1024 events behind, and stops beyond that, or at the first event it would send a client that is gone |
| WatchStream.StoppedStreamGoesOn | src/server/table.rs:208-236 | once the live task has stopped no change is ever sent again, yet while the client reads the keepalive task keeps the stream open |
| WatchStream.ListThenSubscribe | src/server/table.rs:272-288 | the client misses nothing since its list was read if and only if no matching event fell between the read and the subscription |
| LogText.UnsplitOfSplit | src/node/runtime/embedded.rs:503-516 | splitting a byte stream into lines loses nothing: joined again it is the stream, with at most a final newline |
| LogText.SplitOfUnsplit | src/node/runtime/embedded.rs:503-516 | joined lines split back into themselves, whatever follows |
| LogText.Render | src/node/runtime/embedded.rs:555-590 | the rendering loop computes since, tail, text and limit as specified |
| LogText.KeepLines | src/node/runtime/embedded.rs:556-569 | exactly the lines that parse and are not too old, in order |
| LogText.CutToTail | src/node/runtime/embedded.rs:570-575 | the last `n` lines; none for a negative `n` |
| LogText.Truncate | src/node/runtime/embedded.rs:580-587 | the longest prefix within the limit that ends at a character boundary |
| LogText.Floor | src/node/runtime/embedded.rs:581-585 | the largest boundary at or below the limit |
| LogText.SplitRecord | src/node/runtime/embedded.rs:592-598 | a stored line parses into its timestamp and its text, spaces in the text included |
| LogText.RenderConcat | src/node/runtime/embedded.rs:555-590 | without tail and limit, rendering distributes over every split at a line end |
| LogText.RenderStored | src/node/runtime/embedded.rs:555-590 | a stored line renders as its text, one final carriage return stripped |
| LogText.DefaultRenderingIsTexts | src/node/runtime/embedded.rs:555-606 | default rendering returns the texts, one line each |
| LogText.LiveStored | src/node/runtime/embedded.rs:608-614 | a line renders live as its text when that is valid UTF-8, and not at all otherwise |
| LogText.FileValid | src/node/runtime/embedded.rs:530-533 | the log file is valid UTF-8 exactly when every text is |
| LogText.BacklogAgainstLive | src/node/runtime/embedded.rs:539-614 | reading the file back shows what line-by-line live rendering shows if and only if every text is valid and none ends in a carriage return, or no text is valid |
| LogViews.RenderShows | src/node/runtime/embedded.rs:555-589 | rendering the file of some records shows those not too old, of these the last as many as the tail says, each as its timestamp and a space if wanted and its text; then the limit cuts |
| LogViews.TailShowsTheLast | src/node/runtime/embedded.rs:570-574 | a tail of n shows what a file of the last n records shows without a tail |
| LogViews.TailBounds | src/node/runtime/embedded.rs:570-574 | a tail longer than the log shows all of it, and an empty or negative one nothing |
| LogViews.LimitIsLongestValid | src/node/runtime/embedded.rs:580-586 | a limit shows the longest valid UTF-8 beginning of at most so many bytes |
| LogViews.ReadShows | src/node/runtime/embedded.rs:531-589 | both together, from the file: the longest valid beginning of the chosen lines, at most three bytes short of the limit |
| LogViews.StripCrIs | src/node/runtime/embedded.rs:558-558 | one carriage return goes from the end of a line, if there is one |
| LogViews.ForeignLine | src/node/runtime/embedded.rs:593-597 | a line without a space shows nothing, one with a single space an empty text, any other what is behind its second space |
| Utf8.ValidMeansEncoded | src/node/runtime/embedded.rs:533-533 | the validity that reading a file needs holds exactly of the UTF-8 encodings of scalar values |
| ContainerLog.Log.Append | src/node/runtime/embedded.rs:473-488 | the broadcast grows by the line, the file by as much of it as the ignored write puts there |
| ContainerLog.IntactIff | src/node/runtime/embedded.rs:485-488 | the file holds what was broadcast if and only if no write failed, whole or in part |
| ContainerLog.UnwrittenIsMissed | src/node/runtime/embedded.rs:485-488 | a line of which nothing was written is missing from every later backlog, and only that line |
| ContainerLog.FileShows | src/node/runtime/embedded.rs:485-488 | whatever writes fail and however much of each line they leave, the file's lines: each line written whole closes everything left open since the one before |
| ContainerLog.PartRunsOn | src/node/runtime/embedded.rs:485-488 | a line written in part runs into the next one: the file is that of the log with the two merged into one record, wherever the cut is |
| ContainerLog.BacklogRunsOn | src/node/runtime/embedded.rs:555-606 | cut in its text, the line shows with the whole next stored line, timestamp and tag included, behind it |
| ContainerLog.Log.Pump | src/node/runtime/embedded.rs:492-519 | for any chunking a pump broadcasts exactly its stream split into lines, a non-empty trailing partial included |
| ContainerLog.Log.DrainLines | src/node/runtime/embedded.rs:505-509 | the drain loop appends the complete lines and leaves a buffer without newline |
| ContainerLog.Log.SnapshotAndFollow | src/node/runtime/embedded.rs:539-551 | the backlog renders what was written of exactly the lines broadcast before the subscription |
| ContainerLog.LogShowsTheStream | src/node/runtime/embedded.rs:492-590 | end to end: pumping a stream of valid lines without final carriage returns and reading the log back returns its bytes, with at most a final newline |
| ContainerLog.PumpsKeepStreamsApart | src/node/runtime/embedded.rs:492-519 | for any chunking and interleaving of pumps, a stream's stored lines then its buffer are that stream split into lines |
| ContainerLog.PumpCompletes | src/node/runtime/embedded.rs:500-521 | and whatever the chunks, there are steps that take them all in, end the pump, and leave in the log the lines of the whole stream |
| ContainerLog.ReceivesNext | src/node/runtime/embedded.rs:1089-1102 | a follower at most 256 lines behind gets the next line; one further behind skips to the last 256 |
| ContainerLog.FollowInOrder | src/node/runtime/embedded.rs:1076-1116 | with any lag a follower gets an in-order subsequence of the lines since its snapshot, the skipped ones counted exactly |
| ContainerLog.FollowExact | src/node/runtime/embedded.rs:539-551 | a follower that never falls more than the fan-out behind: the lines before its snapshot, those delivered and those buffered are the log |
| ContainerLog.FollowerShows | src/node/runtime/embedded.rs:1076-1116 | what such a follower has been shown is the rendering of the log up to its position, if the lines before its snapshot were written; later write failures do not touch it |
| Layers.RootFs.ClearDirectory | src/node/oci/image.rs:169-184 | emptying child by child removes exactly the paths below the directory, and nothing when it is none |
| Layers.RootFs.ApplyEntry | src/node/oci/image.rs:132-163 | one tar entry in place: opaque, whiteout, skipped or unpacked, and the tree stays well formed |
| Layers.RootFs.ExtractTar | src/node/oci/image.rs:125-167 | one layer in place, stopping at the first entry that fails |
| Layers.RootFs.ApplyLayers | src/node/oci/image.rs:93-108 | the layers in order, stopping at the first that fails |
| Layers.ExtractIsTrace | src/node/oci/image.rs:125-167 | read at one path the in-place tree is decided by the entries that concern the path, in order |
| Layers.LayerIsUnion | src/node/oci/image.rs:125-167 | a layer that unpacks, none of whose markers goes up on its way below the root, leaves exactly its declarative union with what was there if and only if no version of a path is followed by a marker that covers it; markers that act outside leave the tree alone |
| Layers.OrderedLayerUnpacks | src/node/oci/image.rs:125-167 | with markers before the entries they cover and no type change, every entry unpacks and the result is the union |
| Layers.ImageIsUnion | src/node/oci/image.rs:93-108 | a stack of such layers unpacks, and leaves the union folded layer by layer |
| Layers.ImageIsTopmost | src/node/oci/image.rs:93-108 | at every path it leaves the topmost layer's version that no later layer hides; failing that the base's, under the same condition; failing that a directory some layer needs and none after it hides; failing that nothing |
| Layers.TopmostIsUnique | src/node/oci/image.rs:93-108 | that version over layer indices and the fold of unions are the same, at every path |
| Layers.LateWhiteoutDeletesOwnEntry | src/node/oci/image.rs:144-154 | a whiteout after the entry it names deletes it, which the union keeps |
| Layers.MarkersMean | src/node/oci/image.rs:137-154 | the opaque marker empties exactly the directory it stands in; a whiteout removes exactly the named sibling and what is below it |
| Layers.ConfinedIff | src/node/oci/image.rs:138-162 | whatever directory the root is, the paths a layer's markers hand the file system lie below it if and only if no marker is absolute or climbs above the root; other entries always do |
| Layers.MarkerConfinedIff | src/node/oci/image.rs:138-157 | the same for one marker, joined to the root as `Path::join` does and resolved by name |
| Layers.ClimbsIff | src/node/oci/image.rs:160-162 | a path climbs if and only if some first part of it has more `..` than names |
| Layers.AbsoluteMarkerActsOutside | src/node/oci/image.rs:147-157 | a whiteout with an absolute path leaves the tree alone and is handed on as it stands |
| Layers.ResolvesIff | src/node/oci/image.rs:137-157 | a path with `..` leads where they resolve by name, exactly if there is a directory at every place on the way |
| Layers.DetoursMean | src/node/oci/image.rs:137-157 | a marker whose path goes up does there what the plain marker would do, and nothing if the path leads nowhere; a name of one dot empties the marker's own directory, of two dots the one above |
| Layers.StepOk | src/node/oci/image.rs:125-167 | every entry keeps parents existing and directories |
| Ipam.Ipam.Allocate | src/node/network/ipam.rs:45-60 | a pod's own octet, or the first free one in 2..=254, or none; leases stay distinct |
| Ipam.Ipam.Release | src/node/network/ipam.rs:62-68 | the pod's octet is free again and nothing else changes |
| Ipam.FreeFrom | src/node/network/ipam.rs:52-54 | the least free octet |
| Ipam.AllocateOk | src/node/network/ipam.rs:45-60 | allocation keeps the octets distinct, in range and equal to what is taken |
| Ipam.ExhaustedMeans | src/node/network/ipam.rs:52-54 | allocation fails exactly when the pod has none and pods hold all of 2..=254 |
| Ipam.AllocateIsStable | src/node/network/ipam.rs:43-60 | allocating again gives the same octet, and releasing restores the state before |
| Ipam.RoomForAll | src/node/network/ipam.rs:45-60 | 253 pods hold leases at most, and allocation fails for a new pod exactly when they do |
| Lifecycle.StepKeeps | src/node/runtime/embedded.rs:918-1004 | every step between await points, whatever its foreign calls do, keeps: leases are what is held, and each name's network is where its history of setups, teardowns and releases says |
| Lifecycle.AddressesAlwaysSafe | src/node/runtime/embedded.rs:203-261 | in every run, failed network teardowns included, taken is the gateway and the octets of names that are live, being created or torn down, and no two names hold one octet |
| Lifecycle.StrayIff | src/node/network/veth.rs:178-191 | a network without a lease, or with none but that of the setup about to replace it, exists if and only if a failed teardown of its name was followed by the release, or a failed setup was not undone, and no setup or teardown has cleared it since; every other network has its octet leased to its name |
| Lifecycle.ReleasedAfterTeardown | src/node/runtime/embedded.rs:246-250 | an address is released only after the teardown of its network was issued, and the network outlives it exactly if that failed or if a failed setup left it |
| Lifecycle.SharedOctetMeansStray | src/node/runtime/embedded.rs:971-979 | two networks have one octet only if one of them is stray |
| Lifecycle.StrayShares | src/node/network/veth.rs:56-64 | and then they can: after one failed teardown the next pod to be created gets the address of the network left behind |
| Lifecycle.AllocationFailsOnlyWhenFull | src/node/runtime/embedded.rs:952-952 | a creation fails for want of an address only when such names hold all of 2..=254 |
| Lifecycle.AtRest | src/node/runtime/embedded.rs:1036-1050 | with no call and no teardown under way the octets taken are those of live networked containers |
| Lifecycle.CreatingAdds | src/node/runtime/embedded.rs:918-1004 | a creation in which nothing fails leaves the container recorded with its octet leased and its network up, and nothing else changed |
| Lifecycle.PullFails | src/node/runtime/embedded.rs:947-947 | a creation whose image does not come leaves everything as it was |
| Lifecycle.AllocationFails | src/node/runtime/embedded.rs:952-952 | so does one that gets no address |
| Lifecycle.SetupFails | src/node/runtime/embedded.rs:954-964 | a creation whose network setup fails leaves the container recorded without a network and its address free; under the name stands what the setup could not take back |
| Lifecycle.BuildFails | src/node/runtime/embedded.rs:972-982 | a creation whose container cannot be built leaves nothing recorded and nothing leased, and no network unless its teardown fails |
| Lifecycle.SetupAndBuildFail | src/node/runtime/embedded.rs:956-982 | nor does one in which both fail |
| Lifecycle.Replaces | src/node/runtime/embedded.rs:932-943 | a creation under a live name first takes the old network down, then releases its address, and only then pulls |
| Lifecycle.Removes | src/node/runtime/embedded.rs:1036-1050 | a removal leaves nothing of the name but a network whose teardown failed |
| Lifecycle.RecordedWhenBuilt | src/node/runtime/embedded.rs:985-1000 | a container is recorded by the step that built it and by no other, with the network its setup left |
| Lifecycle.CreationEnds | src/node/runtime/embedded.rs:918-1004 | in every run a creation ends with the container recorded exactly if it was built, and otherwise with nothing of the name recorded or leased |
| RingPipe.RingPipe.Append | src/node/runtime/wasm.rs:778-796 | the contents become the last `capacity` bytes of old contents and new bytes |
| RingPipe.RingPipe.ShiftDown | src/node/runtime/wasm.rs:781-787 | the in-place front shift leaves the suffix |
| RingPipe.RingPipe.AppendAll | src/node/runtime/wasm.rs:772-796 | any sequence of writes |
| RingPipe.WritesKeepTheTail | src/node/runtime/wasm.rs:772-796 | after any writes of any sizes the contents are the last min(total, capacity) bytes of everything written |
| RingPipe.KeptIsLast | src/node/runtime/wasm.rs:776-795 | what one append keeps of the buffer and of the write is the suffix of both |

## Left out

- HTTP handlers, routes, table columns and printers, discovery, exec and port-forward proxying: plumbing.
- JSON and SQL syntax: rows are datatypes and statements functions; TEXT is compared byte-wise (the C collation).
- Foreign calls (libcontainer, wasmtime, bollard, rtnetlink, iptables, mounts, cgroups): steps that succeed or fail.
- Status updates, event records and bus publications that the reconcilers send after their table statements; the counts they would write are returned by the methods.
- A StatefulSet or DaemonSet pass whose own listing or node listing fails: it returns before it changes anything.
- Replica counts are unbounded integers: the i32 casts and the overflow of `desired + 32` near i32::MAX are not modelled.
- User edits through `update_pod` that set a node name, pods created already bound during a tick, and a batch pod deleted and created anew with larger requests before its bind: premises exclude them from the capacity and no-rebinding results.
- Pod garbage collection, the restart policy and the service endpoints of the controller, nodes and namespaces repositories, RBAC, Secrets and ConfigMaps: single-branch code.
- Preferred affinity, taints and matchFields: not implemented by the code.
- Binary64 rounding in scores: they use exact reals; rounding is written out for parsing quantities.
- `Cluster.PodTable.Create`: the spec's own nodeName and the node_name column are one field here; uid, addresses and container statuses of the row are not modelled. The read-back after the INSERT is not part of the method; a create whose read-back fails is one with its answer lost, which the reconcilers' inputs cover.
- `Placement.FindNodeForPod`: scores are exact reals, so a tie that binary64 rounding makes or breaks is not modelled.
- `Placement.ScoreNode`: the same.
- `Timestamp.TextOrderIsTimeOrder`: years above 9999, which chrono prints with a sign, are outside the result.
- `Layers.RootFs.ApplyEntry`: the tar crate's unpacking is not part of this repository; the model takes missing parents to be created, files to replace files, directories to keep their children, and a change between directory and non-directory, or a parent that is no directory, to fail. Hard links, parents reached through symbolic links, whiteouts whose rest is empty, and I/O errors of single deletions are not modelled. What a marker that acts outside the root does there is not modelled either.
- `Layers.LayerIsUnion`: carries the premise that no marker goes up on its way (`Layers.Direct`); `Layers.RootFs.ExtractTar` covers those that do.
- `ContainerLog.FollowExact`: nothing is said about when a follower ends. `src/node/runtime/embedded.rs:1086` can return before lines appended after the snapshot are sent, and the closed flag set at 524 is lost when nobody listens; the end of a follower is a step that may come at any time.
- `ContainerLog.Log.Pump`: two pumps on one log interleave in `ContainerLog.PumpsKeepStreamsApart`, on values; the method is one pump alone. The counter of open pumps is not modelled.
- `LogText.Render`: parsing a stored timestamp for `--since` is a parameter that says which timestamps are too old.
- `Lifecycle.StepKeeps`: a create call that is dropped half-way is not modelled; the runtime's calls run one at a time because they borrow it mutably, and detached teardowns run beside them.
- Restart counts, exit codes and start times of containers: plain fields that no result needs.
- `Ipam.Ipam.Allocate`: returns the octet; printing the address with its prefix is left out.
- Interface names, agent container names and port lists: their keys can collide, and no result is claimed about them. A network in `Lifecycle` is the namespace of its name; an interface in it that another pod's setup or teardown removes, because their interface names agree in eight characters, is not modelled.
