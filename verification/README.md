# Marketplace CSI driver: a verified model

The marketplace CSI driver mounts the buckets of datasets into pods. A node driver mounts one
folder per dataset below a pod's target path, repairs those folders when asked, and unmounts them.
An operator installs the driver, watches its pods, and asks the nodes for repairs by creating
health check objects, on which every node answers and the operator gives a verdict.

This project models that behaviour in Dafny and proves what it promises, with `dafny verify
dfyconfig.toml`. Code that changes things step by step is a class with methods and loops, each
proved equal to a specification function on values; the theorems are about those functions and
hold for every input, every run and every pattern of failing calls. Outside calls are parameters:
the helper that touches the file system (`MountSpec.Helper`), the Kubernetes API (a versioned
object, answers by call number, a fault for every call), clocks (readings passed in) and the
syntax check of a label requirement (`PodSelector.Syntax`).

| file | what it models |
|---|---|
| `PodSelector` | selector terms: the driver's matcher and the operator's validator |
| `MountSpec`, `Mount`, `MountTheorems`, `MountLaws` | first mount, repair and unmount of one target path |
| `NodeCheckSpec`, `NodeCheck`, `NodeConvergence` | a node's reaction to a health check: all datasets through a cache, or one dataset |
| `HealthCheckProtocol`, `HealthCheckActors` | the versioned check object rewritten by any number of nodes and the operator |
| `HealthCheckCalls`, `HealthCheckCompletion` | one update call in such a run; the verdict on the answers |
| `HealthCheckResponse` | a node's reaction and its answer put together |
| `Common`, `Wrappers` | answers, time, options and results |
| `Conditions` | the condition list of the operator and of the driver's pods |
| `PodTagging` | the JSON patch that marks a pod for tracking |
| `ApplySpec`, `ApplyLaws`, `ResourceApply` | the write-only-if-different engine |
| `DriverPass` | the order of applies in a driver reconcile and the restart flag |
| `DatasetClaims` | the dataset controller and the claim that datasets share |
| `DriverPods`, `PeriodicCheck`, `Roles`, `DriverReconcile` | driver-pod bookkeeping, the periodic timer and the role set-up |
| `DriverOperator` | a whole reconcile pass of the driver controller |

What the proofs show to be false of the code, each with a witness or the exact condition:

- Completion of a repair does not mean that the affected nodes answered, as unaffected nodes
  answer too and answers are only counted (`CompletionTrustworthyExactly`, `CompleteWithoutAffectedNodes`).
- An answer can be lost although nothing is refused: a node gives up after five conflicts and does
  not answer again (`UpdateCallGivesUpExactly`, `AnswerLost`).
- Repairs that fail are not failures to the operator: such pods are only missing from a node's
  count, and the verdict is still "complete" (`ErrorAnswerExactly`, `FailedRepairJudgedComplete`).
- The text of a failed answer never reaches the operator: the driver writes the key `status`, the
  operator's type reads `message` (`OperatorNeverSeesText`).
- A password file keeps the tail of a longer old credential (`StalePasswordTail`).
- A failed clean-up is swallowed, so an error-free repair can leave a folder unhealthy
  (`HealthyUnlessCleanUpFails`, `UnhealthyWithoutError`).
- A restart for a changed configuration is lost when a pass stops between the config map and the
  workloads (`RestartExactly`, `RestartLostWitness`).
- A storage class does not gain the owner of a later apply (`OwnerAfterApply`), and a dataset that
  is created again keeps the reference of its predecessor (`OwnReferenceEntered`).
- The repair of restarted driver pods is lost when the record is stored while the credential is
  invalid or the check cannot be created (`RepairAskedExactly`, `RepairLostWitness`); the check
  after a dataset change is lost when its creation fails (`OneCheckPerSpec`, `CheckLostWitness`).
- A pass can create two health checks, if it takes at least the interval itself (`TwoInOnePass`).
- The validator accepts malformed label pairs on which the matcher fails (`AcceptedYetFailing`).

## Model

| member | source | states |
|---|---|---|
| `MountTheorems.BatchDecomposition` | driver/pkg/driver/mount.go:69-119 | repairing the datasets `a ++ b` of distinct folders is repairing `a` and then `b`: same file system, the counts add, the error is that of `b` if it has one and else that of `a`; for every pattern of helper failures, provided writing the password file again to what it left behind has the same outcome |
| `MountTheorems.RepairOrderIndependence` | driver/pkg/driver/mount.go:88-117 | the order of the datasets changes neither the file system nor the count of a repair |
| `MountTheorems.FirstMountAndRepairAgree` | driver/pkg/driver/mount.go:34-119 | on an existing target path that holds none of the folders, first mount and repair end with the same file system, count and error, although repair lists folders, tests health and cleans up |
| `MountTheorems.RepairFrame` | driver/pkg/driver/mount.go:88-117 | whatever fails, a repair leaves healthy folders, names that are not its datasets (except the password file) and all other target paths exactly as they were |
| `MountTheorems.PresentFolderIgnoresSelector` | driver/pkg/driver/mount.go:88-100 | if the folder of a dataset is already listed, the result of the whole repair is the same for every selector the dataset could have, malformed ones included |
| `MountLaws.RepairSucceedsExactly` | driver/pkg/driver/mount.go:69-119 | a repair has no error if and only if the path is gone, there is no dataset, or the credential is written, every dataset that is neither listed nor selected has a selector without fault, and for every other one whose folder is missing, or unhealthy and cleaned away, the helper makes the folder and mounts it; said of the answers of the helper alone |
| `MountLaws.RepairCountsAndLeaves` | driver/pkg/driver/mount.go:85-118 | with the credential written, the count of a repair is the number of listed or selected datasets whose folder is missing, or unhealthy and cleaned away, and which the helper mounts; without an error all of these; and each folder is left as the answers of the helper say |
| `MountLaws.RepairReportsLast` | driver/pkg/driver/mount.go:88-117 | the error reported is that of the last dataset that has one: its selector, the refusal to make its folder, or the refusal to mount it |
| `MountLaws.MountSucceedsExactly` | driver/pkg/driver/mount.go:34-67 | a first mount has no error if and only if there is no dataset, or the path is there, the credential is written, no selector fails, and the helper makes, where missing, and mounts the folder of every selected dataset |
| `MountLaws.MountCountsAndLeaves` | driver/pkg/driver/mount.go:49-66 | with the credential written, the count of a first mount is the number of selected datasets that the helper mounts, without an error all selected ones; and each folder is left as the answers of the helper say |
| `MountLaws.MountReportsLast` | driver/pkg/driver/mount.go:50-64 | the error reported is that of the last dataset that has one |
| `MountLaws.NothingWithoutCredential` | driver/pkg/driver/mount.go:41-44 | when the credential cannot be written, both passes answer its error with count 0 and change nothing but the password file |
| `MountLaws.CredentialReadBack` | driver/pkg/driver/mount.go:185-191 | the line written splits at its first colon into the access key and the secret, or for a pull secret into nothing and the access key, provided the access key has no colon |
| `MountLaws.CredentialStored` | driver/pkg/driver/mount.go:185-204 | after a pass that wrote it over nothing longer, the password file holds a line that reads back as the credential of the volume |
| `MountTheorems.Convergence` | driver/pkg/driver/mount.go:88-118 | after a repair without error, with clean-ups succeeding and mounted buckets listing non-empty, every dataset that was listed or selected is healthy |
| `MountTheorems.SecondRepairIsIdle` | driver/pkg/driver/mount.go:69-119 | a second repair after such a one changes nothing and returns count 0 and no error |
| `MountTheorems.HealthyUnlessCleanUpFails` | driver/pkg/driver/mount.go:242-253 | a failed clean-up is swallowed: after an error-free repair a concerned dataset is healthy if and only if its folder did not first need a clean-up that leaves it unhealthy |
| `MountTheorems.UnhealthyWithoutError` | driver/pkg/driver/mount.go:242-253 | one broken folder that cannot be cleaned: no error, and still broken |
| `MountTheorems.PublishThenUnpublish` | driver/pkg/driver/mount.go:34-140 | from an empty path the mount creates the password file and folders of selected datasets only, and exactly these if it returns no error; unmounting then leaves exactly those of them that are not listed or whose clean-up fails; the target path goes if and only if there are none and it can be removed itself; no other path changes |
| `MountTheorems.FirstAllNames` | driver/pkg/driver/mount.go:49-65 | the first-mount loop removes no name and adds none but folders of selected datasets; without an error it adds all of them |
| `MountTheorems.StalePasswordTail` | driver/pkg/helper/filesystem.go:85-96 | after a first mount or a repair that wrote its credential, the password file is exactly the credential if and only if there was none before or it was not longer, because the file is not truncated |
| `MountSpec.RepairAllAt` | driver/pkg/driver/mount.go:88-117 | each dataset acts on the initial state of its own folder, wherever it stands in the list |
| `MountSpec.RepairAllFrame` | driver/pkg/driver/mount.go:88-117 | the repair loop leaves every name that is not a folder of its list as it was |
| `MountSpec.RepairAllCount` | driver/pkg/driver/mount.go:85-117 | the returned count is the number of distinct datasets whose own step mounts |
| `Mount.Host.MountDatasets` | driver/pkg/driver/mount.go:34-67 | the first-mount loop: paths, count and error are those of MountPass, of which the laws above say when it has an error and what it counts |
| `Mount.Host.MountDataset` | driver/pkg/driver/mount.go:50-64 | one turn of that loop: selector error, not selected, or mount |
| `Mount.Host.ReconcileDatasets` | driver/pkg/driver/mount.go:69-119 | the repair: paths, count and error are those of RepairPass, of which the laws above say the same |
| `Mount.Host.RepairEach` | driver/pkg/driver/mount.go:85-118 | the repair loop equals the fold of single repairs over the datasets |
| `Mount.Host.RepairDataset` | driver/pkg/driver/mount.go:88-117 | one turn of that loop: a listed folder skips the selector, then the health test, then the mount |
| `Mount.Host.UnMountDatasets` | driver/pkg/driver/mount.go:122-140 | every listed entry is cleaned, then the target path; the resulting paths are those of UnmountPass |
| `Mount.Host.IsMountRequired` | driver/pkg/driver/mount.go:221-256 | mount is required unless the folder stats and lists non-empty; an unhealthy folder is cleaned first, and if that fails the dataset is skipped |
| `Mount.Host.MountDatasetS3` | driver/pkg/driver/mount.go:142-183 | a missing folder is created, then mounted; result and folder are those of MountOne; nothing else changes |
| `Mount.Host.WriteFile` | driver/pkg/driver/mount.go:185-207 | the credential is written over the start of the password file; the outcome and the entry left behind are those of WritePassword |
| `Mount.Host.GetMountedFolders` | driver/pkg/driver/mount.go:258-265 | the names below the target path, none when it cannot be listed |
| `Mount.Host.GetDatasetDirectoryNames` | driver/pkg/helper/filesystem.go:63-75 | every name once, none when the directory cannot be listed |
| `Mount.Host.CleanMountPoint` | driver/pkg/helper/filesystem.go:77-79 | a clean-up that succeeds removes the entry, one that fails may change it; nothing else changes |
| `Mount.Host.MkdirAll` | driver/pkg/helper/filesystem.go:81-83 | the folder exists and is empty if and only if the call succeeds |
| `Mount.Host.MountBucket` | driver/pkg/driver/mount.go:142-183 | the mount command and the wait, as one step that may fail and leaves its folder in any state |
| `NodeCheckSpec.AllDatasetsIsOneByOne` | driver/pkg/driver/reconcile.go:99-210 | with a stable API and distinct pod paths, the pass over all datasets with its cache leaves the same file systems as one single-dataset check per dataset and namespace, in any order, whatever helper calls fail |
| `NodeConvergence.NodeConverges` | driver/pkg/driver/reconcile.go:160-209 | after a pass over all pods of a node that reports no error, with clean-ups succeeding and buckets listing non-empty, every concerned dataset of every eligible pod is healthy |
| `NodeConvergence.SecondPassIsIdle` | driver/pkg/driver/reconcile.go:160-209 | and a second pass changes nothing on the node |
| `NodeConvergence.EachPodReported` | driver/pkg/driver/reconcile.go:196-206 | every eligible pod of a namespace with datasets gets a report on a repair of its path as it was before the pass |
| `NodeCheckSpec.CacheInvariant` | driver/pkg/driver/reconcile.go:171-188 | over any API answers: the cache holds exactly the namespaces listed successfully, each with the answer it got; failures are not remembered; no namespace is listed successfully twice |
| `NodeCheckSpec.CachedIsDirect` | driver/pkg/driver/reconcile.go:171-209 | with a stable API the cached pass has the file systems and the count of a pass that lists anew for every pod, and each entry equals the direct list |
| `NodeCheckSpec.CountIsSuccesses` | driver/pkg/driver/reconcile.go:160-209 | over any API answers, a pass adds to the count of pods exactly the number of reports without error that it makes |
| `NodeCheckSpec.OneCountIsSuccesses` | driver/pkg/driver/reconcile.go:125-146 | the same for the pass for one dataset |
| `NodeCheckSpec.ReadMeans` | driver/pkg/client/client.go:178-203 | reading a list succeeds unless it has items and none parses; it gives exactly the datasets of those that do, in their order, or else the message of the last item |
| `NodeCheckSpec.FailuresAskedAgain` | driver/pkg/driver/reconcile.go:171-181 | while no list call succeeds, every eligible pod makes one and nothing is repaired |
| `NodeCheck.PathExactly` | driver/pkg/driver/reconcile.go:172-186 | a pod is repaired at a path if and only if it runs and its annotation has that path |
| `NodeCheck.PodsInExactly` | driver/pkg/client/client.go:344-355 | a pod is selected if and only if it runs on the node, has the watch label with its value, and is in the namespace asked for, if any |
| `NodeCheckSpec.OnePassOverChosen` | driver/pkg/driver/reconcile.go:116-147 | listing the pods of one namespace first and skipping the pods of others while walking are the same |
| `NodeCheckSpec.RepairIsLocal` | driver/pkg/driver/mount.go:69-119 | a repair depends on and changes its own target path only |
| `NodeCheckSpec.OneByOneAt` | driver/pkg/driver/reconcile.go:99-147 | at one pod, any interleaving of single-dataset checks of all namespaces adds up to one repair with the datasets of its namespace |
| `NodeCheckSpec.DirectAt` | driver/pkg/driver/reconcile.go:160-209 | at one pod, a pass over all pods does what one repair of that pod does |
| `NodeCheckSpec.OneAt` | driver/pkg/driver/reconcile.go:126-147 | the same for the pass for one dataset |
| `NodeCheck.Api.GetMarketplaceDatasets` | driver/pkg/client/client.go:178-203 | unparsable items are dropped, unless no item parses: then the last of their errors is returned; every call is logged with its success |
| `NodeCheck.Api.GetPodsToReconcile` | driver/pkg/client/client.go:344-355 | the running pods of the node with the watch label, of one namespace or of all |
| `NodeCheck.NodeDriver.ProcessHealthCheck` | driver/pkg/driver/reconcile.go:75-97 | which file systems and which answer result from a check: none if it is older than the process, "no action" if the node is not affected, else the reaction to all datasets or to one |
| `NodeCheck.NodeDriver.ProcessHealthCheckAll` | driver/pkg/driver/reconcile.go:149-210 | file systems, reports and posted answer are those of the reaction; its answer is pinned by AnswerExactly and AnswerSays |
| `NodeCheck.NodeDriver.CheckAllPods` | driver/pkg/driver/reconcile.go:160-209 | the loop equals the fold CachedPass, API calls included |
| `NodeCheck.NodeDriver.CheckPod` | driver/pkg/driver/reconcile.go:162-208 | one turn of it: phase and annotation, cache, list, repair |
| `NodeCheck.NodeDriver.DatasetsFor` | driver/pkg/driver/reconcile.go:171-188 | the map is read first; only a successful list is stored |
| `NodeCheck.NodeDriver.ProcessHealthCheckForDataset` | driver/pkg/driver/reconcile.go:99-147 | the same for one dataset; a dataset that cannot be read gets no answer |
| `NodeCheck.NodeDriver.RepairInNamespace` | driver/pkg/driver/reconcile.go:113-146 | repair of one dataset in the pods of a namespace, or nothing when there are none |
| `NodeCheck.NodeDriver.CheckPodsForDataset` | driver/pkg/driver/reconcile.go:126-145 | its loop equals the fold OnePass |
| `NodeCheck.NodeDriver.RepairRunningPod` | driver/pkg/driver/reconcile.go:137-144 | a pod counts if and only if its repair returns no error; what came of it is reported for its condition |
| `NodeCheck.UpdatePodStatusOnReconcile` | driver/pkg/client/client.go:258-298 | the condition set for a report: true without an error, else a warning or an error by the count; nothing changes when the pod cannot be read or written |
| `NodeCheck.PodShows` | driver/pkg/client/client.go:258-298 | the pod condition after a report: Complete and True without an error; False otherwise, Warning if some dataset was mounted and Error if none was |
| `NodeCheck.NodeDriver.IsCheckNeededForThisNode` | driver/pkg/driver/reconcile.go:212-222 | true exactly for an empty list, a list with this node, or a list with an empty name |
| `NodeCheck.NodeDriver.UpdateHealthCheckStatus` | driver/pkg/driver/reconcile.go:232-244 | the answer posted for a count and an error |
| `NodeCheck.NodeDriver.UpdateHealthCheckStatusSkip` | driver/pkg/driver/reconcile.go:224-230 | the answer posted for a skipped check |
| `HealthCheckProtocol.EveryAnswerStands` | driver/pkg/client/client.go:365-399 | in every interleaving of any node drivers and the operator, the responses and pod counts of every stored version are exactly the last answers the nodes wrote before it |
| `HealthCheckProtocol.NoLostAnswers` | driver/pkg/client/client.go:365-399 | from any version on the entry of a node stays, and stays the same until that node writes again |
| `HealthCheckProtocol.RunKeepsInv` | driver/pkg/client/client.go:366-389 | invariant of every step of every actor: local copies equal the version they were read at, and history matches the writes |
| `HealthCheckProtocol.NothingAfterDelete` | driver/pkg/client/client.go:366-394 | once the object is deleted no version is stored and no call lands, whatever steps follow |
| `HealthCheckCalls.UpdateCallIsBounded` | driver/pkg/client/client.go:366-398 | however the others interfere, an update call makes at most five reads and at most five writes, and is over after the fifth write |
| `HealthCheckCalls.UpdateCallOutcome` | driver/pkg/client/client.go:365-399 | in every interleaving an update call has landed if and only if some version stored since it began holds its answer, and if and only if the node has written since; it writes no more than once; a call that gave up has changed nothing |
| `HealthCheckCalls.UpdateCallGivesUpExactly` | driver/pkg/client/client.go:365-399 | in every interleaving an update call gives up if and only if one of its own calls is refused or all five updates meet a conflict; each conflict costs the others a version, so with nothing refused and fewer than five versions stored meanwhile it lands |
| `HealthCheckCalls.AnswerLost` | driver/pkg/client/client.go:366-398 | the run in which nothing is refused and the answer is lost all the same: the operator rewrites the object within each of the five attempts |
| `HealthCheckCompletion.DeclaredByCount` | operator/controllers/marketplacedriverhealthcheck_controller.go:88-104 | for a duplicate-free list, the operator stops waiting if and only if the affected nodes that are missing are no more than the answers from nodes that are not affected |
| `HealthCheckCompletion.DeclaredCompleteIsSound` | operator/controllers/marketplacedriverhealthcheck_controller.go:88-104 | "no longer in progress" implies "all affected nodes answered" if and only if nobody is missing or uninvited answers are fewer than missing ones |
| `HealthCheckCompletion.CompletionIsStable` | operator/controllers/marketplacedriverhealthcheck_controller.go:88-122 | once every affected node has an accepted answer, every later version is judged complete or failed, and failed if and only if some recorded answer is Error |
| `HealthCheckCompletion.CompleteWithoutAffectedNodes` | driver/pkg/driver/reconcile.go:84-89 | for a list of any length: after any duplicate-free group of at least as many nodes has answered that it has nothing to do, the operator stores complete, although no affected node need be among them |
| `HealthCheckCompletion.CompletionTrustworthyExactly` | operator/controllers/marketplacedriverhealthcheck_controller.go:88-104 | over all runs and versions: if only given nodes can answer, not in progress means that every affected node answered if and only if all those nodes are in the list or they are fewer than its names |
| `HealthCheckCompletion.OperatorStoresVerdict` | operator/controllers/marketplacedriverhealthcheck_controller.go:88-120 | an accepted operator write stores a condition that says what the answers amount to: RepairInProgress and False with fewer answers than names, RepairFailed and False with enough and an Error among them, else RepairComplete and True |
| `HealthCheckCompletion.StoredVerdictExactly` | operator/controllers/marketplacedriverhealthcheck_controller.go:88-120 | over runs, in every version the operator writes: RepairInProgress and False if and only if fewer answers than affected names are recorded, RepairFailed and False if and only if there are enough and some is Error, RepairComplete and True if and only if there are enough and none is |
| `HealthCheckCompletion.StoredVerdictIsFinal` | operator/controllers/marketplacedriverhealthcheck_controller.go:88-122 | over runs: once every affected node has an accepted answer, every condition the operator stores says RepairComplete and True, or RepairFailed and False if and only if some answer is Error, and from the first such one on every version has one of these two reasons |
| `HealthCheckCompletion.ListsThatNameNobody` | operator/controllers/marketplacedriverhealthcheck_controller.go:90 | a check with an empty list is never in progress; one with one empty name is done at the first answer |
| `HealthCheckCompletion.OperatorNeverSeesText` | operator/api/v1alpha1/marketplacedriverhealthcheck_types.go:53 | in no run does the operator see the text of an error, as the driver writes it under another key |
| `HealthCheckCompletion.TextsLastUntilOperator` | operator/api/v1alpha1/marketplacedriverhealthcheck_types.go:42-54 | over runs: the text of a node is stored with its answer, no other entry changes with it, and the next write of the operator drops every text |
| `HealthCheckActors.World.UpdateHealthCheckStatus` | driver/pkg/client/client.go:365-399 | the get, change and update loop is a run of the protocol with at most five reads and five updates, whatever the others do between its calls; it lands if and only if some version stored meanwhile holds the answer, then the only write of the node; a landed call had nothing refused; one that did not land met a deleted object, a refused call, or five conflicts with as many versions of others, and has written nothing |
| `HealthCheckActors.World.Interfere` | driver/pkg/client/client.go:366-389 | what happens between two API calls is any sequence of steps of others |
| `HealthCheckActors.World.Turn` | driver/pkg/client/client.go:367-394 | one API call of the node after a turn of the others: refused, it ends the call; a read goes on; an update lands or meets a conflict, which ends the call if it was the last |
| `HealthCheckActors.World.Attempt` | driver/pkg/client/client.go:366-394 | one attempt: it lands, is repeated after a conflict, or ends the call for a stated reason |
| `HealthCheckActors.World.Repeat` | driver/pkg/client/client.go:366-398 | the retry loop: attempts are repeated exactly after conflicts, five times at most |
| `HealthCheckActors.CheckObject.UpdateHealthCheckCondition` | operator/controllers/marketplacedriverhealthcheck_controller.go:88-122 | the condition stored says what the answers amount to, with the literal reasons above, in whatever order they are visited, and quotes one of the errors; the requeue delay |
| `HealthCheckActors.RequeueExactly` | operator/controllers/marketplacedriverhealthcheck_controller.go:88-122 | the next look is after a day if and only if there are enough answers; else after five minutes, or an hour for a check older than an hour |
| `HealthCheckActors.Reconcile` | operator/controllers/marketplacedriverhealthcheck_controller.go:48-86 | a check that is gone needs nothing, one that cannot be read is an error; one older than a day is deleted and otherwise untouched; else the verdict is set; a refused status write is neither reported nor requeued |
| `HealthCheckResponse.Respond` | driver/pkg/driver/reconcile.go:75-97 | the repairs are those of the reaction, and its answer is what the update call writes; it lands unless the object is deleted, a call refused, or five updates meet a conflict; without an answer the check object is left alone |
| `HealthCheckResponse.AnswerExactly` | driver/pkg/driver/reconcile.go:75-210 | which answer a check gets: none if it is older than the process or names a dataset that cannot be read; NoAction if and only if the node is not affected; Error if the credential or the pods cannot be read; NoEligiblePods if no tracked pod of the node (in the namespace of a dataset check) is there; Repaired otherwise |
| `HealthCheckResponse.AnswerSays` | driver/pkg/driver/reconcile.go:146-244 | for both passes: an answer Repaired has the number of reports made without error since the start as its pod count, and the text Complete; the others have count 0, an Error the text of the failed read; only Repaired changes or reports anything |
| `HealthCheckResponse.ErrorAnswerExactly` | driver/pkg/driver/reconcile.go:99-244 | a node answers Error if and only if the check concerns it, the dataset (if named) can be read, and the credential or the pods cannot; repairs that fail never make it an error |
| `HealthCheckResponse.FailedRepairJudgedComplete` | driver/pkg/driver/reconcile.go:196-209 | one pod whose repair fails: answered Repaired with count 0, and judged complete |
| `HealthCheckResponse.NoErrorPostedNoFailure` | operator/controllers/marketplacedriverhealthcheck_controller.go:104-110 | in a run in which no node posts an error, no version is judged failed |
| `PodSelector.PodMatches` | driver/pkg/selector/podselector.go:45-67 | true if and only if the list is empty or some non-empty well-formed term holds; errors if and only if it is false and some non-empty term is malformed; then exactly the faults of those terms |
| `PodSelector.Matches` | driver/pkg/selector/podselector.go:69-115 | true if and only if the term is well-formed and holds; the errors are exactly its faults |
| `PodSelector.PartsMean` | driver/pkg/selector/podselector.go:45-115 | the empty list targets every pod and the empty term none; a list targets the pods of each of its parts; a label pair the pods that have it; an expression the pods that satisfy it |
| `PodSelector.TermMeans` | driver/pkg/selector/podselector.go:69-115 | a term targets exactly the pods that each of its label pairs and expressions alone targets |
| `PodSelector.OperatorsRelate` | driver/pkg/selector/podselector.go:78-105 | Exists is In for some value, DoesNotExist its negation, NotIn the negation of In, In a list of values In one of them |
| `PodSelector.GetPodLabels` | driver/pkg/selector/podselector.go:30-43 | the labels with the two name entries; they are written into the pod itself unless it has no labels |
| `PodSelector.NamesSelectable` | driver/pkg/selector/podselector.go:30-43 | the name and the name prefix of a pod can be selected like labels; its other labels are its own |
| `PodSelector.OrderIndependence` | driver/pkg/selector/podselector.go:51-66 | both results are the same for all lists with the same terms up to order and repetition of terms and expressions |
| `PodSelector.BadTermNeverHidesGood` | driver/pkg/selector/podselector.go:57-64 | a satisfied good term decides, whatever terms stand around it |
| `PodSelector.ValidateTerms` | operator/pkg/selector/podselector.go:27-58 | no error if and only if every expression of every term is well-formed; an error is that of some expression |
| `PodSelector.ValidatorPredictsMatcher` | operator/pkg/selector/podselector.go:27-58 | accepted with well-formed labels: the matcher never fails; rejected: it fails for every pod that no good term targets |
| `PodSelector.ValidatorFindsMalformed` | operator/pkg/selector/podselector.go:27-58 | no non-empty term is malformed if and only if the validator accepts and all label pairs are well-formed |
| `PodSelector.AcceptedYetFailing` | operator/pkg/selector/podselector.go:29-56 | the validator does not look at label pairs: an accepted selector on which the matcher fails |
| `Conditions.ConditionHistory` | operator/pkg/status/status.go:133-150 | every stored condition carries the clock reading of the call that began the latest unbroken stretch of calls of its type with one status, over every run from the empty list, serialised at any time in between |
| `Conditions.RunRefinesMap` | operator/pkg/status/status.go:133-179 | over every run of sets, removals and serialisations, types stay distinct and the list equals a map by type |
| `Conditions.TransitionTime` | operator/pkg/status/status.go:133-150 | such a beginning exists for every stored type, and gives its time and status |
| `Conditions.StretchIsUnique` | operator/pkg/status/status.go:140-142 | it is unique |
| `Conditions.StoredIsLastSet` | operator/pkg/status/status.go:133-179 | what is stored of a type has the content of its last set, and is absent if its last call was a removal |
| `Conditions.ConditionList.SetCondition` | operator/pkg/status/status.go:133-150 | returns false if and only if status, reason and message are those stored; then and only then the list is unchanged |
| `Conditions.ConditionList.RemoveCondition` | operator/pkg/status/status.go:168-179 | removes the type and says whether it was there |
| `Conditions.ConditionList.constructor` | operator/pkg/status/status.go:86-92 | the set made from a list of conditions is the run that sets them in turn |
| `Conditions.ConditionList.GetCondition` | operator/pkg/status/status.go:155-162 | the stored condition of the type, if any |
| `Conditions.SetThenFound` | operator/pkg/status/status.go:133-162 | the condition found after a set has the content that was set |
| `Conditions.SetElsewhere` | operator/pkg/status/status.go:133-162 | the conditions found of other types are as before |
| `Conditions.ConditionList.HasStatus` | operator/pkg/status/status.go:97-116 | an absent type is neither true nor false |
| `Conditions.ConditionList.IsUnknownFor` | operator/pkg/status/status.go:121-128 | an absent type counts as unknown |
| `Conditions.MarshalIsCanonical` | operator/pkg/status/status.go:183-189 | two lists of distinct types that hold the same conditions are written out alike, whatever their order |
| `Conditions.LessDecided` | operator/pkg/status/status.go:185-187 | types are ordered by their first difference, a prefix first |
| `Conditions.SortSorts` | operator/pkg/status/status.go:185-187 | what the sort means |
| `Conditions.ConditionList.MarshalJSON` | operator/pkg/status/status.go:183-189 | the list is sorted by type in place: the same conditions, each as often, in order |
| `Conditions.MarshalKeepsMap` | operator/pkg/status/status.go:183-189 | the sort happens in the stored list itself, and leaves the map that the list stands for as it was |
| `Conditions.PodStatus.UpdatePodCondition` | driver/pkg/client/client.go:506-526 | the first condition of the type is replaced, or the new one appended, its transition time kept while the status stays; true if and only if the list changed |
| `PodTagging.TagUnchangedPod` | driver/pkg/client/client.go:300-337 | for a pod unchanged since the read, the patch yields exactly the old labels and annotations with the watch label and the path annotation, also when a map was empty (section 4.1 of RFC 6902) |
| `PodTagging.TagChangedPod` | driver/pkg/client/client.go:309-327 | for a pod that changed in between, it does so if and only if each map that was non-empty still is, and each that was empty gained nothing but its own key |
| `PodTagging.PatchEffect` | driver/pkg/client/client.go:309-327 | what the patch does for any reading and any later state: both maps change or the patch is refused; nothing else changes |
| `PodTagging.EscapeRoundTrip` | driver/pkg/client/client.go:311-316 | the rewriting of "/" decodes back (sections 3 and 4 of RFC 6901) if and only if the key has no "~" |
| `PodTagging.BuildPatch` | driver/pkg/client/client.go:309-319 | the two operations built from the pod |
| `PodTagging.DriverNamesAreProper` | driver/pkg/common/common.go:95-98 | the label and annotation keys of the driver meet the conditions of these lemmas |
| `PodTagging.TaggedPodIsTracked` | driver/pkg/client/client.go:300-355 | a running pod that was tagged is one the checks of its node select, with its target path as the path to repair |
| `ApplySpec.ApplyFixedPoint` | operator/pkg/resourceapply/resourceapply.go:163-186 | applying an asset again makes no write, at any later time, as long as the object is as the first apply left it and, for workloads, the restart flag is down |
| `ApplySpec.ApplySettles` | operator/pkg/resourceapply/core.go:26-119 | a successful apply leaves the stored object settled, which SettledExactly says field by field |
| `ApplyLaws.ApplyBrings` | operator/pkg/resourceapply/core.go:26-119 | field by field, after a successful apply: an object that was not there is the asset with its owner; one that was has the data of the asset (config map), every annotation (claim, others kept), selector and first port (service), rules, subjects and role (roles and bindings), the three fields (driver), the provisioner (class), the driver version (workload, the whole spec if the versions differed, else the stored one, up to the update time); the rest is as before |
| `ApplyLaws.ApplyWritesExactly` | operator/pkg/resourceapply/resourceapply.go:163-189 | a successful apply of an existing object makes one update if and only if one of these fields or the owner is missing, or a workload is to be restarted, and else changes nothing; a written workload has the time of the apply as a label |
| `ApplyLaws.ApplySucceedsExactly` | operator/pkg/resourceapply/resourceapply.go:163-189 | an apply succeeds if and only if the get and, where one is needed, the create or update are accepted, a stored service has a port, and a workload to be written has labels |
| `ApplyLaws.SettledExactly` | operator/pkg/resourceapply/core.go:36-47 | an object is settled if and only if it carries these fields of the asset and has the owner, where one is asked for |
| `ApplyLaws.FlagRewrites` | operator/pkg/resourceapply/apps.go:42-51 | an apply that succeeds while the flag is up rewrites an existing workload: the label with the time, every other label and the rest as stored or, for another version, as in the asset |
| `ApplySpec.SettledIsNotWritten` | operator/pkg/resourceapply/core.go:41-47 | a settled object is not written, nor the flag raised |
| `ApplySpec.MergeTwice` | operator/pkg/resourceapply/core.go:36-47 | merging is idempotent for every kind |
| `ApplySpec.ApplyFrame` | operator/pkg/resourceapply/resourceapply.go:163-201 | whatever fails, an apply changes its own object only, drops no owner reference and no unmanaged part, adds the owner only if no reference has its kind and name, and writes at most once |
| `ApplySpec.ApplyWritesOwn` | operator/pkg/resourceapply/resourceapply.go:181-189 | an apply makes no write of another object, and takes none back |
| `ApplySpec.ApplyKeepsRest` | operator/pkg/resourceapply/core.go:62-98 | fields that are not managed survive: claim spec and foreign annotations, other ports, other driver and class fields |
| `ApplySpec.OwnerAfterApply` | operator/pkg/resourceapply/storage.go:62-71 | after a successful apply the owner is set, except for a storage class: there if and only if it was set before, the class was created, or the provisioner differed |
| `ResourceApply.Operator.IsOwnerSetIn` | operator/pkg/resourceapply/resourceapply.go:191-201 | true if and only if some reference has the kind and name of the owner |
| `ResourceApply.Operator.CreateResource` | operator/pkg/resourceapply/resourceapply.go:163-179 | get, create if absent; which calls are made and what they leave |
| `ResourceApply.Operator.UpdateResource` | operator/pkg/resourceapply/resourceapply.go:181-189 | the object is replaced if and only if the call succeeds |
| `ResourceApply.Operator.ApplyDriverConfigMap` | operator/pkg/resourceapply/core.go:26-48 | result, store, calls, writes and flag are those of the specification Apply |
| `ResourceApply.Operator.ApplyPersistentVolumeClaim` | operator/pkg/resourceapply/core.go:50-76 | the same; annotations are merged key by key |
| `ResourceApply.Operator.MergeAnnotations` | operator/pkg/resourceapply/core.go:62-68 | the merge loop: the asset wins on its own keys |
| `ResourceApply.Operator.ApplyService` | operator/pkg/resourceapply/core.go:78-100 | the same; selector and first port are managed |
| `ResourceApply.Operator.ApplyServiceAccount` | operator/pkg/resourceapply/core.go:102-119 | the same; only the owner is managed |
| `ResourceApply.Operator.ApplyRbac` | operator/pkg/resourceapply/rbac.go:47-143 | result, store, calls, writes and flag are those of Apply for roles and bindings, which may have no owner; ApplyBrings says what that leaves |
| `ResourceApply.Operator.ApplyCSIDriver` | operator/pkg/resourceapply/storage.go:26-48 | the same |
| `ResourceApply.Operator.ApplyStorageClass` | operator/pkg/resourceapply/storage.go:50-72 | the same; only another provisioner causes a write |
| `ResourceApply.Operator.ApplyWorkload` | operator/pkg/resourceapply/apps.go:28-80 | the same for daemon and stateful sets; ApplyBrings and FlagRewrites say what that leaves |
| `ResourceApply.Operator.ApplyAsset` | operator/pkg/resourceapply/resourceapply.go:128-161 | dispatch on the kind; a file that cannot be used fails without a call |
| `DriverPass.RestartOnConfigChange` | operator/controllers/marketplacecsidriver_controller.go:175-204 | in a pass that finishes: if the config map had to be created or changed, every workload that existed is rewritten with a clock reading of the pass as its update-time label, all else as stored or, for another version, as in the asset, and so differs from the stored one if it has none of those readings yet; if not, a workload whose version and owner are in order is not written |
| `DriverPass.RestartExactly` | operator/controllers/marketplacecsidriver_controller.go:110-204 | two passes, the first of which updates the config map and may fail later, together rewrite a workload that is otherwise in order if and only if, in the first, neither of the two calls of each workload up to it is refused and those that exist have labels to take the update time; if not, the second succeeds and the workload keeps the old configuration, because the flag was reset |
| `DriverPass.WorkloadsDoneExactly` | operator/pkg/resourceapply/apps.go:28-80 | while the flag is up, a list of workloads is applied to the end if and only if none of its calls, two for each, is refused and every existing one has labels to take the update time |
| `DriverPass.RestartLostWitness` | operator/controllers/marketplacecsidriver_controller.go:175-192 | a run for all other data: one workload in order, a config map that is not, a pass whose third call fails, a pass in which none does; the second succeeds, the config map holds the new data, and the workload was never written |
| `DriverPass.PassFixedPoint` | operator/controllers/marketplacecsidriver_controller.go:110-204 | after a pass that finishes, the next one over the same assets writes nothing at all and changes no object, whatever reads fail |
| `DriverPass.FlagAfterConfig` | operator/pkg/resourceapply/core.go:26-48 | when the workloads are reached, the flag is up if and only if the config map was missing or not settled at the start of the pass |
| `DriverPass.ConfigDiffersExactly` | operator/pkg/resourceapply/core.go:36-47 | the config map differs if and only if it is missing, or its data or the owner are |
| `DriverPass.EachWorkload` | operator/pkg/resourceapply/apps.go:48-51 | while the flag is up every existing workload of the list is rewritten in this way; while it is down a settled one is left alone |
| `DriverPass.DriverController.ApplyAssets` | operator/controllers/marketplacecsidriver_controller.go:110-204 | the applies in order up to the first failure equal the specification Pass, flag reset included |
| `DriverPass.DriverController.ApplyInOrder` | operator/controllers/marketplacecsidriver_controller.go:119-204 | the same for any list of assets, without the reset |
| `DriverPass.DriverController.WithEnvironment` | operator/controllers/marketplacecsidriver_controller.go:275-283 | the environment loop equals the overlay of the variables over the data |
| `DriverPass.OverlayAt` | operator/controllers/marketplacecsidriver_controller.go:278-282 | a name takes the value of its last variable |
| `DriverPass.OverlayElsewhere` | operator/controllers/marketplacecsidriver_controller.go:278-282 | a name without a variable keeps what the data says |
| `DriverPass.EnvAssetTells` | operator/controllers/marketplacecsidriver_controller.go:275-283 | the config map applied is the asset but for its data: the last variable of a name wins, a name without one keeps its value |
| `DriverPass.ApplyAllFrame` | operator/controllers/marketplacecsidriver_controller.go:119-204 | a list of applies leaves objects it does not name alone |
| `DatasetClaims.SharedClaimOwners` | operator/controllers/marketplacedataset_controller.go:90-102 | after any run of dataset reconciles, with any calls failing, the owners of the shared claim are the initial ones followed by the datasets whose apply succeeded, none added twice |
| `DatasetClaims.SharedClaimFrame` | operator/controllers/marketplacedataset_controller.go:90-102 | such a run changes nothing else of the claim that is unmanaged, and no other object |
| `DatasetClaims.OwnReferenceEntered` | operator/controllers/marketplacedataset_controller.go:159-169 | the own reference of a dataset, UID included, is among the owners if and only if it was before or no reference had its kind and name |
| `DatasetClaims.AttemptOwners` | operator/controllers/marketplacedataset_controller.go:90-102 | one reconcile appends the dataset if and only if it succeeds and no reference has its kind and name |
| `DatasetClaims.OneCheckPerSpec` | operator/controllers/marketplacedataset_controller.go:120-157 | all passes over one specification create at most one check between them, and create it if and only if the pass that first gets the labels written also sees its second write and the creation succeed |
| `DatasetClaims.CheckLostWitness` | operator/controllers/marketplacedataset_controller.go:144-155 | labels written while the check cannot be created, then a pass in which all goes well: no check |
| `DatasetClaims.DatasetController.UpdateLabel` | operator/controllers/marketplacedataset_controller.go:120-157 | labels and check are those of LabelPass; fails if and only if the labels differ and the second write fails |
| `DatasetClaims.UninstallAsked` | operator/controllers/marketplacedataset_controller.go:171-180 | uninstalling is asked for by the one label with the value true, whatever the others are |
| `DatasetClaims.LabelsTell` | operator/controllers/marketplacedataset_controller.go:120-157 | once the labels are written they tell the bucket and the hash of the selectors; the others are as before |
| `DatasetClaims.DatasetController.Reconcile` | operator/controllers/marketplacedataset_controller.go:55-106 | a dataset that is gone or unreadable changes nothing; uninstall deletes and does nothing else; otherwise labels, claim and install status: complete if and only if all succeeded and the validator accepts the selectors |
| `DatasetClaims.DatasetController.SetStatus` | operator/controllers/marketplacedataset_controller.go:189-202 | the install condition for the verdict is set, and stored if and only if the status can be written |
| `DatasetClaims.VerdictTells` | operator/controllers/marketplacedataset_controller.go:189-202 | what the dataset shows: InstallFailed or ValidationFailed and False with the text of the error, or InstallComplete and True |
| `DriverPods.UpdateNeededExact` | operator/controllers/marketplacecsidriver_controller.go:322-335 | with unique pod names, "update needed" holds if and only if the record differs from what is observed in names, create times or versions, although only sizes are compared for pods that went away |
| `DriverPods.SecondCallIdle` | operator/controllers/marketplacecsidriver_controller.go:307-339 | on the pods just recorded nothing is asked for |
| `DriverPods.RepairAskedExactly` | operator/controllers/marketplacecsidriver_controller.go:333-353 | while the pods stay the same, their repair is asked for if and only if some pass up to the first one that stores the record has a valid credential and can create the check; a record stored without asking loses the repair |
| `DriverPods.RepairLostWitness` | operator/controllers/marketplacecsidriver_controller.go:336-339 | a new pod while the credential is invalid, then the same pod with a valid one: its repair is never asked for |
| `DriverPods.Compare` | operator/controllers/marketplacecsidriver_controller.go:307-320 | the loop: the record is the observed pods, the nodes to fix are exactly the nodes of new or changed pods |
| `DriverPods.ListNodes` | operator/controllers/marketplacecsidriver_controller.go:342-345 | each node once |
| `DriverPods.ObservedAt` | operator/controllers/marketplacecsidriver_controller.go:308-315 | the record has exactly the names of the pods, and with unique names their data |
| `DriverReconcile.DriverReconciler.CheckDriverPods` | operator/controllers/marketplacecsidriver_controller.go:290-354 | the record, whether it must be written, whether a check for exactly those nodes was created, and the error; the roles are set up while no pods are recorded |
| `Roles.SetUpRoles` | operator/pkg/resourceapply/rbac.go:27-45 | every role is applied without an owner, whatever became of the ones before |
| `Roles.SetUpKeepsOwners` | operator/pkg/resourceapply/rbac.go:27-143 | the set-up gives no object an owner and takes none away |
| `Roles.SetUpBrings` | operator/pkg/resourceapply/rbac.go:27-45 | a role whose own two calls are accepted is brought in, whatever became of the others |
| `DriverReconcile.FirstCheckBringsRoles` | operator/controllers/marketplacecsidriver_controller.go:322-331 | so the first pass that can list the driver pods brings in every such role |
| `DriverReconcile.DriverReconciler.WorkOut` | operator/controllers/marketplacecsidriver_controller.go:222-236 | the working copy of the status and whether it has to be written: exactly if a condition changes or the pods differ from the record |
| `DriverReconcile.DriverReconciler.CreateHealthCheck` | operator/controllers/marketplacecsidriver_controller.go:398-409 | the timer is set if and only if the check was created |
| `DriverReconcile.DriverReconciler.SetDriverStatus` | operator/controllers/marketplacecsidriver_controller.go:447-478 | bad credential, failed check, repair, operational: the first that applies |
| `DriverReconcile.ConditionsTell` | operator/controllers/marketplacecsidriver_controller.go:222-236 | what the conditions say after a pass over an installed driver: InstallComplete; and the first that applies of CredentialError, DriverHealthCheckFailed (the pods cannot be listed, or a check is due and cannot be created), RepairInitiated and Operational, with their statuses |
| `DriverReconcile.BookTells` | operator/controllers/marketplacecsidriver_controller.go:290-354 | the stored record follows the pods seen if and only if the status can be written; a repair is asked for if and only if a credential is there, the check can be created and some pod is new, restarted or of another version, and then for exactly the nodes of such pods |
| `DriverReconcile.RepairOnTheClock` | operator/controllers/marketplacecsidriver_controller.go:342-353 | a repair asked for is the next check made, for those nodes; any other is the periodic one |
| `DriverReconcile.DriverReconciler.UpdateStatus` | operator/controllers/marketplacecsidriver_controller.go:222-243 | stored record and conditions after the pass; the record is a step of PodPass |
| `DriverReconcile.DriverReconciler.RunPeriodicHealthCheck` | operator/controllers/marketplacecsidriver_controller.go:389-396 | a check is created if and only if it is due, and an error is returned if and only if that fails |
| `DriverReconcile.DriverReconciler.FinishPass` | operator/controllers/marketplacecsidriver_controller.go:222-250 | the pass is one step of the bookkeeping and one step of the timer; the requeue delay |
| `DriverOperator.Reconcile` | operator/controllers/marketplacecsidriver_controller.go:78-251 | the whole pass: gone, unreadable or misplaced drivers, a failing apply and workloads that are not up each end it with their own condition and requeue; only then the driver pods and the timer are looked at |
| `DriverOperator.SetStatus` | operator/controllers/marketplacecsidriver_controller.go:374-387 | the condition is set in a copy and stored if and only if the status can be written |
| `DriverReconcile.LaterChecksLeaveRoles` | operator/controllers/marketplacecsidriver_controller.go:322-333 | once pods are recorded, or while they cannot be listed, the roles are not touched |
| `DriverOperator.InstallTells` | operator/controllers/marketplacecsidriver_controller.go:374-387 | the stored install condition of a pass that ends early: Installing, or InstallFailed with the text of the error |
| `PeriodicCheck.GapBound` | operator/controllers/marketplacecsidriver_controller.go:245-250 | for an interval i of at least a minute, if passes follow each other within the delay R the controller returns and creations succeed, a check is decided on less than i + R after the one before was created, and after every pass the newest check is younger than i |
| `PeriodicCheck.GapUnderTwice` | operator/controllers/marketplacecsidriver_controller.go:480-486 | under twice the interval when it is below an hour |
| `PeriodicCheck.DelayExactly` | operator/controllers/marketplacecsidriver_controller.go:480-486 | the requeue delay is the interval from one minute to an hour, and an hour for any other |
| `PeriodicCheck.CreationGap` | operator/controllers/marketplacecsidriver_controller.go:398-409 | from creation to creation the gap is less than i + R plus what a creation takes |
| `PeriodicCheck.PeriodicNeverEarly` | operator/controllers/marketplacecsidriver_controller.go:389-409 | a periodic check is never sooner than i after the previous check of either kind, whatever fails and however passes are spaced; none with an interval below one minute |
| `PeriodicCheck.TwoInOnePass` | operator/controllers/marketplacecsidriver_controller.go:234-245 | a pass creates two checks if and only if its own clock reading is at least the interval after the repair it created |

## Left out

- MountTheorems.BatchDecomposition: requires that writing the password file again has the outcome it had; a helper that fails the second write but not the first would make the halves differ from the whole.
- Mount.Host.MountBucket: does not model the mount command, its arguments, the polling for the mount point or its timeout; all are one step with any outcome.
- MountSpec.MountPass: of a malformed selector's errors the code reports the first in map order, so the error is identified by the dataset's folder only.
- DriverOperator.Reconcile: whether the workloads are up is an input.
- HealthCheckProtocol.NoLostAnswers: speaks of response and pod count only, as the operator's rewrite drops the text of the answer.
- HealthCheckActors.Reconcile: minutes are compared as exact integers of nanoseconds where the code compares floating point numbers.
- PeriodicCheck.GapBound: the same; the deviation shows for intervals above some months only. A pass that fails to create its check returns an error and is retried by the framework, which is not part of the model.
- DriverPods.UpdateNeededExact: a pod moved to another node under the same name, create time and version is not noticed by the code, and not by the theorem.
- DatasetClaims.DatasetController.Reconcile: error texts and the hash of the selectors are inputs.
- ResourceApply.Operator.ApplyRbac: stands for the four role and binding applies, which differ in the fields they copy.
- ResourceApply.Operator.ApplyWorkload: stands for the daemon set and the stateful set applies, which are the same text.
- Conditions.ConditionList.MarshalJSON: the library sort is one fixed function; for equal types, which a set never holds, the library may choose another order.
- NodeCheck.UpdatePodStatusOnReconcile: does not model the wording of the message.
- DriverPass.DriverController.ApplyAssets: the assets of a pass are decoded ones, as they are compiled into the operator.
- Server side: admission, defaulting and conflict of the operator's own applies; an update either replaces the object or fails.
- nil and empty maps are one: an empty label map of a workload template is taken for a missing one, on which the label write fails.
- Integer widths: pod counts and intervals are unbounded integers.
- Retrying of the tagging patch, and UpdatePodOnNodePublishVolume.
- GetDriverConfiguration, the credential checks and the JSON web token: a credential or an error is an input.
- The gRPC server, the identity and controller stubs, flags, endpoints and version output.
- The webhook that adds a volume to every container, the generated asset and deep-copy code, YAML and JSON decoding, placeholder replacement.
- Informers and work queues: a node process sees a check once, when it is added; the operator reads any earlier version.
- Wording of log lines and of condition messages.
