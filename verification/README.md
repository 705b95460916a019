# Verified models of multistack

Dafny models of the parts of multistack in which work can fail at any step while a record must stay
honest about it, with proofs of what every step keeps and what whole runs reach. Check everything with
`dafny verify dfyconfig.toml`.

| file | models |
|---|---|
| `Rke2Spec`, `Rke2Reconcile`, `Rke2Backend` | the RKE2 reconcile protocol: the specification and its checks; `create`, `update`, `delete` as functions of the saved record, the real nodes, the failures and the completion order; the backend class that computes those functions by updating its state in place |
| `Rke2Record`, `Rke2Retry`, `Rke2Versions`, `Rke2Order` | theorems about it: the saved record, convergence of retries, version uniformity, order of teardown and upgrade |
| `PathMtu` | the path-MTU binary search and the advice drawn from it |
| `StateStore`, `StateTheorems` | the state recorder: rows, health log, the three wrappers around arbitrarily nested bodies; bracket, dependency and agreement theorems |
| `HelmValues`, `CacheSpec`, `ChartResolver` | Helm values: merge, validation, redaction and their laws; a cache's endpoint; the chart resolver and its index cache |
| `SeedOrganization` | the organization seeding script against a server whose calls fail before or after taking effect |
| `Quantity`, `MinioTenant`, `MinioTheorems` | the MinIO tenant: credential adoption, resizing, deletion, and what the recorder says of them |
| `Collections` | selection, permutation and completion-order vocabulary |

Code that changes things step by step is a class or method with loops, proved equal to a specification
function or against its promise outright; the theorems are lemmas about those functions. Everything the
environment decides is a parameter, so each theorem holds for every choice of it: the `Weather` of an
RKE2 call (what each node answers at each stage, and in which order parallel work completes; by
`ArrangeReachesEveryOrder` every order is covered), the bodies of wrapped operations, the `fate` of each
server call, the `Fates` of each `create`.

## Where the code falls short of its promise

Each of these is the code's behaviour, stated as a lemma that says exactly when.

- A node can lose its record while RKE2 stays on it. Tearing down an installed node forgets it exactly
  when the search for an uninstall script times out, the script does not take effect, or no script is
  seen and the host does not answer the check for a remaining installation
  (`UpdateForgetsExactlyWhen`, `DeleteForgetsExactlyWhen`).
- Versions are uniform after every successful call of a run exactly when no successful update at the
  saved version keeps a node that runs something else (`RunsUniformExactlyWhen`). Such a node can be left
  by a version change that failed half-way, or by a failed `delete`, which leaves torn-down nodes in the
  record (`FailedDeleteBreaksUniformity`).
- The MTU warning suggests `cilium_mtu` for every VXLAN CNI; the specification accepts the suggestion
  exactly when the CNI is Cilium and the least measured payload is at least 626 (`SuggestionAcceptedIff`).
- A wrapped update that refuses, or that succeeds after catching, an inner update's failure restores the
  status and leaves an UNHEALTHY check behind it (`UpdateSettlesExactlyWhen`; an input in
  `RefusedInnerFailureDisagrees`).
- Two value updates in a row are not always one update with their merge (`MergeComposesIff`).
- A resize that is turned down before the first patch marks the tenant FAILED, although nothing was
  touched, exactly when the claims cannot be listed or a size is unreadable (`TurnedDownIsRecorded`).
- A spec object keeps the credentials it minted even when its `create` failed. A `create` over a live pair
  that returns keeps that pair exactly when its object holds none or the same
  (`RotatesExactlyWhen`; over runs `PairStaysLiveExactlyWhen`; an input in `RetriedSpecRotates`).
- A seeding run never succeeds on an organization that has members but not the owner: it is taken for
  already owned, and the owner is not added (`Ready` in the contract of `Seed`).

## Model

| member | source | states |
|---|---|---|
| Rke2Spec.FirstServer | multistack/core/rke2.py:187-191 | a specification that passes its checks has a first server: the earliest of its nodes with role server |
| Rke2Backend.Backend.SaveState | multistack/backends/rke2_client.py:474-482 | after a save the state file is the in-memory state |
| Rke2Backend.Backend.UpsertNodeInState | multistack/backends/rke2_client.py:490-497 | replaces any entry with the node's address, and saves |
| Rke2Backend.Backend.RemoveNodeFromState | multistack/backends/rke2_client.py:499-504 | drops the address and saves |
| Rke2Backend.Backend.TeardownNode | multistack/backends/rke2_client.py:851-884 | when a teardown raises and what it does to the node, for every way its three remote commands can end |
| Rke2Backend.Backend.Work | multistack/backends/rke2_client.py:769-849 | what a join, upgrade, teardown or fetch leaves on the node, whether or not it reports success |
| Rke2Backend.Backend.VisitNode | multistack/backends/rke2_client.py:363-366 | one node's work, and the record changed only if it succeeded |
| Rke2Backend.Backend.RunSequential | multistack/backends/rke2_client.py:378-381 | a loop over nodes that stops at the first failure |
| Rke2Backend.Backend.RunParallel | multistack/backends/transport.py:204-263 | every node is worked on, in any completion order; successes are recorded as they come, failures collected |
| Rke2Backend.NextCompletion | multistack/backends/transport.py:234-251 | one iteration of the completion loop takes any pending node and leaves a run that still ends where the batch does |
| Rke2Backend.Backend.RunAll | multistack/backends/rke2_client.py:361-409 | loops one after the other, ended by the first that raises |
| Rke2Backend.Backend.Create | multistack/backends/rke2_client.py:192-281 | the backend's `create`, updating the state object and the file, computes the specification function |
| Rke2Backend.Backend.SaveVersion | multistack/backends/rke2_client.py:423-426 | version and kubeconfig path change together, with the save |
| Rke2Backend.Backend.Update | multistack/backends/rke2_client.py:284-428 | likewise `update`, including every refusal before the first node is touched |
| Rke2Backend.Backend.Delete | multistack/backends/rke2_client.py:431-459 | likewise `delete` |
| Collections.ArrangePermutes | multistack/backends/transport.py:233-235 | whatever the completion order, every node completes exactly once |
| Collections.ArrangeReachesEveryOrder | multistack/backends/transport.py:233-235 | and every order is possible |
| Rke2Record.UpdateKeepsRecordHonest | multistack/backends/rke2_client.py:338-389 | for saved addresses S and desired N, at every save and however the update ends, the record lies between S∩N and S∪N without duplicates and keeps its identity; a normal return leaves exactly N and the new version, a raise the saved version |
| Rke2Record.CreateKeepsRecordHonest | multistack/backends/rke2_client.py:205-279 | every save of a create, and the file it leaves, is sound and holds only nodes of the specification; a normal return records all of them |
| Rke2Record.DeleteKeepsFile | multistack/backends/rke2_client.py:431-459 | delete removes the file on a normal return and leaves it untouched otherwise |
| Rke2Record.ApplySound | multistack/backends/rke2_client.py:205-247 | any one call keeps the file sound, keeps its identity, or makes it as a create does |
| Rke2Record.RunKeepsIdentity | multistack/backends/rke2_client.py:231-247 | over any sequence of calls failing anywhere: a state file has distinct addresses, contains the first server, and ever since the create that made it has had that create's token, first-server address, CNI, kube-proxy setting and creation time |
| Rke2Retry.UpdateClosesGap | multistack/backends/rke2_client.py:363-389 | however an update ends, the symmetric difference between record and specification has shrunk by exactly the joins and removals that succeeded |
| Rke2Retry.UpdateJoinsOnlyUnrecorded | multistack/backends/rke2_client.py:338-389 | an update bootstraps only desired nodes that are not recorded |
| Rke2Retry.RecordedNeverRejoined | multistack/backends/rke2_client.py:338-341 | once a desired node's join is recorded, no later retry bootstraps it again |
| Rke2Retry.RaiseNeedsFault | multistack/backends/rke2_client.py:343-409 | an applicable update that raises was not ready or met a fault on a recorded or desired node |
| Rke2Retry.AgreementLasts | multistack/backends/rke2_client.py:338-341 | once record and specification agree, retries keep them so |
| Rke2Retry.RetriesReachAgreement | multistack/backends/rke2_client.py:284-428 | more calls than are hindered end with the record equal to the specification |
| Rke2Retry.RetriesConverge | multistack/backends/rke2_client.py:284-428 | if each node is at fault in at most k calls, more calls than k per node and unmet prerequisites together end with the record equal to the specification |
| Rke2Versions.UniformAfterUpdate | multistack/backends/rke2_client.py:378-423 | a normal return leaves every recorded node at the requested version exactly when it changed the version or every kept node was there already |
| Rke2Versions.SameVersionStaysUniform | multistack/backends/rke2_client.py:363-391 | an update at the saved version preserves uniformity however it ends |
| Rke2Versions.CreateIsUniform | multistack/backends/rke2_client.py:231-279 | a create leaves whatever it recorded at the requested version |
| Rke2Versions.SuccessUniformExactlyWhen | multistack/backends/rke2_client.py:378-423 | a call of any kind that returns normally leaves versions uniform exactly when it is not an update at the saved version that keeps a node running something else |
| Rke2Versions.RunsUniformExactlyWhen | multistack/backends/rke2_client.py:378-423 | over any run, versions are uniform after every successful call exactly when no successful call is such an update |
| Rke2Versions.CallUniform | multistack/backends/rke2_client.py:391-423 | one call of any kind keeps uniformity, or gives up half-way through a version change or delete |
| Rke2Versions.RunsStayUniform | multistack/backends/rke2_client.py:378-423 | so it suffices, from the history alone, that no version change that began installing and no delete that took RKE2 off a node, and then failed, is followed, before another call succeeds, by a successful update at the saved version |
| Rke2Versions.FailedDeleteBreaksUniformity | multistack/backends/rke2_client.py:444-459 | why deletes count: a failed delete and then a normal update leave a recorded node that runs nothing |
| Rke2Order.DeleteFirstServerLast | multistack/backends/rke2_client.py:444-454 | delete tries the first server only after the teardown of every other recorded node returned normally |
| Rke2Order.DeleteErasesOnlyWhenAllTornDown | multistack/backends/rke2_client.py:448-459 | the state file goes only if every recorded node's teardown returned normally |
| Rke2Order.UpgradeFirstServerLast | multistack/backends/rke2_client.py:396-409 | an upgrade tries the first server, listed as a server, only after every other kept node was upgraded |
| Rke2Order.StuckNodeKeepsRecord | multistack/backends/rke2_client.py:868-876 | a reachable node to be removed that still has RKE2 and no uninstall script keeps its record, keeps RKE2, and makes the update raise |
| Rke2Order.UpdateForgetsExactlyWhen | multistack/backends/rke2_client.py:851-905 | an installed node an update is to remove keeps its record exactly when its teardown was not reached or raised, and loses it while RKE2 stays exactly when the teardown was reached and ended in one of three ways; after a normal return RKE2 stays exactly in those |
| Rke2Order.DeleteForgetsExactlyWhen | multistack/backends/rke2_client.py:444-459 | likewise for every installed, recorded node under a delete |
| Rke2Order.SilentNodeIsForgotten | multistack/backends/rke2_client.py:886-905 | one of the three: a removed host that answers nothing is forgotten by an update that returns normally |
| Rke2Order.BatchRecordsExactlySuccesses | multistack/backends/transport.py:227-263 | in any completion order a batch attempts every node, lists exactly those that raised, and changes the record for exactly those that succeeded |
| PathMtu.MeasureLargestPacket | multistack/backends/rke2_client.py:671-683 | at most ten pings; a non-zero result is a size in 576..1472 that one of them carried; if survival is downward closed it is the largest surviving size, and 0 means none survives |
| PathMtu.CheckPodNetworkMtu | multistack/backends/rke2_client.py:700-727 | the warnings are exactly the verdicts on the other nodes, and none without a VXLAN CNI |
| PathMtu.LeastSuggestionClears | multistack/backends/rke2_client.py:715-726 | setting the least suggested value removes every mismatch warning |
| PathMtu.SuggestionAcceptedIff | multistack/core/rke2.py:150-163 | an otherwise valid specification accepts it exactly when the CNI is Cilium and the least measured payload is at least 626 |
| StateStore.ChecksWithout | multistack/state/db.py:35-41 | deleting a row leaves none of its health checks and loses no other |
| StateTheorems.ChecksCascade | multistack/state/db.py:35-41 | and leaves the checks of every other name as they were, order and number included |
| StateRecorder.StateManager.StartDeployment | multistack/state/manager.py:57-75 | a missing row is inserted, a renamed type adopted, and the status set |
| StateRecorder.StateManager.SetRowStatus | multistack/state/repository.py:56-64 | status and error are replaced, for a known name only |
| StateRecorder.StateManager.Remove | multistack/state/repository.py:93-95 | the row and its checks go, for a known name only |
| StateRecorder.StateManager.RecordCheck | multistack/state/repository.py:112-124 | a check is logged, for a known name only |
| StateRecorder.StateManager.MarkRowHealthy | multistack/state/manager.py:82-93 | kubeconfig, check and status written together |
| StateRecorder.StateManager.MarkRowFailed | multistack/state/manager.py:100-103 | an unhealthy check and FAILED with the error |
| StateRecorder.StateManager.RecordProbe | multistack/state/manager.py:112-123 | a probe moves the status by the health map, UNKNOWN not at all; an unknown name is reported and nothing written |
| StateRecorder.StateManager.RequireHealthyDependencies | multistack/state/manager.py:126-135 | accepts exactly when each required capability has a PROVISIONED row |
| StateRecorder.StateManager.TrackedCreate | multistack/state/tracking.py:63-78 | the wrapper, around any body of wrapped calls, computes the specification function |
| StateRecorder.StateManager.TrackedDelete | multistack/state/tracking.py:104-122 | likewise the delete wrapper |
| StateRecorder.StateManager.TrackedUpdate | multistack/state/tracking.py:163-188 | likewise the update wrapper |
| StateRecorder.StateManager.ExecuteBody | multistack/state/tracking.py:70-76 | a body of wrapped calls, some of whose exceptions it catches |
| StateTheorems.OthersUntouched | multistack/state/db.py:25-41 | a wrapped call and all it calls leave rows and checks of names they do not mention alone |
| StateTheorems.UpdateBracket | multistack/state/tracking.py:163-188 | around any tree of wrapped updates of the name, the final status is the one held before on success or refusal, and FAILED on any other exception |
| StateTheorems.DeleteBracket | multistack/state/tracking.py:104-122 | likewise for delete: success removes the row and its checks, any exception gives FAILED; `delete` around `delete_pvcs` is an instance |
| StateTheorems.UpdatesKeepRow | multistack/state/tracking.py:163-188 | updates, nested in any way, neither remove the row nor change its kind |
| StateTheorems.RunKeepsOwned | multistack/state/db.py:35-41 | in any run every health check belongs to an existing row |
| StateTheorems.RunGrounded | multistack/state/tracking.py:65-76 | in any run, at every moment inside it, a row of a type exists only if each type it requires had a PROVISIONED row earlier |
| StateTheorems.NoCircularRow | multistack/state/manager.py:126-135 | so no type on, or depending on, a requirement cycle ever has a row |
| StateTheorems.CircularNeverStarts | multistack/state/tracking.py:65-71 | and a create of one is turned down without running its body or writing anything |
| StateTheorems.OpQuiet | multistack/state/tracking.py:163-188 | where no recorded failure is swallowed: unless one of the name is on its way out, its row is gone or its health checks are unchanged |
| StateTheorems.RunSettles | multistack/state/manager.py:39-43 | in sequential runs whose bodies swallow no recorded failure, every row has the status its latest check other than UNKNOWN maps to |
| StateTheorems.LoggedExactlyWhenFails | multistack/state/tracking.py:172-186 | a tree that only updates the name adds to its health log exactly when some update of it ends in an exception its wrapper does not refuse |
| StateTheorems.UpdateSettlesExactlyWhen | multistack/state/tracking.py:172-186 | exactly when a wrapped update, around a tree that only updates the name, leaves a settled row settled: it ends in FAILED, the row was FAILED, or no inner update of the name ends in an exception its wrapper does not refuse |
| StateTheorems.RefusedInnerFailureDisagrees | multistack/state/tracking.py:174-179 | a refused inner failure leaves a PROVISIONED row whose latest check is UNHEALTHY |
| HelmValues.DeepMerge | multistack/cache/spec.py:235-258 | the loop, in any key order, computes the merge: mappings merge, all else is replaced |
| HelmValues.MergeIdempotent | multistack/cache/spec.py:235-258 | merging a value with itself changes nothing |
| HelmValues.MergeAbsorbs | multistack/cache/spec.py:186-201 | the same update twice is one update |
| HelmValues.MergeComposesIff | multistack/cache/spec.py:186-201 | two updates equal one with their merge exactly when nowhere a mapping is cut off by the first and partly restored by the second |
| HelmValues.Read | multistack/cache/spec.py:223-233 | reads the nested value, or the default when unset or null |
| HelmValues.UntouchedSurvives | multistack/cache/spec.py:223-258 | an update that neither mentions nor cuts off a path leaves what it reads as |
| HelmValues.MentionedReadsBack | multistack/cache/spec.py:235-258 | a value that is no mapping reads back after the update that sets it |
| HelmValues.RedactIdempotent | multistack/helm/__init__.py:89-105 | redacting twice is redacting once |
| HelmValues.RedactCommutesWithMerge | multistack/helm/__init__.py:89-105 | redacting merged values is merging redacted ones |
| HelmValues.ValidateMapping | multistack/helm/values.py:99-153 | the recursive check appends its findings in iteration order, or raises the first in strict mode |
| HelmValues.Validate | multistack/helm/values.py:43-96 | malformed arguments raise in either mode; strict mode raises exactly when something is unknown, with the first finding |
| HelmValues.CheckValues | multistack/helm/values.py:28-40 | never raises: one complaint for a malformed argument, else the lenient list's prefix of length at most one |
| HelmValues.LenientListIsExact | multistack/helm/values.py:88-153 | the lenient list holds, once each, exactly the paths that descend through mappings on both sides with non-empty defaults and end in a key the defaults lack |
| HelmValues.MergeStaysDeclared | multistack/helm/values.py:108-153 | values without undeclared paths stay so under deep merge |
| HelmValues.RedactHidesOnlyBelowSensitive | multistack/helm/__init__.py:97-102 | redaction adds no undeclared path and hides one only below a sensitive key |
| CacheSpec.Cache.UpdateValues | multistack/cache/spec.py:186-201 | merges, or replaces when asked |
| CacheSpec.Cache.Service | multistack/cache/spec.py:104-126 | the service a client connects to |
| CacheSpec.Cache.Port | multistack/cache/spec.py:128-137 | the value the port is converted from |
| CacheSpec.EndpointSurvivesUpdate | multistack/cache/spec.py:105-137 | an update that touches neither the sentinel, primary nor name-override paths leaves service and port as they were |
| CacheSpec.ChartNameIsLastSegment | multistack/cache/spec.py:211-216 | the chart name is the reference's last segment, whatever slashes end it |
| ChartResolver.Resolver.Resolve | multistack/helm/resolver.py:33-108 | the loop over repositories gives the plain ordered search over fetched and cached indexes, and caches what it fetched on the way |
| ChartResolver.Resolver.ClearCache | multistack/helm/resolver.py:110-116 | empties the cache |
| ChartResolver.CacheRefinesSearch | multistack/helm/resolver.py:42-108 | with unchanging contents, cached URLs C and reachable R give the result and error class of the cache-less search with R ∪ C reachable |
| ChartResolver.CacheStaysCurrent | multistack/helm/resolver.py:44-60 | and the cache stays what the repositories hold |
| ChartResolver.PinnedChartKeepsResolving | multistack/helm/resolver.py:44-93 | once every repository up to the winner is cached, the chart keeps resolving to it until the cache is cleared, whatever becomes unreachable or changes |
| ChartResolver.ReachingCallPins | multistack/helm/resolver.py:43-67 | a call that reaches every repository up to the winner caches them all |
| SeedOrganization.ControlPlane.CreateUser | examples/seed_admin.py:300-313 | the server adds the owner unless already there, which it answers by a conflict; any call may fail with or without that effect |
| SeedOrganization.ControlPlane.CreateThenLook | examples/seed_admin.py:286-298 | creates at most one organization, and looks again when the call failed |
| SeedOrganization.ControlPlane.AttemptCreate | examples/seed_admin.py:273-298 | an attempt while the organization is absent does that once the plan is found |
| SeedOrganization.ControlPlane.AttemptOwner | examples/seed_admin.py:299-313 | an attempt while it is there adds at most the owner |
| SeedOrganization.ControlPlane.EnsureOwner | examples/seed_admin.py:269-320 | the first retry loop never makes a second organization, and succeeds unless plan, a fatal failure or three absorbed ones prevent it |
| SeedOrganization.ControlPlane.LookUpOwner | examples/seed_admin.py:322-339 | finds the owner's id exactly when the owner is a member and the listing is answered |
| SeedOrganization.ControlPlane.EnsureMember | examples/seed_admin.py:254-339 | the run up to the owner's id: known exactly when plan and members admit it, no call failed fatally and at most two attempts failed |
| SeedOrganization.ControlPlane.GrantRole | examples/seed_admin.py:365-390 | every role written is the organization's administrator role for that user; succeeds exactly when the role exists and fewer than three attempts failed |
| SeedOrganization.ControlPlane.Seed | examples/seed_admin.py:246-392 | one run: at most one organization of the name, nothing else changed, only the owner's grant written; exit 0 implies membership and the grant as last write; and the exact condition for exit 0 |
| SeedOrganization.ControlPlane.SeedRepeatedly | examples/seed_admin.py:246-392 | any number of runs: still at most one organization; after any exit 0 the owner stays a member and the last role write is his grant |
| Quantity.WholeReadsBack | multistack/core/minio.py:44-52 | n units, with spaces wherever admitted, parse to n times the unit's bytes |
| Quantity.FractionReadsBack | multistack/core/minio.py:44-52 | a decimal fraction parses to the whole part plus the fraction's share of the unit, truncated |
| MinioBackend.Cluster.RunDeploy | multistack/backends/minio_client.py:344-369 | clears a failed release, then installs or upgrades |
| MinioBackend.Cluster.CreateTenant | multistack/backends/minio_client.py:139-208 | the backend's `create`, which also changes the spec object, computes the specification function |
| MinioBackend.Cluster.CheckSizes | multistack/backends/minio_client.py:294-302 | the first claim that cannot be resized, as its error |
| MinioBackend.Cluster.PatchVolumes | multistack/backends/minio_client.py:303-308 | patches claim by claim until one fails |
| MinioBackend.Cluster.ResizeStorage | multistack/backends/minio_client.py:276-312 | `resize_storage` computes the specification function, names sorted |
| Collections.Sorted | multistack/backends/minio_client.py:312 | the same names, in lexicographic order |
| MinioBackend.Cluster.RemovePvcs | multistack/backends/minio_client.py:314-324 | deletes claim by claim until one fails |
| MinioBackend.Cluster.DeleteTenant | multistack/backends/minio_client.py:210-243 | `delete` computes the specification function |
| MinioTheorems.LiveCredentialsNeverRotate | multistack/backends/minio_client.py:160-187 | a credential-less create over a release deploys only the credentials already live, and raises before any Helm change when it cannot read them; only an absent release gets minted ones |
| MinioTheorems.RotatesExactlyWhen | multistack/backends/minio_client.py:160-187 | over a live pair, a create with any spec object replaces it exactly when it writes and the object holds another; one that returns keeps it exactly when the object holds none or that pair |
| MinioTheorems.PairStaysLiveExactlyWhen | multistack/backends/minio_client.py:160-187 | in any run, spec objects used again included, a deployed pair stays live exactly while no call ends with the release absent or writes another pair its object holds; until then every successful call returns it |
| MinioTheorems.AdoptedUnlessAbsent | multistack/backends/minio_client.py:160-187 | in credential-less runs: while no call ends with the release absent, all successful calls deploy and return the same credentials, failed releases cleared or not |
| MinioTheorems.SameCredentialsExactlyWhen | multistack/backends/minio_client.py:344-369 | and, mints never repeating, only then |
| MinioTheorems.RetriedSpecRotates | multistack/core/minio.py:218-241 | an input on which a spec object that kept the credentials of its own failed create rotates those deployed since |
| MinioTheorems.ResizeNeverShrinks | multistack/backends/minio_client.py:276-312 | each claim ends at its old or the new size and none smaller in bytes; storage and value errors come before any patch; only a normal return, with every listed claim at the new size, updates the volume size |
| MinioTheorems.RefusedExactlyWhen | multistack/backends/minio_client.py:287-302 | a storage error is given exactly without listed claims or for a shrink met before any unreadable size; a value error exactly for an unreadable new size, or a present one met before any shrink |
| MinioTheorems.ResizeIsRecorded | multistack/state/tracking.py:172-186 | a tracked row keeps its status on success and refusal and is FAILED otherwise; a row not FAILED means all listed claims or none changed |
| MinioTheorems.TurnedDownIsRecorded | multistack/state/tracking.py:172-186 | of the resizes turned down before the first patch, the refusals keep the status, and exactly those that cannot list the claims or read a size make it FAILED |
| MinioTheorems.DeleteRemoves | multistack/backends/minio_client.py:210-243 | success leaves neither release nor policy, nor claims if asked; claims are touched only when asked for |
| MinioTheorems.DeleteIsRecorded | multistack/backends/minio_client.py:210-243 | the row goes exactly when all that was asked for is gone, and is FAILED otherwise, the nested `delete_pvcs` included |

## Left out

- Remote mechanics: SSH, kubectl, helm, SQLite and files. A command is a step that succeeds, fails, times out or answers nothing; a save is atomic and does not fail.
- Process crashes, and concurrent users of one state file, state database, cluster or server.
- `updated_at` and other timestamps except a cluster's creation time; message texts; the `error` text of a row after an update, which `set_status` clears.
- Node fields other than address and role (user, SSH port, key), and the checks behind `check_prerequisites`, which are one answer per call; two cluster names that map to one state file name.
- pydantic's coercion and validation of assignments; specifications are taken as constructed, so `tenant.validate()` does not fail.
- Rke2Backend.Backend.Create: the returned kubeconfig and its file, the token written back onto the specification, and an empty version meaning the latest.
- Rke2Backend.Backend.Update: the returned kubeconfig, its file, and the time of the update.
- Rke2Backend.Backend.Delete: removal of the kubeconfig file, which could raise before the state file goes.
- Rke2Backend.Backend.RunParallel: the returned mapping of results, the choice of error class, and the cap on simultaneous workers.
- Rke2Order.UpgradeFirstServerLast: assumes the specification gives the first server the role server; when it calls it an agent, the code upgrades it with the agents and again at the end.
- PathMtu.CheckPodNetworkMtu: takes the measurements as given and gives the set of warnings, not their order or wording.
- StateStore.ChecksWithout: fixes which checks remain; ChecksCascade adds their order and number per name, not the order between names.
- Cross-capability names: two capabilities that record under one name share a row, so frame facts are per name.
- HelmValues.DeepMerge: deep copies and key order of mappings are not modelled; values have no floats, and keys are strings.
- HelmValues.RedactHidesOnlyBelowSensitive: lower-casing covers ASCII letters.
- HelmValues.LenientListIsExact: paths are sequences of keys, not the dotted strings in messages.
- CacheSpec.Cache.Service: `str()` of an override that is not text is a parameter.
- CacheSpec.Cache.Port: `int()` of the value is left to the caller.
- ChartResolver.Resolver.Resolve: fetching and parsing an index is one step, and the reason a repository was skipped is not kept.
- SeedOrganization.ControlPlane.Seed: starts after login; super-admin bootstrap and password rotation are not modelled, nor listings that lag behind committed writes.
- Quantity.WholeReadsBack: `float` rounding and overflow are replaced by exact decimals.
- Quantity.FractionReadsBack: likewise, so a fraction that `float` rounds may truncate to another byte count.
- MinioBackend.Cluster.CreateTenant: returns the credentials, not the endpoint, pod names and status beside them; reading `config.env` gives the secret's pair or nothing; the values file, the operator's own state, and polling for pods are not modelled.
- `Stack`, the other capability specs and drivers, manifests, `agentic`, `ui` and the remaining examples: they would add only easy members.
