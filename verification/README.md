# Verification of Porter's state machines and transformations

This project models the parts of Porter that hold real state or real data transformations, and proves
what they guarantee. `dafny verify dfyconfig.toml` checks all of it.

- **Worker pool** (`WorkerPool`, `WorkerPoolSafety`, `WorkerPoolLiveness`). The channel-of-channels
  dispatcher as a transition system: job queue, hand-off goroutines, the pool channel of worker tokens,
  worker states, dispatcher phase. One step is one channel operation or one job returning. Proved over
  every interleaving: jobs are conserved, a worker's channel is never out twice, offers never block, the
  pool drains, shutdown terminates, and exactly when shutdown can strand a job.
- **Vault migration** (`VaultMigration`, `VaultMigrationProofs`). The paged copy pass and the paged clear
  pass over one generic integration table, with failures of every call. Proved over every sequence of
  runs, inserts and clients' updates: no credential is lost unless an update is masked by another vault
  entry; exactly when an update is lost; and exactly when a run loses the credential written last.
- **Manifest post-renderers** (`Manifests`, `EmbeddedManifests`, `EnvReconcile`, `EntryPrint`,
  `EnvPostRenderer`, `PullSecrets`). Manifests are heap objects that refer to one another, are collected
  by a recursive walk, through embedded manifests too, and rewritten in place. Nothing is assumed about
  sharing between them.
- **Stack revisions** (`Stacks`, `StackHistory`, `StackCreation`, `StackChanges`). Cloning with fresh
  UIDs and re-linked references, the append-only history the two hooks build on slices in the heap, the
  creation that a history starts with, and all other ways to a new revision, each with what it makes of
  the latest one and when it can be made. Names of source configs may occur twice; what creating and
  cloning both establish, and cloning relies on, is that a resource refers to the last config of its name.
- **Usage cache** (`UsageCache`), **pod-log fan-in** (`PodLogs`), **revision trimming** (`RevisionTrim`),
  **application annotation** (`AppAnnotation`), **workspace IDs** (`WorkspaceId`), **ECR listing**
  (`EcrImages`).
- `Folds`, `Filters`, `FiniteSets`, `Sorting`, `Text` and `Options` hold what several of these share.

Methods follow the source's loops and are proved against a specification function or predicate; what the
source promises is then proved about that specification for all inputs, runs or histories. Lemmas called
`...Meaning` say over the fields and literals alone what such a specification gives.

## Where the code does not do what one might expect

Each of these is a property that holds only under a condition. The condition is proved to be exact, and a
lemma gives inputs that fail it.

- Shutting the worker pool down is sure to finish every accepted job exactly when queue and hand-offs
  are empty at the exit signal (`ShutdownLosesNothingIff`; `ShutdownStrandsJobs` strands two). When a
  worker's UUID cannot be made, the dispatcher ends silently and every job stays in the queue
  (`FailedStartStrandsAll`).
- The migrations drop the error that the vault's Get returns. If Get fails for a migrated row in a later
  run, the cleared row overwrites its vault entry (`FailedGetLosesCredential`). A row inserted between
  the two passes of a finalizing run is cleared uncopied (`InsertedRowLosesCredential`). A credential
  that a client updates in the table survives exactly when the vault has no other one for it by then
  (`UpdateSurvivesIff`): updated between an initial and a finalizing run it is skipped and then cleared
  (`UpdateBetweenRunsLost`). `LossIff` says exactly when a run loses the credential written last.
- The env renderer calls its sort stable, yet its input order comes from ranging over a map. Its result
  is deterministic, and a second pass changes nothing, exactly when no entries that survive for different
  names print alike (`DeterministicIff`, `IdempotentIff`; `SecondRunIff` for whole manifests). Printing
  does not mark where a value ends, so `{name: A, value: 1}` and `{name: "A value:1"}` print alike
  (`EntriesTie`).
- A usage record is renewed only by a call that finds a change (`RenewsIff`). Calls that find none leave
  its update time, so a stale record is queried for again on every call until one does
  (`RequeriesIff`, `StaleUntilRenewed`; `StaleQueriedInVain`). A cached verdict can miss an excess for up
  to an hour (`ExceededMeansFresh` says exactly when; `ExcessMissed`).
- A revision number used a second time costs the first one's backup (`ReusedNumberLosesBackup`;
  `PassKeeps` says exactly when a pass changes a backup).
- An infra kind with a dash prints a name that its parser rejects (`UniqueNameRoundTrip`); kinds are not
  checked when an infra is created. Printing stays injective for every kind as long as suffixes have no
  dash, and generated ones have none (`PrintersInjectiveAndApart`). `CollidesIff` says exactly when
  another infra would print the same name.
- Which image represents a tag depends on goroutine timing unless the chunks that describe the tag agree
  (`ImagesIndependentIff`, `TimingDecides`).
- A full listing ends at a first page without image IDs. It is that of all pages unless a later page has
  IDs then or cannot be read (`ListsAllIff`, `EmptyFirstPageHides`).
- Unless the websocket's goroutine panics, the error of a pod's log stream is returned exactly if the
  websocket's nil was received before it. In the usual order the error comes first and is lost
  (`ErrorSurvivesIff`, `ErrorLost`).

## Model

| member | source | states |
|---|---|---|
| WorkerPoolSafety.ReachableInv | internal/worker/dispatcher.go:32-71 | in every reachable state, before and after Exit: at most maxWorkers workers exist, workers are exited exactly as far as the stop loop has come, and each worker's channel is out exactly once just when that worker is idle or exited |
| WorkerPoolSafety.JobConservation | internal/worker/dispatcher.go:53-67 | in every reachable state the jobs in the queue, in hand-offs, on workers and completed are together, with multiplicity, exactly the jobs ever enqueued: none is duplicated or vanishes |
| WorkerPoolSafety.TokenUniqueness | internal/worker/dispatcher.go:20-28 | a worker's channel occurs at most once in pool and hand-offs together, and once iff the worker is idle or exited; the pool never exceeds maxWorkers, and a worker's offer is never blocked, also during shutdown |
| WorkerPoolSafety.FirstComeFirstServed | internal/worker/dispatcher.go:53-67 | over every run both channels are queues: hand-off goroutines are started for jobs in the order in which these were enqueued, and take workers in the order in which these offered themselves |
| WorkerPoolSafety.RunningJobFinishesFirst | internal/worker/worker.go:54-65 | a worker seen running a job and later seen exited has in between returned from that very job |
| WorkerPoolLiveness.SomeDrainingStep | internal/worker/dispatcher.go:53-59 | before Exit and with at least one worker, a reachable pool with any work left always has an enabled step that makes progress |
| WorkerPoolLiveness.Drain | internal/worker/worker.go:51-60 | from any reachable state before Exit and without further enqueues, every run is bounded by a weighted backlog, comes to rest exactly when the backlog is used up, and at rest every job ever enqueued has completed iff there is a worker (or there was no job) |
| WorkerPoolLiveness.ShutdownTerminates | internal/worker/dispatcher.go:60-65 | once the exit signal is taken, every run makes boundedly many steps apart from clients' enqueues, and can only come to rest with the dispatcher gone, every worker exited and no job running |
| WorkerPoolLiveness.StopStepEnabled | internal/worker/dispatcher.go:61-63 | the stop loop is never blocked for good: the worker it waits for takes the stop signal or has an enabled step towards doing so |
| WorkerPoolLiveness.DoneIsFinal | internal/worker/dispatcher.go:60-65 | after shutdown no job completes any more and no job leaves its hand-off goroutine |
| WorkerPoolLiveness.ShutdownLosesNothingIff | internal/worker/dispatcher.go:54-65 | all jobs accepted before the exit signal are finished on every run iff queue and hand-offs are empty when it is taken |
| WorkerPoolLiveness.ShutdownStrandsJobs | internal/worker/dispatcher.go:54-65 | for any two jobs, a run of a one-worker pool that ends with the dispatcher gone, one job in a hand-off and one in the queue |
| WorkerPoolLiveness.FailedStartStrandsAll | internal/worker/dispatcher.go:36-43 | if a worker's UUID cannot be made during start, every job ever enqueued remains in the queue |
| VaultMigration.PageExtends | ee/migrate/migrate_vault.go:79-82 | each page query continues exactly where the pages before it ended |
| VaultMigration.Migration.Save | ee/migrate/migrate_vault.go:128-130 | saving a row replaces exactly the row of that ID |
| VaultMigration.Migration.CopyPage | ee/migrate/migrate_vault.go:82-103 | copying one page in a loop extends the row-by-row copy of the pages before it, in vault and error map |
| VaultMigration.Migration.ClearPage | ee/migrate/migrate_vault.go:114-132 | clearing one page extends the row-by-row clearing: rows with a copy error or failed save stay as they are |
| VaultMigration.Migration.Migrate | ee/migrate/migrate_vault.go:67-143 | one whole run, stopping at the first failed count or page read of either pass, is the specified transformation of table and vault |
| VaultMigrationProofs.PagesPartition | ee/migrate/migrate_vault.go:78-79 | for every count the (count/100)+1 pages read every row once and in order, in pieces of at most 100, and always reach one row more than was counted |
| VaultMigrationProofs.RunFailsIff | ee/migrate/migrate_vault.go:67-143 | a run returns an error iff the count fails, or the read of one of the (count/100)+1 pages in the copy pass or, when finalizing, in the clearing pass; failed writes and saves are no errors |
| VaultMigrationProofs.CopyMeaning | ee/migrate/migrate_vault.go:87-103 | after the copy loop a row's vault entry is the old one if Get showed it or the write was refused, else the row's credential; its ID is in the error map iff a write was attempted and reported an error |
| VaultMigrationProofs.EntryAfter | ee/migrate/migrate_vault.go:88-102 | the vault entry of any row after a run, under all failures, in terms of the state before it |
| VaultMigrationProofs.RowAfter | ee/migrate/migrate_vault.go:113-132 | a row is cleared by a run iff the clearing pass reads it, its copy reported no error and the save succeeds; otherwise it is unchanged |
| VaultMigrationProofs.ServedChangesIff | ee/migrate/migrate_vault.go:67-143 | a run changes what a server that reads the vault first serves a row by iff Get hides its entry and a different credential is written over it, or the row was inserted between the passes and is cleared uncopied |
| VaultMigrationProofs.LossIff | ee/migrate/migrate_vault.go:67-143 | a run loses the credential that clients have written last for a row iff Get hides the entry of a cleared row and it is wiped out, or the row is cleared while the vault has an older entry for it, or the row was inserted between the passes and is cleared uncopied |
| VaultMigrationProofs.MigrationSafety | ee/migrate/migrate_vault.go:67-143 | over any sequence of init and finalizing runs, inserts between runs and clients' updates, with any failures of counts, page reads, writes and saves: no run changes a vault entry, every row that is not updated is served by its original credential throughout, and every row for which the vault has no other entry at the start, nor when it is updated in the table, has the credential written last |
| VaultMigrationProofs.MigrationCompletes | ee/migrate/migrate_vault.go:79-104 | after any such history one failure-free finalizing run succeeds, clears every row, inserted ones included, and leaves the vault with the credential each was served by: the original one of rows not updated, and the one written last of rows whose table credential never meets another vault entry |
| VaultMigrationProofs.UpdateSurvivesIff | internal/repository/gorm/auth.go:722-760 | an update of a row in the table survives every later history that does not update the row again iff the vault has no other credential for it at that time |
| VaultMigrationProofs.MaskedUpdateLost | ee/migrate/migrate_vault.go:88-92 | an update that meets another vault entry is lost by the next failure-free finalizing run: the row is skipped and then cleared, and the vault keeps the old entry |
| VaultMigrationProofs.UpdateBetweenRunsLost | ee/migrate/migrate_vault.go:88-126 | for every table and row, an update between a clean init run and a clean finalizing run is in neither place afterwards |
| VaultMigrationProofs.FailedGetLosesCredential | ee/migrate/migrate_vault.go:90 | after a clean finalizing run, a run in which Get fails for a row leaves its credential neither in table nor vault, for every table and row |
| VaultMigrationProofs.InsertedRowLosesCredential | ee/migrate/migrate_vault.go:113-132 | a row inserted between the passes of an otherwise failure-free finalizing run is cleared and has no vault entry, for every table |
| Manifests.GetNestedResource | internal/helm/postrenderer.go:785-799 | follows the keys through nested maps and answers nothing as soon as one is missing or not a map |
| Manifests.ItemMaps | internal/helm/postrenderer.go:642-647 | keeps exactly the items that are maps, in order |
| Manifests.GetPodSpecs | internal/helm/postrenderer.go:625-666 | collects, in order and with aliasing into the manifests, the pod specs of all resources, through lists nested to any depth; resources without a string kind, non-list items fields and unknown kinds are passed over |
| Manifests.PodSpecMeaning | internal/helm/postrenderer.go:770-783 | over the fields alone: a resource without items has exactly the pod spec that the fields named for its kind, one of nine, lead to through maps, and none if the path is broken or the kind is another |
| Manifests.ListMeaning | internal/helm/postrenderer.go:343-359 | a resource with a kind and an items list has exactly what the maps among its items have, in order; other items fields have nothing |
| Manifests.PodSpecsMeaning | internal/helm/postrenderer.go:331-372 | the pod specs of several resources are those of each, one after another |
| Manifests.ContainersMeaning | internal/helm/postrenderer.go:431-449 | the containers of a pod spec are the maps in its container list, in order |
| Manifests.PodSpecsSame | internal/helm/postrenderer.go:331-372 | manifests that agree on the fields walked through have the same pod specs, so rewriting other fields through collected references never changes what a walk finds |
| EnvReconcile.ReconcileMeaning | internal/helm/postrenderer.go:709-745 | the map built by the loop has exactly the names that occur, and for each the first entry with valueFrom if there is one, else the last entry |
| EnvReconcile.SortedEnumeration | internal/helm/postrenderer.go:747-757 | a list is an admissible result (each name's survivor once, in descending print order) iff it is a sorted enumeration of the map |
| EnvReconcile.SortReconciles | internal/helm/postrenderer.go:750-757 | whatever order the map is ranged over, stable sorting gives an admissible result; and every admissible result comes from some order |
| EnvReconcile.ReconcileEnv | internal/helm/postrenderer.go:709-757 | the loop, flattening and sort leave for each name exactly its survivor, once, in descending order |
| EnvReconcile.ReconciledMeaning | internal/helm/postrenderer.go:709-757 | over the fields alone: an admissible result holds exactly the entries that are the first of their name with valueFrom or, if none of the name has it, the last, one of each name, in descending order |
| EnvReconcile.DeterministicIff | internal/helm/postrenderer.go:747-757 | for any env list, the result is independent of map iteration order iff entries that survive for different names have different sort keys |
| EnvReconcile.SecondPass | internal/helm/postrenderer.go:668-767 | a second pass over a result admits exactly what the first pass admits |
| EnvReconcile.IdempotentIff | internal/helm/postrenderer.go:668-767 | for any env list, running the pass twice equals running it once, whatever the two iteration orders, iff entries that survive for different names have different sort keys |
| EnvReconcile.EntriesTie | internal/helm/postrenderer.go:755-757 | for any name a and value v, the two variables {name: a, value: v} and {name: "a value:v"} may come out in either order when the key stands for the printed text |
| EntryPrint.PrintAlike | internal/helm/postrenderer.go:756 | printing a map of strings, keys ascending, as %v does: these two variables print the same text |
| Sorting.SortSorts | internal/helm/postrenderer.go:755-757 | the stable sort returns a descending permutation of its input |
| Sorting.SortIsStable | internal/helm/postrenderer.go:755-757 | entries with equal keys stay in order |
| Sorting.SortOfSorted | internal/helm/postrenderer.go:755-757 | the stable sort leaves a descending list as it is, ties included |
| EnvPostRenderer.UpdateContainer | internal/helm/postrenderer.go:694-759 | a container's env list becomes an admissible reconciliation of the list it had at the start of the run, also when the container is reached again through another pod spec; containers without an env list are untouched |
| EnvPostRenderer.UpdateContainers | internal/helm/postrenderer.go:683-761 | keeps exactly the containers that are maps, in order, and reconciles each |
| EnvPostRenderer.UpdatePodSpec | internal/helm/postrenderer.go:670-763 | a pod spec ends with its container objects only, each reconciled, and nothing done earlier is undone |
| EnvPostRenderer.UpdatePodSpecs | internal/helm/postrenderer.go:668-767 | after the loop this holds of every collected pod spec, whatever containers and pod specs they share |
| EmbeddedManifests.GetEmbedded | internal/helm/postrenderer.go:549-587 | finds the embedded manifest of a ConfigMap whose manifest label is "true", and none otherwise |
| EmbeddedManifests.EmbeddedMeaning | internal/helm/postrenderer.go:549-592 | over the fields alone: exactly a resource of kind ConfigMap whose metadata has the manifest label "true" and whose data has a manifest text carries that manifest |
| EmbeddedManifests.AllPodSpecsMeaning | internal/helm/postrenderer.go:537-623 | what is reached are the pod specs of the resources and those reached in the manifests they carry, and no others |
| EnvPostRenderer.RunEmbedded | internal/helm/postrenderer.go:549-605 | every pod spec of manifests embedded in ConfigMaps, to any depth of embedding, is rewritten in the same way |
| EnvPostRenderer.Run | internal/helm/postrenderer.go:537-623 | afterwards every pod spec reachable through lists and embedded manifests has only reconciled containers; no other field of any object has changed; and walking the result finds the same pod specs |
| EnvPostRenderer.RunMeaning | internal/helm/postrenderer.go:668-767 | over the fields alone: after a run the container list of a pod spec is the maps of the former one, in order, and the env list of each of them holds exactly the entries to be kept |
| EnvPostRenderer.SecondRunChangesNothing | internal/helm/postrenderer.go:537-623 | running the renderer on its own result changes no field of any object, whatever the iteration orders, if no env list has entries that survive for different names and print alike |
| EnvPostRenderer.SecondRunIff | internal/helm/postrenderer.go:537-623 | a second run is sure to change nothing iff that is so: with a tie some other admissible result differs |
| EnvPostRenderer.RunTwice | internal/helm/postrenderer.go:537-623 | two runs in place, one after the other, leave what the first one left, under the same condition |
| PullSecrets.SecretNameInjective | internal/kubernetes/agent.go:1776 | two registries get the same secret name iff they have the same service and ID, whatever dashes the service contains |
| PullSecrets.GetImageList | internal/helm/postrenderer.go:428-460 | the string images of the containers that are maps, in order |
| PullSecrets.ImagesMeaning | internal/helm/postrenderer.go:428-460 | over the fields alone: the images of a pod spec are, in order, the texts under image in the maps of its container list |
| PullSecrets.GetRegistriesToLink | internal/helm/postrenderer.go:268-302 | a registry is linked iff some image of some pod spec names it, it is not native to the cluster, and the project has it; it is then linked to the project's registry of that name |
| PullSecrets.LinkImages | internal/helm/postrenderer.go:276-298 | the loop over one pod spec's images links exactly the non-native, registered registries they name, besides those linked before |
| PullSecrets.Agent.CreateImagePullSecrets | internal/kubernetes/agent.go:1759-1839 | succeeds iff the config of each linked registry can be had and its secret looked up and made; on success, in any iteration order, each linked registry is mapped to its secret, which exists with its docker config; even on failure secrets of other names are untouched and no registry loses a secret that holds its config |
| PullSecrets.Agent.EnsureSecret | internal/kubernetes/agent.go:1778-1832 | one secret is created if absent and updated if its data differ; it fails iff a call that is needed fails, and then changes nothing |
| PullSecrets.CollectSecrets | internal/helm/postrenderer.go:396-420 | the secrets of the images' registries, in order of the images |
| PullSecrets.SecretsForMeaning | internal/helm/postrenderer.go:396-420 | the secrets collected are, in image order, the non-empty names mapped to the images' registries |
| PullSecrets.UpdatePodSpec | internal/helm/postrenderer.go:374-425 | one pod spec's secret list becomes the renderer's earlier entries followed by the secrets of its images' registries, container by container; no other field of any object changes, and what other pod specs have been given stays |
| PullSecrets.UpdatePodSpecs | internal/helm/postrenderer.go:374-426 | afterwards every pod spec has all the secrets its images call for, and nothing but these lists has changed |
| PullSecrets.PassesAgree | internal/helm/postrenderer.go:256-302 | with the secret map made for the linked registries, the attach pass wants a secret for a pod spec iff one of its images needs that registry's secret |
| PullSecrets.CoverageMeaning | internal/helm/postrenderer.go:144-254 | over the fields alone: a covered pod spec lists porter-service-id for every registry of the project that one of its images names and that is not native to the cluster, the cluster holds that secret with the registry's config, and nothing else was added to the list |
| PullSecrets.RenderEmbedded | internal/helm/postrenderer.go:160-219 | the manifest a resource carries, and only a labelled ConfigMap does, is rendered in the same way or left as it was |
| PullSecrets.RunEmbedded | internal/helm/postrenderer.go:157-221 | the loop does so for every resource, whichever of the inner runs fail |
| PullSecrets.RunOn | internal/helm/postrenderer.go:144-254 | one renderer links first, then renders embedded manifests, then makes its secrets and attaches them; if they cannot be made, what it and the inner renderers did to the manifests is discarded, while no registry loses a secret that holds its config |
| PullSecrets.Run | internal/helm/postrenderer.go:144-254 | every manifest, the outer one and those embedded in labelled ConfigMaps to any depth, is either unchanged or rendered: each of its pod specs, through nested lists, then has exactly the renderer's former entries and the secrets of the non-native, registered registries of its images, all existing with their configs; no other field changes, the manifests are unchanged when the outer creation fails, and without failures every pod spec is covered |
| Stacks.ToStackResource | internal/models/stack.go:131-140 | a resource is shown with the first source config of its UID, or an empty one |
| Stacks.CloneSourceConfigs | internal/stacks/helpers.go:10-32 | clones every source config with its own fresh UID, or fails as soon as no UID can be made |
| Stacks.LinkSourceConfig | internal/stacks/helpers.go:50-61 | the nested loops compute the link to the last same-named new config of the last previous config with the old UID |
| Stacks.CloneAppResources | internal/stacks/helpers.go:34-79 | clones every resource re-linked that way, failing at the first without a UID or with a dangling link |
| Stacks.CloneStackEnvGroups | internal/stacks/helpers.go:81-102 | clones every env group with a fresh UID and the same version, or fails when no UID can be made |
| Stacks.LinkMeaning | internal/stacks/helpers.go:50-65 | for any previous and new list, as when a client replaces the configs: the link of a clone is empty iff no previous config with the old UID has a namesake in the new list, and otherwise goes to the last namesake of the last such config |
| Stacks.CloneLinksToLast | internal/stacks/helpers.go:43-76 | whatever the lists, every cloned resource refers to the last config of its name in the new list |
| Stacks.CloneFailsIff | internal/stacks/helpers.go:63-65 | for any previous and new list, cloning fails iff some resource's UID belongs to no previous config that has a namesake in the new list |
| Stacks.CloneFailsIffDangling | internal/stacks/helpers.go:63-65 | with fresh UIDs, cloning a revision's resources fails iff some resource refers to no source config |
| Stacks.CloneResolves | internal/models/stack.go:131-140 | for any configs, duplicates included: which config a cloned resource resolves to, and that it shows the same content iff that config and the one the original resolved to have the same content |
| Stacks.ClonePreservesMeaning | internal/stacks/helpers.go:34-79 | with unique UIDs and resources that refer to the last config of its name, duplicate names included, every cloned resource resolves to the clone of what the original resolved to, with the same repository, tag and other content |
| Stacks.EarlierNamesakeMoves | internal/stacks/helpers.go:55-59 | a resource referring to the earlier of two namesakes, which is never made, would show the later one once cloned |
| StackHistory.StackRepository.ReadLatest | internal/repository/gorm/stack.go:77-92 | the revision read first is one with the highest number |
| StackHistory.UpdateApps | internal/stacks/hooks.go:148-154 | updates the cloned slice in place; a synced application's Helm revision grows by exactly one however often it is listed, an upgraded release gets its new revision, and others keep theirs |
| StackHistory.UpdateGroups | internal/stacks/hooks.go:141-145 | updates in place exactly the env groups of the upgraded name to the new version |
| StackHistory.NewRevision | internal/stacks/hooks.go:49-83 | derives the next revision into freshly allocated slices only, or fails as cloning does |
| StackHistory.StackRepository.DeriveNext | internal/stacks/hooks.go:120-163 | derives from the latest revision and leaves the whole history unchanged |
| StackHistory.StackRepository.AppendNewRevision | internal/repository/gorm/stack.go:157-175 | appends the revision after all others, which keep their contents |
| StackHistory.StackRepository.Update | internal/stacks/hooks.go:13-88 | either hook takes the history to the specified one and reports an error exactly in the specified cases; appended slices are fresh, so no earlier revision is aliased |
| StackHistory.DeriveMeaning | internal/stacks/hooks.go:76-83 | the derived revision is numbered one higher, has status deployed and the hook's reason, new UIDs, every reference to the last config of a name, the same resources, sources and env groups with every resource showing the same content, and differs in just the called-for Helm revisions and versions |
| StackHistory.DerivesIff | internal/stacks/hooks.go:49-74 | deriving a revision from a well-formed one fails iff the random source fails |
| StackHistory.GroupsCloned | internal/stacks/helpers.go:81-102 | cloned env groups have the new UIDs and otherwise the same name, version, namespace, project and cluster; cloning them fails iff a UID cannot be made |
| StackHistory.HookAppendsNext | internal/stacks/hooks.go:90-168 | a hook appends one such revision after an unchanged history iff lookups, UID generation and repository succeed; otherwise it appends nothing and fails, except when the release or env group belongs to no stack |
| StackHistory.RevisionHistory | internal/stacks/hooks.go:13-168 | over any sequence of hook calls, failing or not: earlier revisions never change, numbers are consecutive, and every new revision is well-formed, differs from the one before it by exactly the effect of one of the calls, and shows the same resources, content and env groups as the one the history started with |
| StackCreation.GetSourceConfigModels | api/server/handlers/stack/create.go:276-300 | creates a config with a fresh UID for each requested source that is not built, duplicate names included |
| StackCreation.CreatedSourcesMeaning | api/server/handlers/stack/create.go:276-300 | the created configs are, in order, exactly the requests that are not built, each with its own name, display name, repository, tag and UID; creating them fails iff a UID cannot be made |
| StackCreation.FindNamed | api/server/handlers/stack/create.go:316-322 | the loop leaves the UID of the last config of the name |
| StackCreation.GetResourceModels | api/server/handlers/stack/create.go:302-340 | creates the resources with that link, failing at the first without a UID or with no config of the name |
| StackCreation.CreatedAppsMeaning | api/server/handlers/stack/create.go:302-340 | the created resources are, in order, those requested, by name and template, with the default repository where none is named, at Helm revision 1 |
| StackCreation.CreatedAppsIff | api/server/handlers/stack/create.go:302-340 | creating them succeeds iff UIDs can be made and every one names one of the configs |
| StackCreation.CreatedLinksToLast | api/server/handlers/stack/create.go:316-332 | every created resource refers to the last config of the name it asked for |
| StackCreation.CreatedWellFormed | api/server/handlers/stack/create.go:56-68 | every stack that is created meets what the history theorems assume, whatever the names |
| StackCreation.CreatedIff | api/server/handlers/stack/create.go:56-68 | the source configs and resources of a first revision are made iff UIDs can be made and every application names a requested source that is not built |
| StackCreation.PutWellFormed | api/server/handlers/stack/update_source_put.go:62-84 | replacing the source configs by an unrelated list leaves any stack well-formed, and says which new config each resource then shows |
| StackCreation.CreatedHistory | internal/stacks/hooks.go:13-168 | for any creation request and any sequence of hook calls after it: the first revision never changes, numbers count up from one, and every revision has each application by requested name and template, first at Helm revision 1, and shows it with the display name, repository and tag of the last request for the source the client named for it |
| StackChanges.RemoveAppResource | api/server/handlers/stack/remove_application.go:80-86 | the loop keeps exactly the resources of other names, in order |
| StackChanges.HasDuplicateApps | api/server/handlers/stack/add_application.go:85-95 | finds out whether a name occurs twice |
| StackChanges.CloneViewMeaning | api/server/handlers/stack/rollback.go:76-99 | cloning a whole revision keeps, under new UIDs, every resource with its template, Helm revision and the content it shows, every source, and every env group with its version; and it keeps well-formedness |
| StackChanges.ClonesIff | api/server/handlers/stack/rollback.go:76-95 | it fails iff the random source fails |
| StackChanges.NewViewMeaning | api/server/handlers/stack/add_application.go:55-111 | whatever the change - hook, source replacement, rollback, adding or removing an application or an env group - the new revision is well-formed and numbered one higher than the latest |
| StackChanges.RemovesApp | api/server/handlers/stack/remove_application.go:59-95 | removing an application leaves exactly the applications of other names, in order, with their template, Helm revision and the source they showed, and all sources and env groups |
| StackChanges.AddsApp | api/server/handlers/stack/add_application.go:62-111 | adding an application keeps all others, sources and env groups, and puts last a resource with the requested name and template, at Helm revision 1, that shows the last source of the requested name |
| StackChanges.AddsAppIff | api/server/handlers/stack/add_application.go:62-95 | it succeeds iff UIDs can be made, the revision has a source of the requested name, and no application name would occur twice |
| StackChanges.AddsGroup | api/server/handlers/stack/add_env_group.go:61-110 | adding an env group keeps applications, sources and all other groups and puts it last, at version 1 under a new UID; it succeeds iff UIDs can be made and no group name would occur twice |
| StackChanges.RemovesGroup | api/server/handlers/stack/remove_env_group.go:59-98 | removing an env group leaves exactly the groups of other names, in order, with their versions, and all applications and sources |
| StackChanges.PutsSources | api/server/handlers/stack/update_source_put.go:62-84 | replacing the sources gives exactly the requested ones, keeps the env groups as they are, and keeps every application with its template and Helm revision, showing what the last request for the source it showed asks for |
| StackChanges.PutsSourcesIff | api/server/handlers/stack/update_source_put.go:62-82 | it succeeds iff UIDs can be made and some request, not built, is for each source that an application shows |
| StackChanges.ChangeMeaning | internal/repository/gorm/stack.go:157-175 | one change of any kind: the history grows by one revision that holds exactly what the change makes of the latest one, or of a rollback's target, iff the change can be made and the repository succeeds; else it stays as it is |
| StackChanges.RollbackRestores | api/server/handlers/stack/rollback.go:56-101 | the revision a rollback appends is deploying and has the resources, content shown, Helm revisions, sources, env-group versions and reason of its target |
| StackChanges.ChangeHistory | internal/repository/gorm/stack.go:157-175 | over any sequence of such changes, failing or not: earlier revisions never change, numbers are consecutive, and every revision is well-formed and is exactly what one of the changes makes of the revisions before it |
| StackChanges.CreatedChangeHistory | api/server/handlers/stack/create.go:56-117 | so it is from the creation of any stack on, counting from one |
| StackChanges.CreatesStackIff | api/server/handlers/stack/create.go:56-122 | a stack is created iff UIDs can be made, every application names a requested source that is not built, and no application or env-group name occurs twice; it then has the requested groups at version 1 and is otherwise the first revision of the history theorems |
| UsageCache.CountRoles | internal/usage/usage.go:56-62 | counts the members that are not whitelisted |
| UsageCache.GetResourceUsage | internal/usage/usage.go:134-162 | sums over the reachable clusters in 64-bit arithmetic, then converts by integer division |
| UsageCache.ResourceUsageMeaning | internal/usage/usage.go:134-162 | CPU is the sum over the clusters that can be read, modulo 2^64, divided by 1000, and memory likewise by 1000000 |
| UsageCache.CountedUsersMeaning | internal/usage/usage.go:53-62 | users are the number of roles whose user is not whitelisted |
| UsageCache.ProjectUsageRepository.GetUsage | internal/usage/usage.go:24-114 | one call takes the stored record and gives the result as specified by the decide-and-always-write form, a skipped write differing in the update time only; a failed call changes nothing |
| UsageCache.ReturnedNumbers | internal/usage/usage.go:64-112 | a returned record has the numbers of clusters and users as they are, CPU and memory as they are or, if no query is due, as stored, and is not exceeded iff each of the four limits is 0 or at least the number |
| UsageCache.ReturnedTimes | internal/usage/usage.go:90-106 | ExceededSince and the update time of a returned record, which is also what is stored; a failed call leaves the store as it was |
| UsageCache.FailsIff | internal/usage/usage.go:24-106 | a call fails iff a read fails, or a write that is needed, because there is no record or it changed |
| UsageCache.StoredIsReturned | internal/usage/usage.go:98-102 | over any sequence of calls, after each successful one the stored record equals the returned one although unchanged records are not written |
| UsageCache.ExceededSinceIsStreakStart | internal/usage/usage.go:88-96 | over any sequence of calls, while the record is exceeded its ExceededSince is the time of the first call of the current streak |
| UsageCache.ExceededMeansFresh | internal/usage/usage.go:75-88 | an exceeded verdict always rests on numbers queried in the same call; and a verdict differs from the one fresh numbers give iff it misses an excess while the record is at most an hour old, has the same counts and is itself within the limit |
| UsageCache.ExcessMissed | internal/usage/usage.go:75-88 | for every CPU limit, a cluster grown past it and a record within it written in the last hour: the excess is missed |
| UsageCache.RenewsIff | internal/usage/usage.go:90-102 | a call writes iff there is no record, or it queried and finds other numbers or another verdict than the record, or it did not query and the record says exceeded; the record then stored is new iff the call succeeds |
| UsageCache.RequeriesIff | internal/usage/usage.go:75-77 | over any sequence of calls, failing or not: the next one queries again iff there is no record, over an hour has passed since the last successful call that found a change, the counts are new, or they are over the limit |
| UsageCache.StaleUntilRenewed | internal/usage/usage.go:75-102 | after calls in the last hour on a stale record, a next call with unchanged counts within the limit queries again iff none of them found a change and succeeded |
| UsageCache.UnchangedKeepsRequerying | internal/models/usage.go:67-70 | while no call renews a record that is over an hour old it stays as it is, and every further call, whatever its counts and limit, queries again |
| UsageCache.StaleQueriedInVain | internal/usage/usage.go:75-102 | for every limit and every usage within it: a call on a stale record whose cluster reports what the record says queries, leaves the record stale, and the same call later queries again |
| PodLogs.ReachableInv | internal/kubernetes/agent.go:1169-1234 | in every interleaving, panics included, the wait group counts the unfinished producers and the state remembers the last value received and the log producer's last error |
| PodLogs.CloseProtocol | internal/kubernetes/agent.go:1172-1179 | the error channel is closed at most once and only when both producers have finished, so nothing is sent after it; the streams are closed at most once; the consumer returns only after the channel is closed |
| PodLogs.ReturnsLastError | internal/kubernetes/agent.go:1225-1233 | the result is the log producer's error if that was received last and nil otherwise, and the streams have been closed iff any value was received |
| PodLogs.ErrorSurvivesIff | internal/kubernetes/agent.go:1225-1233 | unless the websocket producer panics, the log producer's error is returned iff the websocket's nil was received first and the error after it; an error received first is lost |
| PodLogs.ErrorLost | internal/kubernetes/agent.go:1189-1233 | for every error, a run without panics in which the log stream fails with it and nil is returned |
| PodLogs.FewSteps | internal/kubernetes/agent.go:1181-1223 | every run has at most 12 steps other than passing messages and lines along |
| PodLogs.ConsumerReturns | internal/kubernetes/agent.go:1225-1231 | after the first value: closing the streams stays possible until it is done, and until then only passing messages and lines along is unbounded; once the streams are closed every run is bounded; and no run comes to rest before the consumer has returned |
| PodLogs.StreamingUntilClosed | internal/kubernetes/agent.go:1210-1222 | while the streams are open, passing a line along leads back to the same state |
| RevisionTrim.IndexIsRank | workers/jobs/helm_revisions_count_tracker.go:249-252 | in the reversed order a revision's index is the number of newer ones |
| RevisionTrim.SelectedByIndex | workers/jobs/helm_revisions_count_tracker.go:252-253 | the revisions from index 100 on are exactly those with at least 100 newer ones |
| RevisionTrim.Release.TrimOne | workers/jobs/helm_revisions_count_tracker.go:253-286 | one revision is backed up before it is deleted, and is not deleted if marshalling or backup reports an error |
| RevisionTrim.Release.TrimFrom | workers/jobs/helm_revisions_count_tracker.go:252-287 | the loop treats each selected revision once, and no other |
| RevisionTrim.Release.Trim | workers/jobs/helm_revisions_count_tracker.go:232-287 | a pass over a release, in whatever order its history is listed, is the specified change of cluster and bucket |
| RevisionTrim.PassMeaning | workers/jobs/helm_revisions_count_tracker.go:232-287 | one revision after a pass: with at least 100 newer ones, if the history is read and it can be marshalled, it is written to the bucket, and deleted iff write and deletion report no error and take effect; no other revision or backup changes |
| RevisionTrim.PassKeeps | workers/jobs/helm_revisions_count_tracker.go:252-287 | the 100 highest-numbered revisions survive whatever fails; and a pass keeps every backup unchanged iff no revision is backed up with other contents under a number already in the bucket |
| RevisionTrim.CleanPass | workers/jobs/helm_revisions_count_tracker.go:240-287 | a failure-free pass leaves exactly the highest min(n, 100) revisions, and a second one changes nothing |
| RevisionTrim.RevisionsConserved | workers/jobs/helm_revisions_count_tracker.go:255-283 | from any start at which nothing is missing, backups included, and over any sequence of upgrades and passes with any failures, cluster and bucket together hold every revision that ever existed, with its contents, and nothing else |
| RevisionTrim.ReusedNumberLosesBackup | workers/jobs/helm_revisions_count_tracker.go:264-266 | trimming a revision whose number has an older, different backup replaces that backup |
| AppAnnotation.ConfigMap.AddApplication | internal/kubernetes/agent.go:137-170 | the annotation text after adding, a nil map, absent or empty annotation included; other annotations stay |
| AppAnnotation.ConfigMap.RemoveApplication | internal/kubernetes/agent.go:172-203 | fails without change iff the annotation is absent, else rewrites just that annotation |
| AppAnnotation.AddRefines | internal/kubernetes/agent.go:146-161 | for a non-empty comma-free name, adding to the text is adding to the ordered set it is read as |
| AppAnnotation.AddRefinesIff | internal/kubernetes/agent.go:146-161 | adding refines the set operation on every annotation iff the name is non-empty and comma-free |
| AppAnnotation.RemoveRefines | internal/kubernetes/agent.go:185-194 | for every name, removing from the text is removing from the set; the empty text left by the last name is read as the empty set |
| AppAnnotation.RemoveRefinesIff | internal/kubernetes/agent.go:185-194 | for every annotation and name: removing from the text is removing from the set iff not a single empty name would be left |
| AppAnnotation.WithoutInOrder | internal/kubernetes/agent.go:188-192 | the other names stay, in order |
| AppAnnotation.TextOfTwo | internal/kubernetes/agent.go:146-161 | two names are kept as the one, a comma and the other, and each can be removed again |
| AppAnnotation.AddLaws | internal/kubernetes/agent.go:137-203 | adding twice is adding once, and removing a name just added gives the identical text back |
| AppAnnotation.RefinesSet | internal/kubernetes/agent.go:137-203 | over any sequence of adds of non-empty comma-free names and removes of any names, the annotation is read as the duplicate-free ordered set the same operations make |
| Text.SplitJoin | internal/kubernetes/agent.go:194 | splitting what was joined from separator-free parts gives the parts back |
| Text.JoinSplit | internal/kubernetes/agent.go:185 | joining what any text was split into gives the text back |
| Text.ParsePrinted | internal/models/infra.go:204-214 | a printed number is parsed back to itself iff it fits 64 bits, and is rejected otherwise |
| Text.DecimalMeaning | internal/models/infra.go:193 | a number is printed digit by digit, the most significant first, without leading zeros |
| Text.ParsesIff | internal/models/infra.go:204-214 | exactly the decimal texts of 64-bit numbers, with or without leading zeros, are parsed, each to its number |
| WorkspaceId.UniqueNameRoundTrip | internal/models/infra.go:192-217 | parsing a printed unique name gives the infra back if kind and suffix are dash-free, and fails otherwise |
| WorkspaceId.NameParses | internal/models/infra.go:197-217 | for any text: it is malformed iff it has not three dashes, has a bad number iff the second or third part is not a 64-bit number, and otherwise is parsed to its parts |
| WorkspaceId.WorkspaceRoundTrip | internal/models/infra.go:227-261 | parsing a printed workspace ID gives all parts back iff they are dash-free and the operation UID has 20 characters, and otherwise fails with the respective error |
| WorkspaceId.WorkspaceParses | internal/models/infra.go:227-257 | for any text: it is malformed iff it has not four dashes, has a bad number iff the second or third part is not a 64-bit number, a bad UID iff then the last part has not 20 characters, and otherwise is parsed to its parts |
| WorkspaceId.SomeParts | internal/models/infra.go:198-228 | every text is made of one dash-free part more than it has dashes |
| WorkspaceId.PrintersInjectiveAndApart | internal/models/infra.go:192-261 | for dash-free suffixes and operation UIDs, as they are generated, and any kinds, both printers are injective and the name parser rejects workspace IDs |
| WorkspaceId.NameReadAsWorkspaceIff | internal/models/infra.go:227-257 | with a dash-free suffix the workspace parser accepts a unique name iff the suffix has 20 characters, which generated ones have not, and the kind is two parts of which the second is a number |
| WorkspaceId.CollidesIff | internal/models/infra.go:192-194 | for every infra: another one with 64-bit IDs prints the same name iff the parts of the name can be read as number, number and suffix from another place on |
| WorkspaceId.DashesCollide | internal/models/infra.go:192-194 | every kind that ends in a number collides with the kind without it and a suffix with a dash |
| WorkspaceId.ParsedNameIsPrintedIff | internal/models/infra.go:197-217 | an accepted name is the printed form of what it parses to iff its two numbers have no leading zeros |
| EcrImages.ChunksPartition | internal/registry/registry.go:1010-1015 | the chunks cut the ID list, in order and without omission, into pieces of 100, the last of at most 100 and not empty |
| EcrImages.DescribeAll | internal/registry/registry.go:1007-1037 | whatever order the goroutines take the mutex in, each chunk's successful result is appended once: the details merged are a permutation of all chunks' results one after another |
| EcrImages.MergeIsPermutation | internal/registry/registry.go:1031-1033 | any two interleavings merge the same details, with multiplicity |
| EcrImages.FirstMeaning | internal/registry/registry.go:1042-1055 | the dedup map has exactly the tags that occur, each with the first image that has it |
| EcrImages.TaggedMeaning | internal/registry/registry.go:1042-1054 | an image is among those of the details iff some detail has its tag, digest and push time, and it has the repository |
| EcrImages.ResultOfAnswers | internal/registry/registry.go:1007-1055 | over the describe answers alone, for every interleaving: a tag is in the result iff the answer for some successful chunk has a detail with it, and its image is what one such detail says |
| EcrImages.TagsIndependent | internal/registry/registry.go:1039-1055 | the listed tags are those of all successful chunks, whatever the interleaving |
| EcrImages.ImagesIndependentIff | internal/registry/registry.go:1039-1055 | the images are the same for every interleaving iff the chunks that have a tag in common have the same image for it |
| EcrImages.TimingDecides | internal/registry/registry.go:1031-1055 | for any IDs, if the answers for two chunks carry a tag with different digests, as when it is moved between the two calls, two interleavings give different images |
| EcrImages.Flatten | internal/registry/registry.go:1057-1059 | one image for each tag of the map, in any order |
| EcrImages.FetchIDs | internal/registry/registry.go:985-1002 | the paging loop collects the IDs of all pages, or fails if a page read fails |
| EcrImages.AllPagesInOrder | internal/registry/registry.go:985-1002 | they are the IDs of the pages, one page after another |
| EcrImages.ListsAllIff | internal/registry/registry.go:972-1002 | the listing is that of all pages iff the first page has IDs or cannot be read, or else every later page can be read and has none |
| EcrImages.EmptyFirstPageHides | internal/registry/registry.go:981-983 | for every image ID, a first page without IDs hides it when it comes on the second |
| EcrImages.FirstImages | internal/registry/registry.go:1042-1055 | the nested loops keep the first image of each tag |
| EcrImages.ListECRImages | internal/registry/registry.go:968-1061 | fails iff a page read fails before the listing ends; else returns exactly one image for each tag that a successful chunk's answer has, with digest and push time of a detail that has it, for some interleaving of the goroutines over all listed IDs |
| EcrImages.CollectMeaning | internal/registry/registry.go:918-941 | the bounded collection is the first image of every listed tag if they fit, and maxResults of them otherwise |
| EcrImages.CollectTags | internal/registry/registry.go:919-936 | the inner loop extends the bounded collection by one detail's tags and stops as soon as it is full |
| EcrImages.CollectDetails | internal/registry/registry.go:918-941 | both loops with both early exits compute the bounded collection |
| EcrImages.GetECRPaginatedImages | internal/registry/registry.go:859-947 | one image a tag, as many as the smaller of maxResults and the number of listed tags that some successful chunk's answer has, each with digest and push time of such an answer; so no described tag is lost from a page that is no longer than asked for; the token for the next page is returned unless the page is empty |

## Left out

- HTTP server and client, routers, authorization, command line, dashboard, provisioner and gRPC: wiring and I/O.
- Cloud SDKs, Helm, Kubernetes, gorm, Vault and S3: each call is a parameter that says what it answers or whether it fails.
- YAML and JSON text: manifests are the decoded objects, and an embedded manifest's text is the list of documents it decodes to.
- Image-reference parsing, the registry-native test and docker configs are arbitrary functions; a native test that depends on a database read is taken to answer alike within one run.
- The print order of env entries is an arbitrary integer key of the entry object, and printing itself is modelled for entries of strings only; that rewriting the lists does not change how a single entry prints is assumed.
- PullSecrets.UpdatePodSpec: does not model keeping a list decoded from YAML, which depends on the dynamic type the YAML library produces.
- EnvReconcile.ReconcileEnv: does not model sort.SliceStable's algorithm, only a stable sort by the comparison; the comparison is by key, not by text.
- The other three migrations of ee/migrate differ from the modelled one only in columns; the model has one credential per row.
- VaultMigrationProofs.MigrationSafety: assumes that Get answers nil only if there is no entry, that no row is inserted between the two passes, and, for rows that clients update in the table, that an existing vault entry is not an older one; all three are shown to be needed. An update in the vault is taken to succeed: one that strips the row and then fails to write the vault is not modelled.
- WorkerPool: a negative maxWorkers, the queue's capacity, panicking jobs and jobs that never return are not modelled.
- StackHistory: revision messages, row IDs and timestamps are not modelled, and hooks run one after another; two at once could take the same number.
- StackHistory.RevisionHistory: assumes that the random source returns no empty and no repeated UID.
- StackChanges.ChangeHistory: does not model what deploying to the cluster afterwards writes into the new revision's status, reason and Helm revisions, nor database rows: replacing sources appends the latest revision's own env groups again.
- UsageCache: the limit is read from a parameter; clock readings are parameters.
- RevisionTrim.RevisionsConserved: assumes that numbers are not reused and that a lost backup reports an error; clusters are trimmed independently, so one release is modelled.
- EcrImages: a listing whose pages never end is not modelled; the describe call is a function of the chunk.
- GetPodLogs: choosing the container and opening the stream, before the goroutines start.
- Text and workspace IDs: Go strings are sequences of characters rather than bytes.
- The informer-based streams, the recommender job, the deprecated-API-version mapper, the flat type conversions and the retry wrappers.
