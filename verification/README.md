# Verified model of eth-node-operator

eth-node-operator runs Ethereum nodes on bare metal. An agent on each host reconciles the machine with a YAML spec, an
orchestrator upgrades many hosts in turn, and an inventory builds each host's spec out of shared profiles. Smaller
parts publish chain snapshots, keep one DNS record per host, decide when a maintenance window is open and mount the
data disk. This project models those parts in Dafny and proves what they promise.

`dafny verify dfyconfig.toml` verifies everything. No file depends on anything outside this directory.

## What is modelled

**Rolling upgrade** (`upgrade.dfy`, `agent.dfy`, `drain.dfy`, `progress.dfy`, `cordon.dfy`, `exclusion.dfy`,
`availability.dfy`, `pacing.dfy`, `overlap.dfy`, `cancelled.dfy`, `polling.dfy`, `waiting.dfy`, `story.dfy`).
`RollingUpgrade` is a labelled step relation: one spawner, one goroutine per reached entry of the request, a channel
used as a semaphore, a shared result list, the agent of every node with its background reconcile loop, and a clock.
Each channel operation, locked section, client call and clock reading is one step. Calls may fail with or without
having taken effect, the context may be cancelled at any time, names may repeat or be unknown, `MaxUnavailable` may be
zero or negative. All theorems range over every interleaving. `waitForSync` is also modelled as the loop it is, and
any run's steps of one goroutine are shown to be that loop; what a goroutine calls and reports is said of its own
events, cut out of the run; the agent's handlers are methods on the agent object.

**Profile merging** (`spec.dfy`, `lists.dfy`, `merging.dfy`, `layers.dfy`, `inventory.dfy`, `goheap.dfy`,
`gomerge.dfy`, `gofold.dfy`, `sharing.dfy`, `expand.dfy`). There are two mergers, in `pkg/profile` and in
`pkg/inventory`. On values they are functions whose algebra and meaning are proved; on Go's containers (a slice is an
array, a position, a length and a capacity; a map is an object) they are imperative code that is proved to compute
those functions, to write only to containers made during the call, and hence not to leak between nodes.
`ExpandCluster` appends to one slice from every iteration; what the results then read, and when that is what was
appended, is stated exactly, also for nodes whose own lists lie in the same array.

**Snapshots** (`snapshot.dfy`, `publish.dfy`, `serving.dfy`, `download.dfy`). One output directory under create and
prune cycles in which any effect may fail, the in-place sort, the URL the downloader builds and the path the server
parses.

**Maintenance window** (`window.dfy`), **DNS registration** (`dns.dfy`), **fstab editing** (`fstab.dfy`, `retry.dfy`),
on the string functions of `text.dfy`.

## Where the code and its documentation differ

The model follows the code.

- The README of the repository lists "load spec" before "skip if cordoned"; the reconcile loop reads the flag first
  and loads the spec afterwards, so a pass that read the flag before a Cordon can overlap the upgrade
  (`Overlap.NeverOverlapsExactly`), and only such a pass can (`Overlap.OverlapExactly`).
- Outside the maintenance window the agent only logs that it skips upgrades; it then reconciles as always
  (`Agent.Server.LoadForPass`).
- "Node-level spec always wins" does not hold for switches, where `false` overrides nothing (`Layers.SwitchesAdd`),
  nor for six fields that are never taken over, not even from the node (`Layers.NeverTaken`). The merger of the
  inventory, which expands clusters, takes over thirteen fields and drops all others (`Inventory.NothingElse`).
- The window is called one hour wide; it closes when the clock hour is over, whatever minute it opened at
  (`Window.OpenExactly`, `Window.HourWideExactly`). `NextOpen` gives the next open minute, also when the window is
  open at the start.
- `Delete` asks Route 53 for TTL 300 whatever TTL `Register` used, so after a client swap the old record stays unless
  the TTL is 300 (`Dns.TrackedExactly`).
- When blkid fails, `ensureFstab` writes `UUID=` followed by the device path. No later call corrects that entry, or
  any other (`Fstab.FirstIdStays`).
- "Adds an entry if not already present": a write that breaks off between the mount path and the end of the entry
  leaves a line that every later call takes for the entry (`Retry.RetryExactly`).
- Retaining zero snapshots removes the one just published, and a negative count runs off the end of the list after
  removing everything (`Publish.SafeKeepExactly`, `Snapshot.Maker.PruneOld`).
- A positive count is not enough either. When no block number can be had, `currentBlock` names the snapshot by the
  Unix time, which is above any block number; the next snapshot is older by its number, and its own prune removes it
  right after `latest` was pointed at it (`Publish.TimestampLoses`). What is enough, and necessary, is that no attempt
  redoes the published block and fewer than `keep` directories come after each new one (`Publish.RobustExactly`).
- "Always uncordon when done": the deferred Uncordon is called with the request's own context, so once that is
  cancelled it fails before it is sent. The nodes then being upgraded stay cordoned, and no others
  (`Cancelled.UncordonsExactly`, `Cancelled.CancelStrandsExactly`); it can happen to every request that names a known
  node (`Cancelled.AlwaysUncordonsExactly`).
- Two nodes of a cluster with different extra profiles can end up with one another's profile names, when the cluster's
  own list has spare capacity (`Expand.ListsIntactExactly`). Their specs are not affected (`Expand.ExpandCluster`),
  not even when lists in them lie in that capacity, since the inventory's merger takes none of those
  (`Merging.MergeIgnores`).
- A request that lists a known node twice and may upgrade two nodes at once can uncordon a node that is being
  reconciled (`Exclusion.ShieldedExactly`).

## Model

| member | source | states |
|---|---|---|
| Drain.RunKeeps | internal/upgrade/orchestrator.go:41-82 | every interleaving keeps the invariant: tokens in the channel are the live goroutines plus the spawner's own sends and never exceed the capacity; the names in the result list are those of the recorded entries |
| Drain.DrainBarrier | internal/upgrade/orchestrator.go:46-82 | when the call returns without having given up in a pause, no goroutine is live, and the names in the answer are exactly the multiset of the request's names, repeated and unknown ones included |
| Drain.CancelledAnswer | internal/upgrade/orchestrator.go:46-63 | it gives up only in a cancelled context; the answer then names no more than the entries before the one it gave up at |
| Drain.AvailabilityBound | internal/upgrade/orchestrator.go:44-74 | at most MaxUnavailable goroutines are live in any state, and at most one if that is 1 or less, also after a cancelled return |
| Availability.NeverAboveExactly | internal/upgrade/orchestrator.go:44-74 | no run has more than n goroutines live exactly when n is at least that bound or the number of known entries: a run is constructed for every request that has as many live as both allow |
| Pacing.PausesBetween | internal/upgrade/orchestrator.go:46-54 | between any state in which an entry is not started and any later one in which another entry is, the pause passes once for each entry from the one to the other |
| Pacing.EarliestStart | internal/upgrade/orchestrator.go:46-54 | an entry can be started within a time of the call exactly when that is at least the pause times the number of entries before it; a run is constructed that starts it then |
| Story.CallsFollow | internal/upgrade/orchestrator.go:103-158 | in any state of any run, by a goroutine's own events: its first call is the status call of the preflight unless that is skipped; it then calls Cordon exactly when preflight is skipped or that call returned nil with both clients synced, the reconcile exactly when Cordon returned nil, and enters the wait exactly when the reconcile returned nil without errors; Cordon and reconcile are called nowhere else |
| Story.ExitPaths | internal/upgrade/orchestrator.go:125-200 | by the same events: a goroutine that has ended made exactly one Uncordon call if its Cordon returned nil and none otherwise, and none makes more than 42 status calls in its wait |
| Story.ResultMeaning | internal/upgrade/orchestrator.go:66-158 | every result names an entry; that of a name without a client is an error without actions; any other is ok exactly when, in that goroutine's events, the reconcile returned nil without errors and the last status call of the wait saw both clients synced, and its actions are "cordoned" if Cordon returned nil, then the actions of a reconcile that returned nil, then "sync recovered" exactly if ok |
| Progress.NoDeadlock | internal/upgrade/orchestrator.go:44-82 | in every reachable state short of the end the spawner or a goroutine has an enabled step, whatever agents, callers and the context do |
| Progress.MeasureDrops | internal/upgrade/orchestrator.go:44-200 | every step of the spawner or of a goroutine lowers a measure that nothing else raises |
| Progress.BoundedRun | internal/upgrade/orchestrator.go:44-200 | in any run the spawner and the goroutines make at most 139 steps for each entry, plus the capacity, plus 2 |
| Cordon.CordonedBound | internal/upgrade/orchestrator.go:117-132 | with no other caller of /cordon, the nodes cordoned beyond the initial ones never exceed max(MaxUnavailable, 1) plus the failed Uncordon calls plus the Cordon calls that took effect and reported an error; once no goroutine is live only those leftovers remain |
| Cancelled.CancelStrandsExactly | internal/upgrade/orchestrator.go:117-132 | with no other caller, no two goroutines on one node, and clients whose /cordon calls succeed when they go out and fail unsent in a cancelled context (cli/agentclient/client.go:178-205): a run, cancelled or not, leaves cordoned exactly the nodes that were in a goroutine's bracket when the context was cancelled (at the end, if it never was) and those that were cordoned at the start and that no goroutine had come to uncordon by then; a run that is never cancelled and has ended leaves none that was not cordoned before |
| Cancelled.UncordonsExactly | internal/upgrade/orchestrator.go:125-132 | in such a run every node whose Cordon returned nil ends up uncordoned exactly when no goroutine was between its Cordon and its Uncordon at the cancellation |
| Cancelled.AlwaysUncordonsExactly | internal/upgrade/orchestrator.go:125-132 | as a promise about all runs with such clients, whose goroutines have ended, that is kept by exactly the requests that name no known node; a run is constructed that breaks it for any other |
| Cancelled.CancelStrands | internal/upgrade/orchestrator.go:125-132 | whatever calls failed before: if none goes out any more, every node whose goroutine is in its bracket then is cordoned in every later state |
| Cancelled.CancelFreezes | internal/upgrade/orchestrator.go:125-132 | as long as no call goes out and there is no other caller, no cordon flag changes |
| Cordon.BracketExcludesPasses | internal/agent/server.go:132-140 | with no other caller and no two goroutines on one node: between a successful Cordon and the Uncordon the node is cordoned, no background pass has got past its check since, the next check skips, and a pass still running was running when Cordon took effect |
| Overlap.OverlapExactly | internal/agent/server.go:132-146 | with no other caller and no two goroutines on one node, of any entry in its bracket: some state of the bracket up to then had a background pass running exactly when one was running as the Cordon returned |
| Overlap.NeverOverlapsExactly | internal/agent/server.go:132-146 | the requests in no run of which a background pass runs inside a bracket are exactly those that name no known node; a run with such a pass is constructed for any other |
| Exclusion.ShieldedExactly | internal/upgrade/orchestrator.go:117-158 | the cordon covers reconciling and waiting in every run exactly when one node is upgraded at a time or no known name is listed twice; otherwise a run exists that uncordons a node under the other goroutine |
| Agent.Server.CheckFlag | internal/agent/server.go:132-140 | the locked check lets a pass through exactly when the flag is down, and is the Check step of the background loop |
| Agent.Server.LoadForPass | internal/agent/server.go:142-162 | a pass goes on to reconcile exactly when the spec loads; a spec that does not load leaves the last one in place; what the pass finds out about the maintenance window at any instant, closed, open, unreadable or absent, is what it logs and changes none of this |
| Agent.Server.HandleCordon | internal/agent/server.go:257-282 | sets flag and reason as requested when it answers 200, which it does for every POST whose body decodes; changes nothing otherwise |
| Agent.Server.HandleReconcile | internal/agent/server.go:285-305 | its answer depends on method, spec and reconcile alone and never on the cordon, which it leaves as it is, so the upgrade's own reconcile is not blocked |
| Polling.WaitForSync | internal/upgrade/orchestrator.go:162-200 | nil exactly after a call that reported both clients synced and none before it; an error only past the deadline or in a cancelled context; at most timeout / period + 2 calls |
| Waiting.RunFollows | internal/upgrade/orchestrator.go:76-200 | in any run, one goroutine's own steps, taken out of it with the clock, the context and the agent at each, are in order of time and lead from its state at the start to its state at the end, whatever steps lie between them |
| Waiting.RunPolls | internal/upgrade/orchestrator.go:162-200 | in any run from the start of the call, a goroutine that has entered the wait and then left it did so as the loop does on some script: with that error after that many calls, and the loop can end in no other way on that script |
| Polling.FortyTwo | internal/upgrade/orchestrator.go:147-180 | for ten minutes and fifteen seconds that bound is 42, and a node that never syncs reaches it |
| Story.GivesUpCancelled | internal/upgrade/orchestrator.go:184-186 | a wait that ends because of the context ends in a cancelled one |
| Lists.MergeMatch | pkg/profile/merger.go:243-273 | looking up any key in the merged list gives the last match of the overriding list, else the last match of the other, duplicate keys included |
| Lists.MergeKeys | pkg/profile/merger.go:243-273 | the merged list has the keys of both lists and no other |
| Lists.MergeLayout | pkg/profile/merger.go:243-273 | every position of the overridden list keeps its key; after them come, in order, the elements of the overriding list whose keys are new |
| Lists.MergeAssociative | pkg/profile/merger.go:243-273 | the override of lists is associative without any assumption on keys |
| GoHeap.MergeIndexed | pkg/profile/merger.go:243-273 | the loops over an index that is not refreshed compute that override, in the array of `dst` or a new one, writing to no other |
| GoHeap.MergeMap | pkg/profile/merger.go:84-91 | the entry-by-entry copy, in any order, is the union of maps in which the source wins; it writes to the target alone |
| GoHeap.Extend | pkg/profile/merger.go:200-206 | append: the old elements and then the new ones, in place when they fit and then visible in the backing array, else in a new array with the old one untouched |
| Spec.RuleKeyExact | pkg/profile/merger.go:261-268 | two rules whose protocols have no slash share a printed key exactly when port, protocol and direction agree |
| Merging.MergeSpecsAssociative | pkg/profile/merger.go:78-241 | overriding specs is associative |
| Merging.RightIdentity | pkg/profile/merger.go:78-241 | the empty spec overrides nothing |
| Merging.FoldFails | pkg/profile/merger.go:66-72 | the loop over the names fails exactly when some name has no profile |
| Merging.MergeSplits | pkg/profile/merger.go:63-76 | merging xs + ys under a node is the merge of xs overridden by the merge of ys under the node, and fails exactly when a name is missing |
| Layers.MergeIsStack | pkg/profile/merger.go:60-76 | with all names present the merge is the stack of the profiles and then the node |
| Layers.TopmostWins | pkg/profile/merger.go:60-62 | each of 29 overridable fields has what the topmost layer says that says anything about it, or the zero value when none does |
| Layers.SwitchesAdd | pkg/profile/merger.go:153-219 | each of the five switches is on exactly when some layer turns it on |
| Layers.KeysAdd | pkg/profile/merger.go:84-147 | kernel parameters and client flags have for each key what the topmost layer with that key has, and no other keys |
| Layers.ListsAdd | pkg/profile/merger.go:198-206 | gateways and management networks are those of all layers, in order |
| Layers.KeyedAdd | pkg/profile/merger.go:80-107 | the rule with a key is the last one with it in all layers' lists one after another, and the package with a name is the last one with that name in all layers' packages |
| Layers.PackageNames | pkg/profile/merger.go:243-259 | the packages of the merge have the names of all layers' packages, and each name once if no layer has one twice |
| Layers.NeverTaken | pkg/profile/merger.go:78-241 | resources, snapshot URL, automatic upgrade, search domains, scrape interval and environment file are the zero value whatever the layers say |
| GoMerge.MergeSpecs | pkg/profile/merger.go:78-241 | on Go containers: writes to the seven containers of `dst` alone, returns containers that are `dst`'s own or new, and has the value of the override |
| GoMerge.InventoryMergeSpecs | pkg/inventory/loader.go:104-156 | the second merger on Go containers: writes to three containers of `dst` alone and computes its function on values |
| GoFold.Merge | pkg/profile/merger.go:63-76 | writes to nothing that existed before the call, returns only new containers, fails exactly when a name is missing, and has the value of the merge, also of the partial one beside an error |
| GoFold.MergeNodeProfiles | pkg/inventory/loader.go:91-101 | the same of the second merger's fold |
| GoFold.MergeEach | pkg/profile/merger.go:63-76 | nodes merged one after another against one set of profiles each get what they would get alone, and earlier results stay |
| Merging.MergersAgree | pkg/inventory/loader.go:91-156 | the two mergers fail on the same inputs and agree on execution client, image, data directory and flags, consensus client, image and data directory, firewall provider and policy, window schedule, the MEV switch, and every rule and package looked up by key; the indexed lists are never the longer ones |
| Expand.AppendNames | pkg/inventory/cluster.go:60-61 | one append of a node's names: the list read at once is the cluster's then the node's; where it lands and what the shared array then holds |
| Inventory.InventoryIsStack | pkg/inventory/loader.go:91-101 | with all names present the inventory's merge is the stack of the profiles and then the node |
| Inventory.TopmostOverrides | pkg/inventory/loader.go:105-153 | over any layers: client, image and data directory of both clients, firewall provider and policy and the window's schedule are what the topmost layer says that says anything |
| Inventory.MevWhole | pkg/inventory/loader.go:133-135 | MEV is that of the topmost layer that turns it on, taken over whole with image, address and relays, and zero if none does |
| Inventory.FlagsAdd | pkg/inventory/loader.go:114-121 | each key of the execution flags has the value of the topmost layer with that key |
| Inventory.ListsConcat | pkg/inventory/loader.go:143-149 | rules and packages are those of all layers, in order |
| Inventory.NothingElse | pkg/inventory/loader.go:103-156 | every other field is zero, whatever the layers say |
| Merging.MergeIgnores | pkg/inventory/loader.go:91-156 | the inventory's merge takes gateways and management networks from no profile and from no node: whatever they are, its outcome is the same |
| Expand.ExpandCluster | pkg/inventory/cluster.go:48-88 | for any slices, lists and specs that share arrays with the cluster's list included: fails exactly when an enabled node names a missing profile at its turn; else the results are the enabled nodes in order with name, host, labels and port (0 means the cluster's, whose 0 means 9000); each has the spec that cluster profiles, own profiles and own spec give, the names as they read at its turn, profiles and spec as they were at the start; its containers are new and shared with no other result; each result's list of names reads what all the appends leave; the cluster's own list reads as before |
| Expand.PlanExists | pkg/inventory/cluster.go:54-86 | whatever the lists are, there is one such course of names read and outcomes, turn by turn |
| Expand.OwnListsExactly | pkg/inventory/cluster.go:60-61 | lists in the cluster's own array included, every node's own list reads at its turn what it read at the start exactly when, at each place of the spare capacity that one of them covers, the last node before it whose names fit and reach there has the name that was there |
| Expand.OwnListsStay | pkg/inventory/cluster.go:60-61 | that is so when no own list reaches into the spare capacity of the cluster's list |
| Expand.EnabledRanked | pkg/inventory/cluster.go:55-58 | the nodes the loop does not skip are the enabled ones, each at the position of its rank |
| Expand.ListsIntactExactly | pkg/inventory/cluster.go:60-61 | every result's list of names reads the cluster's names and then its own exactly when any two nodes whose names fit in the spare capacity agree as far as both go |
| Sharing.IntactExactly | pkg/inventory/cluster.go:60-61 | all lists of names read what was appended to them exactly when any two nodes whose names fit in the spare capacity agree as far as both go |
| Sharing.SpreadKeepsExactly | pkg/inventory/cluster.go:60-61 | a place of the spare capacity ends up as it was exactly when the last append that reaches it, if any, puts there what it had |
| Sharing.FullIsIntact | pkg/inventory/cluster.go:60-61 | a list whose length is its capacity is never shared |
| Sharing.Overwritten | pkg/inventory/cluster.go:60-61 | one spare place and two nodes with different names: the first node's list reads the second's name |
| Snapshot.SortBlocks | internal/snapshot/maker.go:157-164 | the nested swap loops leave an ascending permutation |
| Snapshot.Maker.CreateSnapshot | internal/snapshot/maker.go:62-131 | the directory goes through exactly the states of the attempt, effect by effect, and success is the last of them |
| Snapshot.CreateTouches | internal/snapshot/maker.go:81-113 | in each of those states all other directories are as they were, and so is `latest` until the last effect of a success, when the block's archive is whole |
| Snapshot.PartLeftExactly | internal/snapshot/maker.go:104-107 | an attempt leaves a part of an archive exactly when tar broke off and the removal failed as well; a removal that works leaves none of that block |
| Snapshot.Maker.PruneOld | internal/snapshot/maker.go:134-175 | changes nothing and says so exactly when the directory cannot be listed; else removes the oldest numeric directories one at a time along an ascending enumeration of all of them, reports failure exactly when a removal fails, and panics exactly for a negative count none of whose removals fails |
| Publish.PruneKeepsNewest | internal/snapshot/maker.go:134-175 | a prune that succeeds leaves min(keep, n) numeric directories, each at least as new as every removed one, and touches nothing else |
| Publish.FailedPruneRemovesPrefix | internal/snapshot/maker.go:166-175 | a prune that fails at a directory has removed exactly the older ones and may have damaged that one only |
| Publish.CreateServableExactly | internal/snapshot/maker.go:81-113 | an attempt keeps the published archive servable at every step exactly when it does not redo the published block |
| Publish.PruneServableExactly | internal/snapshot/maker.go:134-175 | whichever removal fails and whatever it leaves, a prune keeps the published archive servable at every step exactly when it is not one of those to remove |
| Publish.AfterCounts | internal/snapshot/maker.go:157-167 | in the order of the prune, the directories after one whose number no other has are those with a greater number |
| Publish.CycleServableExactly | cmd/snapshot-server/main.go:126-140 | a create and prune cycle, whatever becomes of its prune, keeps the published archive servable at every step exactly when it does not redo the published block and, if it succeeds, fewer than `keep` numeric directories come after the new one |
| Publish.RobustExactly | cmd/snapshot-server/main.go:126-140 | over any number of cycles, once `latest` exists it names a complete archive in every intermediate state, whatever becomes of any prune, exactly when each cycle meets that condition in the state it finds |
| Publish.AlwaysServable | cmd/snapshot-server/main.go:126-140 | in particular a run whose cycles all meet it has a complete archive under `latest` in every intermediate state, with any step failing |
| Publish.SafeKeepExactly | cmd/snapshot-server/main.go:138-140 | for runs in which each attempt's block is above all numeric directories then present, that guarantee holds exactly for retention counts of at least 1; other runs need the condition of RobustExactly |
| Publish.TimestampLoses | internal/snapshot/maker.go:197-214 | after a snapshot named by the Unix time, the next one with a lower block number is removed by its own prune when one is to be kept, and `latest` then names nothing |
| Serving.ArchiveRoundTrip | internal/snapshot/downloader.go:171-176 | the server parses the downloader's archive path back to that archive exactly when no part contains a slash |
| Serving.LatestRoundTrip | internal/snapshot/downloader.go:129-130 | and the path of `latest` back to that request exactly when neither part does |
| Serving.ArchivePathsExactly | internal/snapshot/server.go:121-146 | a path asks for an archive exactly when, but for a slash at its front, it is three parts without slashes, each with a slash after it, and "snapshot.tar.zst" |
| Serving.LatestPathsExactly | internal/snapshot/server.go:121-146 | and for `latest` exactly when it is two such parts and that word |
| Serving.ArchiveExactly | internal/snapshot/server.go:160-168 | the path of an archive streams what is there exactly for one of the four routed networks and an archive that exists, and is not found otherwise |
| Serving.SlugExactly | internal/snapshot/downloader.go:119-126 | a client has a slug exactly when it spells one of the ten supported names in letters of either case, and the slug is that name |
| Serving.DiscoverExactly | internal/snapshot/downloader.go:160-177 | for any network without a slash and any client: discovery gives this slug, block and URL exactly for a routed network and a client so spelled whose `latest` is there and, trimmed, is that block and not empty |
| Serving.DiscoverServes | internal/snapshot/server.go:121-161 | for a routed network and a supported client with a servable directory, discovery names network, slug and published block, and its URL streams the complete archive |
| Serving.EveryStateServes | internal/snapshot/downloader.go:160-177 | the same in every intermediate state of every run of create and prune cycles that meet the condition of Publish.RobustExactly |
| Download.LaterServesExactly | internal/snapshot/downloader.go:160-177 | a block found in one state of a run and asked for later: its URL streams the complete archive in every state up to then exactly when no effect in between redoes or removes that block |
| Download.CycleSparesExactly | cmd/snapshot-server/main.go:126-140 | a create and prune cycle has no such effect, whatever becomes of its prune, exactly when it does not redo the block and, if it succeeds, fewer than `keep` numeric directories come after the block |
| Download.RunSparesExactly | cmd/snapshot-server/main.go:126-140 | over any number of cycles from a state that has the block, no effect redoes or removes it, whatever becomes of any prune, exactly when each cycle meets that condition |
| Download.RunServesExactly | internal/snapshot/downloader.go:160-177 | a block found before any number of cycles: its URL streams the complete archive in every state to come, whatever becomes of any prune, exactly when each cycle meets that condition for it |
| Window.NextOpen | internal/maintenance/window.go:48-57 | for every accepted schedule and every instant in nanoseconds it finds one: the first open minute to begin after that instant, at most 10080 minutes later; from year 1 on it is not the zero time that stands for none, which is itself open exactly under schedules for midnight on Mondays or on any day (`Window.ZeroTimeOpens`) |
| Window.OpensWithinWeek | internal/maintenance/window.go:34-57 | some minute of the week after any minute is open |
| Window.WholeWeekExactly | internal/maintenance/window.go:48-57 | the answer is a whole week ahead exactly from an open minute of a schedule for one weekday that opens at minute 59 |
| Window.OpenExactly | internal/maintenance/window.go:33-45 | a minute given by day, hour and minute is open exactly on the schedule's weekday, in its hour, from its minute on |
| Window.HourWideExactly | internal/maintenance/window.go:33-45 | from the minute it opens at, the window is open for 60 minutes exactly when it opens on the hour |
| Text.AtoiExactly | internal/maintenance/window.go:99-102 | strconv.Atoi gives a number in the range of 64 bits for the texts that are an optional sign and decimal digits of that value, and for no other |
| Text.ParseUintExactly | internal/snapshot/maker.go:144-150 | strconv.ParseUint gives a number for the texts that are its decimal digits with any leading zeros, if it is below 2^64, and for no other |
| Window.CronExactly | internal/maintenance/window.go:64-93 | a text is accepted as a schedule exactly when it has five words, the first says the minute and the second the hour as "*" for 0 or a number in range, and the fifth the weekday as "*" for any or a number from 0 to 7 with 7 for Sunday; every other text is refused |
| Window.CronRoundTrip | internal/maintenance/window.go:64-93 | every schedule in range is parsed from its printed form, whatever words stand for day of month and month, and Sunday may be 0 or 7 |
| Dns.Manager.Register | internal/dns/route53.go:72-126 | the step-by-step code has the outcome and leaves the zones and state file of the specification, for every way the outside calls go |
| Dns.RegisterLeaves | internal/dns/route53.go:72-156 | for every state and every way the calls go: the requested record changes only by a successful upsert, to that IP and TTL; of all others only that of the previous name goes, exactly when the state file was readable and named it in this zone, the list call showed it and deleting it under TTL 300 worked; the state file changes exactly when upsert and save worked, to what was upserted |
| Dns.RegisterAnswers | internal/dns/route53.go:77-126 | each error and each action is given exactly under its condition on the zone and the state file before the call |
| Dns.KeptUnlessStranded | internal/dns/route53.go:72-156 | over any calls, failing in any way, with TTL 300 or none: some state has a name of the node in the zone and not in the state file exactly when some call upserts a new name and its save fails, or the previous record is there and is not deleted because the state file cannot be read or the list or delete call fails |
| Dns.Manager.Delete | internal/dns/route53.go:129-156 | deletes only the record found, under TTL 300, and reports no error when none is found |
| Dns.Tracked | internal/dns/route53.go:72-126 | from a zone without the node's names and no state file, after any sequence of successful registrations with TTL 300 or none the zone holds exactly the last name with the last IP, as the state file says, and all other records are as before |
| Dns.TrackedExactly | internal/dns/route53.go:129-156 | that holds for a configured TTL exactly when it is 300 or left out |
| Dns.StateFileFollowsExactly | internal/dns/route53.go:97-126 | after one successful call on any state the zone says what was asked; the state file does too exactly when the record was not already current or the file said so before |
| Fstab.Table.Scan | internal/disk/manager.go:356-366 | finds the mount path exactly when an entry of the text is for it |
| Fstab.Table.EnsureFstab | internal/disk/manager.go:348-400 | a call that succeeds leaves the text as it was if the path is mounted and else appends one addition; each failure and what it leaves of the text |
| Fstab.AddsOneEntry | internal/disk/manager.go:380-399 | whatever the text, with or without a final newline, the addition makes its entries the old ones plus exactly one, for the mount path |
| Fstab.AddsSixFields | internal/disk/manager.go:369-381 | where type and options can stand in an entry, that one has six fields: "UUID=" and the UUID or else the device, the mount path, the type, the options with commas between them or "defaults" for none, and two zeros |
| Fstab.RecognisedExactly | internal/disk/manager.go:356-381 | the edit is recognised by the scanner afterwards exactly when the mount path is non-empty and free of white space |
| Retry.RetryExactly | internal/disk/manager.go:348-400 | a write that broke off after k characters and the next call: the text has the full entry exactly when the cut was before the end of the mount path or lost nothing but the final newline; from the end of the mount path on, no later call changes anything |
| Fstab.FirstIdStays | internal/disk/manager.go:348-400 | the entry written for a mount path has for good the id it was written with, the UUID or, when blkid failed, the device path: it stays through any later calls, whatever blkid says then, and calls for the same path change nothing |
| Fstab.SettlesExactly | internal/disk/manager.go:348-400 | every later call changes nothing exactly for such paths |

## Left out

- Drain.CancelledAnswer: when it gives up, the code returns `results` without taking the mutex while goroutines may append to it; the model reads the list in one step.
- Expand.ExpandCluster: labels are values, and so are the lists of a spec that neither merger writes into; this merger takes no list of strings from any spec, so none of them could show what was written to the cluster's array.
- Dns.Tracked: asks for IPs other than the empty string and "None", which the AWS output uses for no value; `publicIP` never returns the empty one.
- Fstab.RecognisedExactly: asks for a UUID, file system type and options that do not break the line.
- Serving.DiscoverServes: path cleaning of the HTTP mux, URL escaping and symbolic links are not modelled.
- GoMerge.MergeSpecs: lists that a merger only assigns whole (name servers, relays, exporters, orders and the like) are values here; nothing in either merger writes into them.
- Publish.AlwaysServable: writing `latest` is all or nothing, and the two makers of one run work in different directories.
- Publish.RobustExactly: asks that every attempt is named by a decimal number of 64 bits, as execution blocks and timestamps are; a beacon node's answer is taken over as the text it is.
- Cancelled.CancelStrands: a call is one step, so one on its way when the context is cancelled counts as ended before or as unsent.
- Each name of the client map stands for one agent; durations and error texts are not kept, only success and actions.
- The growth policy of `append` is left open: the new capacity is a parameter.
- Route 53 lower-casing, record sets other than A, and the time of registration.
- The backup copy of fstab, and all other disk provisioning (lsblk, mdadm, mkfs, findmnt).
- The contents of archives, `Restore`, and the index page of the snapshot server.
- Reconciler and ufw: their convergence depends on what outside programs do.
- HTTP plumbing, authentication, JSON and YAML decoding, collectors, the command line.
- Time zones and leap seconds: minutes are UTC, and polling uses a clock that does not run backwards.
- Unicode lower-casing beyond letters whose lower case is ASCII.
