# TyO3 engine: a verified model

TyO3 keeps a Python project under continuous analysis. Every write is one commit: it
stages new content, rebinds durable identities to the entities found in that content,
updates a dependency graph, works out which ids are affected, and publishes last. A bus
then delivers the result to subscribers. This project models that path in Dafny and proves
what each part promises, for all inputs and over whole runs.

`dafny verify dfyconfig.toml` checks everything.

## How the project is laid out

| files | what they hold |
|---|---|
| `Wrappers`, `Orders` | `Option` and `Result`; string order, stable sorting, canonical ascending lists |
| `EditDistance` | edit scripts as the reference, the recurrence, the two-row computation |
| `Identity`, `Matching`, `Reconcile`, `AppliedFacts`, `ReconcileTheorems`, `MatchingTheorems`, `Classification`, `IdentityRuns` | the registry and its three indexes, the four matching passes, apply and retire, and their theorems |
| `CodeLayer` | nodes, edges, the reverse-dependency index, the affected closure, the minimal diff |
| `LayerSpec`, `NodeLists`, `Builder`, `OverridePass`, `Rebuild` | what each file contributes to the layer, the producer's passes, the full build and its stubs |
| `Enclosure`, `Names`, `EdgeMeaning` | what enclosing symbols, names and paths mean, and every node and edge of a full build in those terms |
| `Scoped`, `Patchwork`, `Exactness`, `Stubs`, `DirtySet` | the scoped rebuild, what any number of them leaves behind, exactly when that equals a full build, which stubs remain, and which files the dirty set reaches |
| `ContentStore`, `StoreRuns` | staged and published generations, versions, the retained window |
| `CommitPlan`, `LayerProducer`, `Commit`, `CommitRuns`, `CommitMeaning`, `Announcements`, `LayerRuns` | the commit as an atomic transaction, the producer that it runs, the step-by-step commit that refines it, runs with failures, what each write does and announces, and the code layer over runs |
| `Deltas`, `Subscriptions`, `Bus`, `NeverMiss` | interests and scoping, bounded queues, the bus as a value and as an object, and the whole system in any interleaving |
| `Dependents` | from an edit to the subscribers of everything that depends on it |
| `Layers` | the topological order of configured layers |

State that the program updates in place is a class (`IdentityRegistry`, `Builder`,
`ContentStore`, `Head`, `Subscription`, `Bus`); each method's contract equates the new state
with a function of the old one, and the theorems are about those functions.

## Modelling decisions

- Durable ids, paths and names are strings under lexicographic order; content hashes are
  numbers, compared for equality, and by size only where sorting breaks a tie between entities
  of one path. A node id is a constructor (`EntityId`, `ModuleId`, `ExternalId`) rather than a
  spelled string, so the spelling is taken to be injective.
- Minting draws from a supply of ids that are distinct and not in the registry.
- Iteration over a hash map or a hash set is an arbitrary choice at each step.
- The analysis engine is a value: per project file its symbols, occurrences and supertypes
  (or an error), plus package inference for off-project paths. A commit reads it and its
  entities as inputs, together with the disk and the set of steps that fail, so each theorem
  about commits covers every failure pattern. The layer it installs is the one its producer
  makes of the engine. A scoped write stands for the promise that the files which are not
  derived anew have the symbols they had (`Kept`).
- The transaction `Committed` is a function of the layer produced, because stub payloads
  depend on the order in which files are visited; `Head.Commit` says which layer that is.
- Builds assume a well-formed project: no durable id names symbols of two files, and no symbol
  is called `<module>`; `MaterializeFile` alone does without the former. Reconciliation theorems
  assume pairwise distinct entity paths, because bindings are keyed by path
  (`rust/src/identity.rs:651`).
- What a commit announces is read off the registries before and after it. That a bound anchor was
  bound by this commit is read off its `lastSeen`, so those theorems take it that no anchor was
  seen ahead of the store (`NotAhead`), which every commit keeps (`SeenStaysBehind`).
- A name claimed by two nodes, which the program marks with an empty string, is `None`.
- The identity file is the anchors written to it and an authored record file is the record;
  a write either happens whole or not at all.
- Each body that runs under a lock is one atomic step, and theorems about the bus range over
  every interleaving of those steps. Commits and their publications are serialised, as the
  session serialises them; the fan-out of one publication interleaves with everything else.
- The bus lock is not reentrant. A call that asks for it while its own thread holds it does not
  return (`Hung`), and the lock is then never free again.

## Where the code and its comments or expectations part

- `rebind` clears `by_path` at the old path without asking who owns the entry
  (`rust/src/identity.rs:164`). `PathIndexExactIff` gives the exact condition under which the
  path index stays exact, and `ReturningOrphanLosesPath` is a concrete loss.
- Loading re-inserts orphans into `by_path`; `ReloadExactIff` says exactly when that matters and
  `ReloadListsOrphan` is an instance.
- The comment on `evict_file` (`rust/src/code_layer.rs:812-816`) says that any cross-file edge
  implies an import, so that its file is in the dirty set. `CrossEdgeIsDirty` proves it for
  references and imports. It is false for inheritance edges, which come with no import:
  `InheritanceStaleIff` says exactly when the rebuild keeps one that a full build does not have,
  and `InheritanceEdgeGoesStale` is a project in which its target is no longer a node.
- A reference that did not resolve before has no edge at all, so the dirty set misses it when it
  comes to resolve (`UnresolvedReferenceIsMissed`). `ScopedExactIff` says exactly when the scoped
  rebuild equals a full one, in terms of name lookups, and `TouchingSuffices` that only what
  touches a changed file needs looking up. Over whole runs each file keeps the edges it was last
  derived with, and `LayerIsFullIff` says when these are the edges of a full build.
- The comment at `rust/src/code_layer.rs:806-807` says a full build never leaves an
  unreferenced stub. `UnreferencedIff` says when it does: for a symbol that imports name, while
  no occurrence leads to it and no class has it as a supertype, as in `ImportLeavesStub`.
  `StubParityIff` says when full and scoped builds have the same stubs.
- The structural pass ranks candidates by edit distance (`rust/src/identity.rs:745-749`), but with
  paths as `rust/src/entity.rs:228-237` builds them the ranking never decides anything: a
  structural bind takes a nested entity to an anchor at its own path, at distance zero, and a
  top-level entity never binds structurally (`StructBindsOwnPath`).
- Subscribing to a closed bus never returns (`src/tyo3/bus/bus.py:60-63`): it closes the new
  subscription while it holds the bus lock, and closing takes that lock. `Bus.Subscribe` returns
  if and only if the bus is open, and `JammedForever` says what is left of the bus afterwards.
- `diff_from` ignores changes of `content_hashes`, `package` and a lone `name_range`;
  `DiffLosslessIff` is the exact condition for a lossless step and `DiffLosesNameRange` a lossy one.
- Adding an id to a file interest can lose deliveries: `scoped_to` then filters every id set and
  `publish` drops what becomes empty. `WideningKeepsDeliveryIff` is the exact condition and
  `FileInterestIsLost` an instance. An interest in ids alone is not woken for ids that are only
  created, moved or authored (`IdInterestOfferedIff`).
- A retention cap of zero still retains revision 0 until the first publication (`TimeTravelIff`).

## Model

| member | source | states |
|---|---|---|
| `EditDistance.TableIsShortest` | rust/src/identity.rs:865-889 | the recurrence yields the length of a shortest insert/delete/substitute script |
| `EditDistance.DistanceZeroIffEqual` | rust/src/identity.rs:865-889 | distance zero exactly on equal strings |
| `EditDistance.DistanceSymmetric` | rust/src/identity.rs:865-889 | the distance is symmetric |
| `EditDistance.DistanceTriangle` | rust/src/identity.rs:865-889 | the triangle inequality |
| `EditDistance.Compute` | rust/src/identity.rs:865-889 | the two-row loop returns the shortest-script distance |
| `Orders.LessIff` | rust/src/identity.rs:640-646 | strings compare by the first place where they differ |
| `Identity.IdentityRegistry.Insert` | rust/src/identity.rs:124-142 | the three indexes after an insert, and that they still agree |
| `Identity.IdentityRegistry.Rebind` | rust/src/identity.rs:147-180 | the indexes after a rebind, old path entry cleared unconditionally |
| `Identity.IdentityRegistry.Retire` | rust/src/identity.rs:187-211 | retirement leaves the anchor stored as an orphan and drops its path entry |
| `Identity.IdentityRegistry.SetStatus` | rust/src/identity.rs:214-218 | only the status of that anchor changes |
| `Identity.IdentityRegistry.RemoveFromHashIndex` | rust/src/identity.rs:222-229 | every occurrence of the id leaves that hash list |
| `Identity.InsertedKeepsIndexes` | rust/src/identity.rs:124-142 | after an insert each anchor is listed once, under its hash, and path entries are truthful |
| `Identity.RetiredKeepsIndexes` | rust/src/identity.rs:187-211 | the same after a retirement |
| `Identity.InsertedMeans` | rust/src/identity.rs:124-142 | each anchor and path entry after an insert |
| `Identity.ReboundMeans` | rust/src/identity.rs:147-180 | a rebound anchor keeps its kind, first revision and status, and leaves its old path |
| `Identity.RetiredMeans` | rust/src/identity.rs:187-211 | a live anchor becomes an orphan without a path entry; retiring anything else changes nothing |
| `Reconcile.BestByHash` | rust/src/identity.rs:678-718 | the hash pass picks the smallest admissible id with the entity's hash |
| `Reconcile.BestByStructure` | rust/src/identity.rs:720-764 | the structural pass picks the admissible anchor at least edit distance, ties to the smallest id |
| `Reconcile.MatchExact` | rust/src/identity.rs:654-676 | the exact pass as a function of registry and sorted entities |
| `Reconcile.MatchByMinting` | rust/src/identity.rs:766-777 | what is left is bound to fresh ids in order |
| `Reconcile.ApplyBindings` | rust/src/identity.rs:779-806 | the registry after the apply loop |
| `Reconcile.RetireVanished` | rust/src/identity.rs:813-837 | exactly the live, unbound, in-scope anchors are orphaned and reported, each once |
| `Reconcile.ReconcileRegistry` | rust/src/identity.rs:634-844 | the whole in-place reconciliation equals `Reconciled` and keeps the indexes |
| `Reconcile.ReconciledKeepsIndexes` | rust/src/identity.rs:634-844 | reconciling any input keeps every anchor listed once under its hash and path entries truthful |
| `Matching.MatchingIsComplete` | rust/src/identity.rs:654-777 | the four passes leave no entity unbound and bind no id twice |
| `ReconcileTheorems.ReconcileBindings` | rust/src/identity.rs:634-844 | one binding per entity, ids pairwise distinct, bound anchors carry their entity's path, hash and revision |
| `ReconcileTheorems.ReconcileAnchors` | rust/src/identity.rs:779-844 | no id leaves the registry, only bound ids join, exactly the right anchors retire, the rest are unchanged |
| `ReconcileTheorems.UnscopedLiveIsBound` | rust/src/identity.rs:813-837 | after an unscoped pass the live anchors are exactly the bound ids |
| `MatchingTheorems.NothingLeftOver` | rust/src/identity.rs:654-777 | no anchor in scope that stays unbound could have served an entity bound by a later pass, and none was better for one bound by its own |
| `MatchingTheorems.EarlierChoosesFirst` | rust/src/identity.rs:640-777 | of two entities with one hash the smaller path takes the smaller id, and of two minted ones the earlier fresh id |
| `MatchingTheorems.BoundAnchor` | rust/src/identity.rs:779-811 | the whole anchor that each entity ends with; it needs review iff its hash changed |
| `MatchingTheorems.StructChangesHash` | rust/src/identity.rs:720-764 | a structural bind always changes the hash |
| `MatchingTheorems.InScopeIff` | rust/src/identity.rs:850-860 | an anchor is in scope iff its path lies in a file of the scope |
| `MatchingTheorems.LeafMeans` | rust/src/identity.rs:895-909 | name and container of a path, read at its last separator |
| `ReconcileTheorems.PathIndexExactIff` | rust/src/identity.rs:147-211 | the path index stays exact if and only if no orphan is bound past an entity at its stored path |
| `ReconcileTheorems.StructBindsOwnPath` | rust/src/identity.rs:720-764 | a structural bind takes a nested entity to an anchor at its own path, at edit distance zero, and brings back an orphan if the path index was exact |
| `ReconcileTheorems.UnderFilesKept` | rust/src/entity.rs:228-237 | reconciling entities that lie in files keeps every anchor in a file |
| `ReconcileTheorems.PathExactFromInputs` | rust/src/identity.rs:720-764 | a condition on the inputs alone: no orphan that stores an entity's path shares a hash with a later entity |
| `IdentityRuns.ReturningOrphanLosesPath` | rust/src/identity.rs:147-180 | a concrete reconcile after which a live anchor is missing from the path index |
| `Classification.ClassifyBindings` | rust/src/identity.rs:516-562 | the classifying loop equals `Classify` |
| `Classification.ClassificationIsPrecise` | rust/src/identity.rs:516-562 | an id is changed iff it was anchored, is bound, and its hash differs; created iff bound and new; moved iff bound with the same hash to a path that was not indexed, with both paths and files |
| `Classification.ClassesAreDisjoint` | rust/src/identity.rs:516-562 | created, changed, moved and retired are pairwise disjoint |
| `IdentityRuns.OrderIndependence` | rust/src/identity.rs:640-646 | any permutation of the entities reconciles to the same outcome |
| `IdentityRuns.ScopedFrame` | rust/src/identity.rs:850-860 | a scoped pass leaves every out-of-scope anchor and path entry untouched |
| `IdentityRuns.OrphaningFiresOnce` | rust/src/identity.rs:813-837 | in any run, an id retired twice was bound strictly between |
| `IdentityRuns.IndexesHoldOverEveryRun` | rust/src/identity.rs:124-229 | over any sequence of operations and reconciles the indexes hold |
| `IdentityRuns.Save` | rust/src/identity.rs:288-311 | saving lists every anchor once in ascending id order |
| `IdentityRuns.Load` | rust/src/identity.rs:326-382 | loading inserts the saved anchors in order |
| `IdentityRuns.LoadRestores` | rust/src/identity.rs:326-382 | a save and load restores anchors and hash listings; a path goes to the greatest id that stores it |
| `IdentityRuns.ReloadExactIff` | rust/src/identity.rs:326-382 | a reload keeps the path index exact iff a live anchor with a greater id covers each orphan's path |
| `IdentityRuns.ReloadListsOrphan` | rust/src/identity.rs:326-382 | one orphan whose path a reload lists again |
| `CodeLayer.AddKeepsIndex` | rust/src/code_layer.rs:239-247 | maintaining the index on an added edge gives the index derived from the edges |
| `CodeLayer.RemoveKeepsIndex` | rust/src/code_layer.rs:251-267 | the same on a removed edge, parallel edges included |
| `CodeLayer.IndexHoldsOverEveryRun` | rust/src/code_layer.rs:239-285 | over any additions and removals the maintained index is the derived one |
| `CodeLayer.AffectedClosure` | rust/src/code_layer.rs:323-354 | the worklist ends on cyclic graphs and returns exactly the ids from which a path of references, imports, inheritances and overrides leads to a seed |
| `CodeLayer.ContainmentCarriesNothing` | rust/src/code_layer.rs:95-100 | definitions and containment alone affect nothing but the seeds |
| `CodeLayer.DiffFrom` | rust/src/code_layer.rs:359-405 | the computed delta is the specified minimal diff |
| `CodeLayer.ReplayMirrors` | rust/src/code_layer.rs:359-405 | the cold-start delta and then every later diff reproduce each layer: its edges, and of each node name, qualified name, kind, hash, population, file and range |
| `CodeLayer.DiffIsMinimal` | rust/src/code_layer.rs:359-405 | the roles in a delta are disjoint, and it is empty iff the layers agree on structure and place |
| `CodeLayer.DiffRoles` | rust/src/code_layer.rs:359-405 | an id is upserted iff it is new or something else now, moved iff it is the same in another place, removed iff it is gone |
| `CodeLayer.DiffLosslessIff` | rust/src/code_layer.rs:198-205 | one step restores every field iff no surviving node changed only a field the diff ignores |
| `CodeLayer.DiffLosesNameRange` | rust/src/code_layer.rs:198-205 | a node whose name range alone changed is not restored |
| `LayerSpec.FindIsScan` | rust/src/code_layer.rs:960-975 | except for the module's stem, the cached name lookup is the first-match scan |
| `Names.FindIff` | rust/src/code_layer.rs:856-869 | a name denotes the first node called so, except that a name shared by the file and exactly one of its symbols denotes the symbol |
| `Names.TableDepicts` | rust/src/code_layer.rs:871-930 | each id has one node, which says what the first symbol with it says |
| `Names.TableOrder` | rust/src/code_layer.rs:871-930 | the module is listed first and then each id once, in the order of the symbols |
| `Names.StemMeans` | rust/src/code_layer.rs:449-455 | a module is named after its file without directory and last extension |
| `Names.NormalizeMeans` | rust/src/code_layer.rs:631-651 | a native path denotes the project file it is the path of, or itself |
| `Enclosure.EnclosingMeans` | rust/src/code_layer.rs:1001-1042 | the enclosing symbol is the narrowest around the range, the first listed of equally narrow ones, and the module iff there is none |
| `Builder.Builder.Seeded` | rust/src/code_layer.rs:594-629 | replaying the stored node lists restores the builder's indexes |
| `Builder.Builder.ReplayNames` | rust/src/code_layer.rs:608-625 | the replay registers names exactly as materialising the nodes did |
| `Builder.Builder.MaterializeFile` | rust/src/code_layer.rs:871-930 | the file gets exactly the nodes, names and list of its symbols whose ids are not nodes already; nothing else changes |
| `Builder.Builder.FindSymbol` | rust/src/code_layer.rs:960-975 | the lookup resolves as the node lists say |
| `Builder.Builder.AddEdge` | rust/src/code_layer.rs:239-247 | the edge is added, the index stays derived, and the result says whether it was new |
| `Builder.Builder.RemoveEdge` | rust/src/code_layer.rs:251-267 | the edge is removed, the index stays derived, and the result says whether it was there |
| `Builder.Builder.AddContainmentEdges` | rust/src/code_layer.rs:977-999 | exactly the file's defines and contains edges are added |
| `Builder.Builder.ResolveReferences` | rust/src/code_layer.rs:1067-1217 | exactly the file's reference and import edges are added |
| `Builder.Builder.InheritsPass` | rust/src/code_layer.rs:1221-1268 | exactly the file's inheritance edges are added |
| `OverridePass.AncestorMethods` | rust/src/code_layer.rs:1310-1336 | the walk up the inheritance edges ends on cycles and finds exactly the method names of ancestors, each with the method of an ancestor at least distance |
| `OverridePass.OverridesPass` | rust/src/code_layer.rs:1286-1354 | each method of each class gets an override edge to the method found for its name, exactly where some ancestor has one, whatever override edges were added before |
| `OverridePass.MethodEdgeIff` | rust/src/code_layer.rs:1286-1354 | an override edge comes from a method or constructor with an id that names the class as its container |
| `Builder.Builder.EvictFile` | rust/src/code_layer.rs:817-835 | the file's nodes, indexes and outgoing edges go; every other edge, list and stub stays |
| `Builder.Builder.AddStub` | rust/src/code_layer.rs:932-958 | the external ids grow by exactly this one, with this payload unless the id is a node already |
| `Builder.Builder.GcExternalStubs` | rust/src/code_layer.rs:840-854 | exactly the external stubs that no edge points at are dropped |
| `NodeLists.WellFormedTables` | rust/src/code_layer.rs:871-930 | in a well-formed project no node belongs to two files |
| `NodeLists.PresentsUnique` | rust/src/code_layer.rs:840-854 | node maps that present the same lists differ only in stubs |
| `Rebuild.FullBuild` | rust/src/code_layer.rs:653-709 | a full build yields exactly the contributed edges and the listed nodes, and a stub for exactly the off-project edge targets and imported names |
| `Rebuild.AgreementIsUnique` | rust/src/code_layer.rs:653-709 | layers of one engine state agree on edges, indexes and non-external nodes |
| `EdgeMeaning.FullEdgesMean` | rust/src/code_layer.rs:977-1268 | every edge of a full build, kind by kind, in terms of symbols, occurrences and supertypes: where it starts, what it means and when it is left out |
| `EdgeMeaning.ShownNodes` | rust/src/code_layer.rs:871-930 | each file has its module and its symbols as the engine reports them |
| `EdgeMeaning.NoOtherNodes` | rust/src/code_layer.rs:871-958 | and there are no other nodes but off-project stubs, each saying what its id says |
| `Rebuild.SourceIsHeld` | rust/src/code_layer.rs:977-1268 | every contributed edge starts at a node of the contributing file |
| `Scoped.ExpandDirty` | rust/src/code_layer.rs:742-756 | the dirty set is the seed plus its one-hop importers |
| `Scoped.BuildScoped` | rust/src/code_layer.rs:729-810 | over a layer with any edges, the rebuild drops the edges that start in dirty files, derives those files anew, and keeps stubs for exactly the off-project edge targets |
| `Patchwork.CarriedEdges` | rust/src/code_layer.rs:817-835 | evicting the dirty files leaves exactly the edges that the other files were last derived with |
| `Patchwork.RebuildPatches` | rust/src/code_layer.rs:729-810 | after a rebuild each dirty file has the edges of the new state and each other file those it was last derived with |
| `Patchwork.PatchExactIff` | rust/src/code_layer.rs:721-810 | pieces from different times make up a full build iff each is what its file contributes now |
| `Exactness.GivenSameIff` | rust/src/code_layer.rs:977-1268 | a file with the same symbols contributes the same edges iff its occurrences and supertypes lead to the same nodes |
| `Exactness.PatchedAgreesIff` | rust/src/code_layer.rs:721-810 | a layer pieced together by rebuilds is that of a full build iff every file leads where it led when last derived |
| `Exactness.ScopedExactIff` | rust/src/code_layer.rs:729-810 | the rebuild equals a full build iff, in every file left alone, occurrences and supertypes lead where they led |
| `Exactness.TouchingSuffices` | rust/src/code_layer.rs:644-651 | for a file that keeps its facts, only occurrences and classes that touch a seed file need looking up |
| `Exactness.DistinctRangesLead` | rust/src/code_layer.rs:1074-1138 | where no two occurrences share a range, the answers agree at an occurrence iff it leads to the same nodes |
| `Exactness.RebuildScoped` | rust/src/code_layer.rs:729-810 | the scoped rebuild agrees with a full build iff every file left alone leads where it led, and if those files keep their facts, iff they do so where they touch a changed file |
| `Exactness.RebuildRun` | rust/src/code_layer.rs:653-810 | a cold build followed by any number of such rebuilds ends in agreement |
| `Stubs.TargetedIff` | rust/src/code_layer.rs:1074-1268 | a full build has an edge to an off-project symbol iff some occurrence leads to it or some class has it as a supertype |
| `Stubs.UnreferencedIff` | rust/src/code_layer.rs:1105-1124 | after a full build a stub is unreferenced iff an import names it, no occurrence leads to it and no class inherits from it |
| `Stubs.StubParityIff` | rust/src/code_layer.rs:840-854 | a full build and a scoped one have the same stubs iff something leads to every off-project symbol that an import names |
| `DirtySet.DirtyIff` | rust/src/code_layer.rs:742-756 | a file other than the seeds is dirty iff it imports a seed module |
| `DirtySet.CrossEdgeIsDirty` | rust/src/code_layer.rs:812-816 | every reference and import into a seed file comes with an import of its module and makes its own file dirty |
| `DirtySet.InheritanceStaleIff` | rust/src/code_layer.rs:1221-1268 | the rebuild keeps an inheritance edge that a full build lacks iff the class lost that base and its file imports no seed module |
| `DirtySet.InheritanceEdgeGoesStale` | rust/src/code_layer.rs:1221-1268 | a supertype that loses its id leaves an inheritance edge to no node, which a full build does not have |
| `DirtySet.UnresolvedReferenceIsMissed` | rust/src/code_layer.rs:742-756 | a reference that only now resolves is missed by the one-hop expansion |
| `DirtySet.ImportLeavesStub` | rust/src/code_layer.rs:1105-1124 | one import of an off-project symbol leaves a stub that no edge points at |
| `ContentStore.ContentStore.Stage` | rust/src/content.rs:401-426 | the staged generation; only the version counter moves |
| `ContentStore.ContentStore.PublishStaged` | rust/src/content.rs:439-444 | generation, revision and window after a publication |
| `ContentStore.ContentStore.RecordRetained` | rust/src/content.rs:504-510 | the eviction loop drops the oldest entries beyond the cap |
| `ContentStore.ContentStore.ApplyBatch` | rust/src/content.rs:211-260 | a batch reaches the state of publishing the staged changes, one revision later |
| `StoreRuns.StageReads` | rust/src/content.rs:401-426 | at each path the last change wins |
| `StoreRuns.StageReadsVirtual` | rust/src/content.rs:401-426 | a virtual file reads as its last insertion |
| `StoreRuns.VersionsDetermineContent` | rust/src/content.rs:211-260 | across all staged, dropped and published generations equal versions mean equal documents |
| `StoreRuns.TimeTravelIff` | rust/src/content.rs:504-516 | over every run exactly the last min(revision + 1, cap) revisions are retained, with the content published at each |
| `StoreRuns.GenerationAt` | rust/src/content.rs:514-516 | over every run the answer is the content published at that revision, for exactly the revisions in the window |
| `Commit.Head.BuildPlan` | rust/src/project/commit.rs:593-747 | the plan for each kind of write; only version numbers are drawn |
| `Commit.Head.ReadDiskChanges` | rust/src/content.rs:341-387 | the re-read files become inserts or tombstones, unsaved and unreadable ones are skipped |
| `Commit.Head.BuildPollPlan` | rust/src/project/commit.rs:753-832 | a poll plans nothing, a rescan, or the surviving events |
| `CommitMeaning.PollPicksUp` | rust/src/project/commit.rs:753-832 | a poll commits iff an event tells of a path without an unsaved buffer; each such path then reads as its last event and the disk say, every other as before, and exactly those are touched |
| `CommitMeaning.PollRescans` | rust/src/project/commit.rs:761-778 | a poll with a rescan event keeps the content and asks for everything |
| `CommitMeaning.SyncPathReads` | rust/src/project/commit.rs:612-661 | a synced path reads as the disk, and nothing else changes |
| `CommitMeaning.SyncAllReads` | rust/src/project/commit.rs:662-683 | every walked path reads as the disk unless it is unsaved or unreadable |
| `CommitMeaning.EditReads` | rust/src/project/commit.rs:595-611 | each path reads as the last change of the edit says |
| `CommitMeaning.FailsIff` | rust/src/project/commit.rs:593-1013 | a commit fails iff its write is invalid or a step that it reaches fails |
| `CommitMeaning.UnsavedAfter` | rust/src/project/commit.rs:977-995 | a path is unsaved iff edited now, or unsaved before and not synced now |
| `CommitMeaning.AuthorRecords` | rust/src/project/commit.rs:684-747 | the record, its history and the delta of an authored write, and that nothing else changes |
| `Commit.Head.ReconcileStaged` | rust/src/project/commit.rs:904-951 | registry and announced delta of the identity step, and the layer that the producer makes of the engine |
| `Commit.CloseOver` | rust/src/project/commit.rs:922-936 | the affected ids are exactly those that reach a changed or deleted one |
| `Commit.Head.PersistIdentity` | rust/src/project/commit.rs:555-565 | the identity file is the registry's anchors, or untouched on failure |
| `Commit.Head.RunStaged` | rust/src/project/commit.rs:881-1013 | on success the whole transaction has happened with the produced layer, on failure store, unsaved set, records and sidecar are as before |
| `Commit.Head.Rollback` | rust/src/project/commit.rs:571-577 | overlay, registry, authored records and layer are put back |
| `Commit.Head.Commit` | rust/src/project/commit.rs:1019-1036 | every commit, whichever step fails, is the atomic transaction `Committed`; a successful reconciling one installs the produced layer, any other keeps the old one |
| `CommitRuns.CommitIsAtomic` | rust/src/project/commit.rs:1019-1036 | a failed or no-op commit changes nothing observable, a successful one advances the revision by one |
| `CommitRuns.RunsAreAtomic` | rust/src/project/commit.rs:881-1036 | over every run with failures, overlay, memory and disk stay in step and the revision counts the successes |
| `CommitRuns.PollSparesUnsaved` | rust/src/project/commit.rs:784-812 | no poll writes to a path with an unsaved buffer |
| `CommitRuns.ReingestSparesUnsaved` | rust/src/content.rs:341-354 | no full sync writes to a path with an unsaved buffer |
| `CommitRuns.UnsavedBuffersWin` | rust/src/project/commit.rs:593-831 | over every run each unsaved path holds the text of its last successful edit |
| `Announcements.AnnouncedIsPrecise` | rust/src/project/commit.rs:904-951 | from the registries before and after: changed iff the hash differs, created iff the id is new, deleted iff live before and an orphan now, moved iff found unchanged at a path that was free |
| `Announcements.RegistryFollowsEntities` | rust/src/project/commit.rs:904-920 | after a commit every entity found has an anchor with its path and hash, every live anchor in scope was found or is an orphan, and anchors elsewhere are as they were |
| `Announcements.SeedsAreDisturbed` | rust/src/project/commit.rs:922-936 | what is affected is seeded by exactly the entities edited or removed between the registries |
| `Announcements.DeltaRest` | rust/src/project/commit.rs:936-1012 | revision, rescan flag, affected files and touched files of a delta |
| `Announcements.SeedIff` | rust/src/project/commit.rs:854-874 | a scoped write seeds the rebuild with exactly the project files whose paths are in its scope |
| `Announcements.SeenStaysBehind` | rust/src/project/commit.rs:881-1036 | no commit leaves an anchor seen ahead of the store |
| `LayerProducer.ProduceLayer` | rust/src/project/commit.rs:854-874 | a scoped write yields the rebuilt edges, any other those of a full build, and both the engine's nodes |
| `LayerProducer.ScopedIff` | rust/src/project/commit.rs:854-874 | a write is scoped iff it is no rescan, names files and there is a layer to rebuild over |
| `LayerProducer.ProductionPatches` | rust/src/project/commit.rs:854-874 | whatever the layer was pieced together from, production derives anew exactly the dirty files, or all |
| `LayerProducer.ProducedAgreesIff` | rust/src/project/commit.rs:854-874 | over a layer that agrees with its engine the produced one does iff the files left alone lead where they led |
| `LayerProducer.FollowsIfSettled` | rust/src/project/commit.rs:854-874 | where those files keep their facts, it is enough to look where they touch the files in scope |
| `LayerRuns.LayerIsPatchwork` | rust/src/project/commit.rs:881-1036 | over every run with failures the head shows the nodes of the last engine state and each file's edges are those it was last derived with |
| `LayerRuns.LayerIsFullIff` | rust/src/project/commit.rs:881-1036 | after any run the head's layer is that of a full build iff every file leads where it led when last derived |
| `LayerRuns.LayerFollowsEngine` | rust/src/project/commit.rs:881-1036 | over every run with failures the layer is at every point that of a full build iff every installed change is one that its rebuild follows |
| `LayerRuns.AffectedIsExact` | rust/src/project/commit.rs:922-936 | after a run of such changes the announced affected ids are exactly those from which references, imports, inheritances or overrides of full builds lead to an entity edited or removed between the registries |
| `Deltas.MatchesEither` | src/tyo3/bus/interest.py:49-82 | a compound interest matches iff one of its parts does |
| `Deltas.WideningKeepsDeliveryIff` | src/tyo3/bus/delta.py:49-97 | exactly when widening an interest keeps a delivery |
| `Deltas.FileInterestIsLost` | src/tyo3/bus/delta.py:49-97 | a file interest that loses a delivery when an id is added |
| `Deltas.IdInterestOfferedIff` | src/tyo3/bus/bus.py:102-122 | an id interest is offered a scoped revision iff an id it asked for is affected |
| `Deltas.OfferIsScoped` | src/tyo3/bus/delta.py:49-93 | what is offered touches only ids asked for, unless it is a rescan |
| `Deltas.AffectedIsOffered` | src/tyo3/bus/bus.py:102-122 | an affected id that was asked for is in what is offered |
| `Deltas.OfferedIff` | src/tyo3/bus/bus.py:102-122 | a delta is offered iff everything is wanted, it is a rescan, or it concerns an id, file or layer asked for and touches a wanted id |
| `Deltas.OfferedSlice` | src/tyo3/bus/delta.py:49-93 | what of each set of the delta is offered |
| `Deltas.CommitSlice` | src/tyo3/bus/delta.py:100-131 | each set of a commit reaches a subscriber as that set, cut down to what it asked for |
| `Deltas.CodeInterestOfferedIff` | src/tyo3/bus/delta.py:98-131 | a code-layer interest hears of exactly the commits that create, change, delete or move, and rescans |
| `Deltas.AuthoredInterestOfferedIff` | src/tyo3/bus/delta.py:98-131 | an authored-layer interest hears of exactly the authored writes |
| `Deltas.FileInterestOfferedIff` | src/tyo3/bus/delta.py:98-131 | a file interest hears of exactly the commits that touch the file or affect a node in it, and rescans |
| `Subscriptions.Subscription.Offer` | src/tyo3/bus/subscription.py:77-110 | the queue after an offer under each overflow policy, and whether to close |
| `Subscriptions.Subscription.CoalesceTail` | src/tyo3/bus/subscription.py:112-139 | the tail becomes the union of itself and the incoming delta |
| `Subscriptions.Subscription.Poll` | src/tyo3/bus/subscription.py:176-202 | the front of the queue is taken, if there is one |
| `Subscriptions.Subscription.OfferRefinement` | src/tyo3/bus/subscription.py:141-156 | the newest refinements are kept within capacity |
| `Subscriptions.Subscription.OfferDerived` | src/tyo3/bus/subscription.py:158-172 | the newest derived-fresh signals are kept within capacity |
| `Subscriptions.QueuesStayBounded` | src/tyo3/bus/subscription.py:77-172 | over every interleaving every queue stays within capacity |
| `Subscriptions.CoalescingConserves` | src/tyo3/bus/subscription.py:112-139 | any set that merges by union, gathered over consumed and queued, equals that over offered |
| `Subscriptions.NothingCoalescedIsLost` | src/tyo3/bus/subscription.py:112-139 | this for all eight sets of a delta |
| `Subscriptions.RescanIsNotLost` | src/tyo3/bus/subscription.py:112-139 | under coalescing a call for a rescan is neither lost nor made up |
| `Subscriptions.NewestRevisionIsKept` | src/tyo3/bus/subscription.py:112-139 | under coalescing the greatest revision received is the greatest one offered, and the subscriber is never lagged |
| `Subscriptions.AcceptedIsKept` | src/tyo3/bus/subscription.py:86-107 | without coalescing nothing that was accepted is taken back or altered |
| `Subscriptions.KeepingUpSeesAll` | src/tyo3/bus/subscription.py:77-110 | a subscriber never more than its capacity behind receives every delta as offered, whatever the policy |
| `Subscriptions.NewestAdviceIsKept` | src/tyo3/bus/subscription.py:141-172 | each advisory channel holds the newest messages within capacity |
| `Subscriptions.UnlaggedIffComplete` | src/tyo3/bus/subscription.py:86-107 | without coalescing, consumed then queued equals offered iff the subscriber is not lagged |
| `Subscriptions.ConsumedIncreases` | src/tyo3/bus/subscription.py:77-202 | increasing offered revisions are consumed in increasing order, also across a close |
| `Subscriptions.ClosedHoldsNothing` | src/tyo3/bus/subscription.py:282-309 | once closing is through, every queue is empty and stays so |
| `Bus.Bus.Subscribe` | src/tyo3/bus/bus.py:45-65 | the call returns a registered subscription iff the bus is open; on a closed bus it waits for the lock it holds |
| `Bus.Bus.AdmitDelta` | src/tyo3/bus/bus.py:86-101 | the locked region of a publication: skipped, out of order, or admitted to everyone registered |
| `Bus.AdmittedIff` | src/tyo3/bus/bus.py:86-101 | a delta goes out iff the bus is open, somebody is registered and its revision is newer than the last |
| `Bus.SubscribedListens` | src/tyo3/bus/bus.py:45-65 | a new subscription on an open bus is registered, open and empty |
| `Bus.ServedClosesIff` | src/tyo3/bus/subscription.py:86-110 | being served closes a subscription iff it gives up on overflow, is full and the delta is for it |
| `Bus.Bus.FanOut` | src/tyo3/bus/bus.py:104-122 | one subscriber is offered its slice and nobody else changes |
| `Bus.Bus.Publish` | src/tyo3/bus/bus.py:74-122 | everyone registered at admission is served, order violations change nothing, overflowing ones are closed |
| `Bus.Bus.CloseSubscription` | src/tyo3/bus/subscription.py:282-309 | closing marks, unregisters and drains, once |
| `Bus.ClosedSubscriptionMeans` | src/tyo3/bus/subscription.py:282-309 | an open subscription ends closed, unregistered and empty, and nothing else is altered; a closed one stays as it is |
| `Bus.Bus.Close` | src/tyo3/bus/bus.py:185-198 | every subscription is unregistered and closed, once |
| `Bus.ClosedBusMeans` | src/tyo3/bus/bus.py:185-198 | afterwards nobody is registered, whoever was is closed and empty, and nothing else is altered |
| `NeverMiss.DeltaCoversChanges` | rust/src/project/commit.rs:922-936 | a successful commit's changed and deleted ids are among its affected ids |
| `NeverMiss.AssertionNeverFires` | src/tyo3/bus/bus.py:90-98 | over any interleaving every published revision is newer than the last |
| `NeverMiss.NeverMisses` | src/tyo3/bus/bus.py:86-122 | over any interleaving of commits, publications, polls, registrations and closes, each id a listening subscription asked for and a commit since its registration affected is affected in a consumed or queued delta |
| `NeverMiss.ChangesAreTold` | src/tyo3/bus/bus.py:86-122 | in particular each such id that a commit changed or deleted |
| `NeverMiss.SeesOnlyItsSlice` | src/tyo3/bus/delta.py:49-131 | other ids are seen only in a rescan delta, and consumed revisions increase |
| `NeverMiss.JammedForever` | src/tyo3/bus/bus.py:60-72 | after a subscription to a closed bus nobody registers and nothing is admitted again |
| `Dependents.HeadIsTried` | rust/src/project/commit.rs:1019-1036 | whatever the bus does meanwhile, the head goes through the run of its commits |
| `Dependents.EditsAreTold` | src/tyo3/bus/bus.py:86-122 | over any interleaving an entity whose registry hash a commit changed, or whose anchor it orphaned, is told to every subscriber that was registered before and asked for it |
| `Dependents.DependentsAreTold` | rust/src/project/commit.rs:922-936 | over any interleaving a subscriber registered before a commit is told of each id it asked for from which the edges of full builds lead to an entity that the commit edited or removed |
| `Layers.CountEdges` | rust/src/config.rs:732-756 | counts and target lists of all dependencies, or the first dangling reference |
| `Layers.Release` | rust/src/config.rs:769-778 | counts drop by each occurrence, never below zero, and exactly the freed names become ready |
| `Layers.GreedyIsLeast` | rust/src/config.rs:758-779 | always taking the smallest ready name gives the lexicographically least order |
| `Layers.LeftOver` | rust/src/config.rs:781-787 | when nothing is ready, the names left over are exactly those that lead into a cycle |
| `Layers.DependsIff` | rust/src/config.rs:716-722 | a layer depends on the layers it names; a derived one that names none, on the code |
| `Layers.OrderFollows` | rust/src/config.rs:724-790 | in every order a layer comes after each of these |
| `Layers.TopoOrder` | rust/src/config.rs:724-790 | success iff references resolve and dependencies are acyclic; the result is the least dependency-respecting order; each error names the culprits |

## Left out

- `Overrides` edges in builds and runs: their walk spans many files, so the dirty set would have to grow beyond one hop; `OverridePass.OverridesPass` says what the pass adds to a layer, and the other five edge kinds are covered throughout.
- `Rebuild.FullBuild`: leaves out `Overrides` edges, for the same reason.
- `Scoped.BuildScoped`: leaves out `Overrides` edges, for the same reason.
- `EdgeMeaning.FullEdgesMean`: leaves out `Overrides` edges, for the same reason; `OverridePass.MethodEdgeIff` is about those.
- `LayerRuns.LayerFollowsEngine`: leaves out `Overrides` edges, for the same reason.
- `LayerRuns.LayerIsFullIff`: leaves out `Overrides` edges, for the same reason.
- `LayerRuns.AffectedIsExact`: leaves out `Overrides` edges, which are dependencies too, so the program's closure also follows those.
- `Dependents.DependentsAreTold`: leaves out dependents by `Overrides` edges alone, for the same reason.
- `CommitRuns.UnsavedBuffersWin`: an overlay mutation is taken to write exactly the paths it marks unsaved, which is how `edit`, `edit_many` and `edit_virtual` build it.
- `Commit.Head.Commit`: takes the engine and its entities as inputs, because how the engine reads the staged content is not modelled, and takes it that the files which a scoped write does not derive anew have kept their symbols.
- `Commit.Head.RunStaged`: the same.
- `Commit.Head.ReconcileStaged`: the same.
- The path-shaped `created`/`changed`/`deleted` lists of a commit delta are one set of touched files.
- `reload()`, which rebuilds the head from scratch, is not part of any run.
- The refinement and derived-fresh publications of the bus: matching on a separate channel; only their queues are modelled.
- `Subscriptions.Subscription.Poll`: waiting with a timeout and the blocking iterator are not modelled, only what a wake-up does.
- `Subscription.rescan_from`: best-effort exception handling over a session.
- JSON text, file formats and their version errors; hashing and canonical rendering; coordinates; the file-system overlay beyond the published generation.
- The remaining configuration checks, environment expansion and secret handling: single-branch checks.
- The daemon, clients, command line and Python bindings.
