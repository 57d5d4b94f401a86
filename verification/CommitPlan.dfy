/** What a commit does, as one atomic transaction on values: the plan built for each kind
    of write, and the state that results when no step of it fails. */
module CommitPlan {
  import opened Wrappers
  import opened ContentStore
  import opened Deltas
  import I = Identity
  import M = Matching
  import R = Reconcile
  import C = Classification
  import L = CodeLayer
  import S = LayerSpec
  import N = NodeLists

  /** A layer whose reverse-dependency index is the derived one. */
  type CoherentLayer = l: L.Layer | L.Coherent(l) ghost witness L.NO_LAYER

  datatype Version = Version(value: string, revision: nat, reviewedHash: I.ContentHash)

  datatype Record = Record(current: Version, history: seq<Version>)

  type Records = map<(string, string), Record>

  /** The head between commits. `identityFile` and `recordFiles` are what the sidecar
      holds on disk; `authoredLayers` says which layers are authored and keep history. */
  datatype HeadState = HeadState(
    store: Store,
    overlay: ContentMap,
    registry: I.Registry,
    authored: Records,
    layer: L.Layer,
    unsaved: set<string>,
    identityFile: map<I.DurableId, I.Anchor>,
    recordFiles: Records,
    authoredLayers: map<string, bool>)

  datatype DiskRead = Readable(text: string) | Missing | Unreadable

  datatype ChangeEvent =
    | CreatedAt(path: string)
    | ChangedAt(path: string)
    | DeletedAt(path: string)
    | OtherAt(path: string)
    | Pathless
    | Rescan

  datatype Mutation =
    | Overlay(changes: seq<Change>, events: seq<ChangeEvent>, touched: set<string>, unsaved: set<string>)
    | SyncPath(path: string)
    | SyncAll
    | Author(layer: string, id: I.DurableId, value: string)
    | Poll(events: seq<ChangeEvent>)

  /** The fallible steps, in the order they are reached. */
  datatype Stage = AuthoredSerialise | CodeLayerFault | IdentityFault | IdentitySerialise | IdentityWrite | AuthoredFault | AuthoredWrite

  datatype Failure = UnknownLayer | UnknownId | FailedAt(stage: Stage)

  /** Everything outside the head that one commit reads: the disk, path classification, the
      analysis engine over the staged content, its entities, fresh ids, and which steps fail. */
  datatype World = World(
    disk: string -> DiskRead,
    walked: seq<string>,
    isSource: string -> bool,
    isConfig: string -> bool,
    engine: N.Project,
    entities: Option<set<string>> -> seq<M.Entity>,
    supply: nat -> I.DurableId,
    failing: set<Stage>)

  datatype AuthoredPlan = AuthoredPlan(key: (string, string), record: Record)

  datatype Plan = Plan(
    content: ContentMap,
    touched: set<string>,
    rescan: bool,
    scope: Option<set<string>>,
    reconcile: bool,
    authored: Option<AuthoredPlan>,
    unsavedInsert: set<string>,
    unsavedRemove: set<string>)

  // ---- Building the plan ----------------------------------------------------------------

  function EventPath(e: ChangeEvent): Option<string> {
    match e
    case CreatedAt(p) => Some(p)
    case ChangedAt(p) => Some(p)
    case DeletedAt(p) => Some(p)
    case OtherAt(p) => Some(p)
    case Pathless => None
    case Rescan => None
  }

  /** The source files among the events; no scope at all when there are none. */
  function ScopeOf(events: seq<ChangeEvent>, isSource: string -> bool): Option<set<string>> {
    var scope := set e | e in events && EventPath(e).Some? && isSource(EventPath(e).value) :: EventPath(e).value;
    if scope == {} then None else Some(scope)
  }

  function DiskChange(path: string, read: DiskRead): Change {
    if read.Readable? then Insert(path, read.text) else Delete(path)
  }

  /** A watcher event survives unless it has no plain path change or its path has an
      unsaved buffer. */
  predicate Survives(e: ChangeEvent, unsaved: set<string>) {
    (e.CreatedAt? || e.ChangedAt? || e.DeletedAt?) && e.path !in unsaved
  }

  function Surviving(events: seq<ChangeEvent>, unsaved: set<string>): seq<ChangeEvent> {
    if events == [] then []
    else
      var n := |events| - 1;
      Surviving(events[..n], unsaved) + if Survives(events[n], unsaved) then [events[n]] else []
  }

  function EventChange(e: ChangeEvent, disk: string -> DiskRead): Change
    requires e.CreatedAt? || e.ChangedAt? || e.DeletedAt?
  {
    if e.DeletedAt? then Delete(e.path) else DiskChange(e.path, disk(e.path))
  }

  function PollChanges(events: seq<ChangeEvent>, unsaved: set<string>, disk: string -> DiskRead): seq<Change> {
    if events == [] then []
    else
      var n := |events| - 1;
      PollChanges(events[..n], unsaved, disk) +
      if Survives(events[n], unsaved) then [EventChange(events[n], disk)] else []
  }

  /** A full re-read of the walked files; unsaved buffers and unreadable files are skipped. */
  function ReingestChanges(walked: seq<string>, unsaved: set<string>, disk: string -> DiskRead): seq<Change> {
    if walked == [] then []
    else
      var n := |walked| - 1;
      ReingestChanges(walked[..n], unsaved, disk) +
      if walked[n] in unsaved || disk(walked[n]).Unreadable? then [] else [DiskChange(walked[n], disk(walked[n]))]
  }

  function EventPaths(events: seq<ChangeEvent>): set<string> {
    set e | e in events && EventPath(e).Some? :: EventPath(e).value
  }

  /** The record that authoring `value` for `id` makes current. */
  function NextRecord(s: HeadState, layer: string, id: I.DurableId, value: string): Record
    requires layer in s.authoredLayers && id in s.registry.byId
  {
    var key := (layer, id);
    var version := Version(value, s.store.revision + 1, s.registry.byId[id].hash);
    Record(version, if key in s.authored && s.authoredLayers[layer] then s.authored[key].history + [s.authored[key].current] else [])
  }

  function Unchanged(s: HeadState): Staging {
    Staging(s.store.generation, s.store.versionCounter)
  }

  /** A plan and the version counter that staging it leaves behind. */
  datatype Planned = Planned(plan: Plan, counter: nat)

  function Rescanned(st: Staging): Planned {
    Planned(Plan(st.content, {}, true, None, true, None, {}, {}), st.counter)
  }

  function PlanPoll(s: HeadState, events: seq<ChangeEvent>, w: World): Option<Planned> {
    if events == [] then None
    else if Rescan in events then Some(Rescanned(Unchanged(s)))
    else
      var kept := Surviving(events, s.unsaved);
      if kept == [] then None
      else
        var st := StagedFrom(s.store, PollChanges(events, s.unsaved, w.disk));
        Some(Planned(Plan(st.content, EventPaths(kept), false, ScopeOf(kept, w.isSource), true, None, {}, {}), st.counter))
  }

  function SyncEvent(path: string, disk: string -> DiskRead): ChangeEvent {
    if disk(path).Readable? then ChangedAt(path) else DeletedAt(path)
  }

  /** The plan for each kind of write; no plan for a poll that changes nothing. */
  function PlanOf(s: HeadState, m: Mutation, w: World): Result<Option<Planned>, Failure> {
    match m
    case Overlay(changes, events, touched, unsaved) =>
      var st := StagedFrom(s.store, changes);
      Ok(Some(Planned(Plan(st.content, touched, false, ScopeOf(events, w.isSource), true, None, unsaved, {}), st.counter)))
    case SyncPath(path) =>
      var st := StagedFrom(s.store, [DiskChange(path, w.disk(path))]);
      var rescan := w.isConfig(path);
      var scope := if rescan then None else ScopeOf([SyncEvent(path, w.disk)], w.isSource);
      Ok(Some(Planned(Plan(st.content, {path}, rescan, scope, true, None, {}, {path}), st.counter)))
    case SyncAll =>
      Ok(Some(Rescanned(StagedFrom(s.store, ReingestChanges(w.walked, s.unsaved, w.disk)))))
    case Author(layer, id, value) =>
      if layer !in s.authoredLayers then Err(UnknownLayer)
      else if id !in s.registry.byId then Err(UnknownId)
      else if AuthoredSerialise in w.failing then Err(FailedAt(AuthoredSerialise))
      else
        var ap := AuthoredPlan((layer, id), NextRecord(s, layer, id, value));
        Ok(Some(Planned(Plan(s.store.generation, {}, false, None, false, Some(ap), {}, {}), s.store.versionCounter)))
    case Poll(events) => Ok(PlanPoll(s, events, w))
  }

  /** The write is planned and calls for a reconciliation. */
  predicate Reconciles(s: HeadState, m: Mutation, w: World) {
    PlanOf(s, m, w).Ok? && PlanOf(s, m, w).value.Some? && PlanOf(s, m, w).value.value.plan.reconcile
  }

  function PlanIn(s: HeadState, m: Mutation, w: World): Plan
    requires Reconciles(s, m, w)
  {
    PlanOf(s, m, w).value.value.plan
  }

  // ---- The transaction ---------------------------------------------------------------------

  /** The first step that the plan reaches and that fails. */
  function FailureOf(plan: Plan, failing: set<Stage>): Option<Failure> {
    if plan.reconcile && CodeLayerFault in failing then Some(FailedAt(CodeLayerFault))
    else if plan.reconcile && IdentityFault in failing then Some(FailedAt(IdentityFault))
    else if plan.reconcile && IdentitySerialise in failing then Some(FailedAt(IdentitySerialise))
    else if plan.reconcile && IdentityWrite in failing then Some(FailedAt(IdentityWrite))
    else if plan.authored.Some? && AuthoredFault in failing then Some(FailedAt(AuthoredFault))
    else if plan.authored.Some? && AuthoredWrite in failing then Some(FailedAt(AuthoredWrite))
    else None
  }

  function EntityIds(ids: set<I.DurableId>): set<L.NodeId> {
    set id | id in ids :: L.EntityId(id)
  }

  /** Exactly the ids that reach a changed or deleted one. */
  ghost function AffectedIds(next: L.Layer, prev: L.Layer, seeds: set<L.NodeId>,
                             deleted: set<L.NodeId>): set<L.NodeId> {
    set x | x in L.Universe(next, prev, seeds) && L.Affected(next, prev, seeds, deleted, x)
  }

  lemma AffectedIsKnown(next: L.Layer, prev: L.Layer, seeds: set<L.NodeId>, deleted: set<L.NodeId>, x: L.NodeId)
    requires L.Affected(next, prev, seeds, deleted, x)
    ensures x in L.Universe(next, prev, seeds)
  {
    var path :| L.Chain(next, prev, deleted, path) && path[0] == x && path[|path| - 1] in seeds;
    if |path| > 1 {
      L.DependentsInUniverse(next, prev, seeds, deleted);
      assert L.DependsOn(next, prev, deleted, path[0], path[0 + 1]);
    }
  }

  function FilesOf(layer: L.Layer, ids: set<L.NodeId>): set<string> {
    set x | x in ids && x in layer.nodes && layer.nodes[x].file != S.EXTERNAL_FILE :: layer.nodes[x].file
  }

  /** The reconciliation that a plan calls for, at the revision about to be published. */
  ghost function Reconciliation(registry: I.Registry, next: nat, plan: Plan, w: World): R.Outcome {
    R.Reconciled(registry, w.entities(plan.scope), next, plan.scope, w.supply)
  }

  function Moved(moves: seq<C.Move>): set<I.DurableId> {
    set m | m in moves :: m.id
  }

  /** The delta that announces classified bindings and retired ids. */
  ghost function Announced(next: nat, classes: C.Classes, retired: set<I.DurableId>, prev: L.Layer,
                           produced: L.Layer, plan: Plan, w: World): CommitDelta {
    var changed := EntityIds(set id | id in classes.changed);
    var deleted := EntityIds(retired);
    var affected := AffectedIds(produced, prev, changed + deleted, deleted);
    CommitDelta(next, EntityIds(set id | id in classes.created), changed, deleted, EntityIds(Moved(classes.moved)), {}, affected,
                Relative(plan.touched, w.engine.root), FilesOf(produced, affected), plan.rescan)
  }

  /** A path under the root, relative to it. */
  function NativeToGraph(root: string, native: string): Option<string> {
    if !(root <= native) then None
    else
      var rest := native[|root|..];
      var rel := if rest != [] && rest[0] == '/' then rest[1..] else rest;
      if rel == [] then None else Some(rel)
  }

  function Relative(paths: set<string>, root: string): set<string> {
    set p | p in paths :: match NativeToGraph(root, p) case Some(g) => g case None => p
  }

  ghost function AnnouncedBy(o: R.Outcome, next: nat, prev: L.Layer, produced: L.Layer, plan: Plan, w: World): CommitDelta {
    Announced(next, C.Classify(C.ByPath(w.entities(plan.scope)), o.bindings), o.retired, prev, produced, plan, w)
  }

  function AuthoredDelta(next: nat, plan: Plan, w: World): CommitDelta {
    CommitDelta(next, {}, {}, {}, {}, if plan.authored.Some? then EntityIds({plan.authored.value.key.1}) else {},
                {}, Relative(plan.touched, w.engine.root), {}, plan.rescan)
  }

  /** The two parts of a commit that depend on the engine's answers: reconciling, and
      announcing what was reconciled. */
  datatype Effects = Effects(
    outcome: (I.Registry, nat, Plan) -> R.Outcome,
    announce: (R.Outcome, nat, L.Layer, L.Layer, Plan) -> CommitDelta)

  ghost function EffectsOf(w: World): Effects {
    Effects((registry: I.Registry, next: nat, plan: Plan) => Reconciliation(registry, next, plan, w),
            (o: R.Outcome, next: nat, prev: L.Layer, produced: L.Layer, plan: Plan) =>
              AnnouncedBy(o, next, prev, produced, plan, w))
  }

  ghost predicate OutcomeAt(fx: Effects, w: World, registry: I.Registry, next: nat, plan: Plan) {
    fx.outcome(registry, next, plan) == Reconciliation(registry, next, plan, w)
  }

  ghost predicate AnnouncesAt(fx: Effects, w: World, o: R.Outcome, next: nat, prev: L.Layer, produced: L.Layer,
                              plan: Plan) {
    fx.announce(o, next, prev, produced, plan) == AnnouncedBy(o, next, prev, produced, plan, w)
  }

  ghost predicate Means(fx: Effects, w: World) {
    && (forall registry, next, plan :: OutcomeAt(fx, w, registry, next, plan))
    && (forall o, next, prev, produced, plan :: AnnouncesAt(fx, w, o, next, prev, produced, plan))
  }

  lemma EffectsMean(w: World)
    ensures Means(EffectsOf(w), w)
  {
  }

  function RegistryAt(registry: I.Registry, next: nat, plan: Plan, fx: Effects): I.Registry {
    if plan.reconcile then fx.outcome(registry, next, plan).registry else registry
  }

  function DeltaAt(registry: I.Registry, next: nat, prev: L.Layer, produced: L.Layer, plan: Plan, w: World,
                   fx: Effects): CommitDelta {
    if plan.reconcile then fx.announce(fx.outcome(registry, next, plan), next, prev, produced, plan) else AuthoredDelta(next, plan, w)
  }

  function Filed(records: Records, plan: Plan): Records {
    if plan.authored.Some? then records[plan.authored.value.key := plan.authored.value.record] else records
  }

  function Installed(s: HeadState, p: Planned, produced: L.Layer, registry: I.Registry, store: Store): HeadState {
    var plan := p.plan;
    s.(store := store,
       overlay := plan.content,
       registry := registry,
       layer := if plan.reconcile then produced else s.layer,
       identityFile := if plan.reconcile then registry.byId else s.identityFile,
       authored := Filed(s.authored, plan),
       recordFiles := Filed(s.recordFiles, plan),
       unsaved := s.unsaved + plan.unsavedInsert - plan.unsavedRemove)
  }

  /** The head after the plan has gone through. */
  ghost function Applied(s: HeadState, p: Planned, produced: L.Layer, fx: Effects): HeadState {
    Installed(s, p, produced, RegistryAt(s.registry, s.store.revision + 1, p.plan, fx),
              Published(s.store.(versionCounter := p.counter), p.plan.content))
  }

  /** A commit that came to nothing: only version numbers may have been consumed. */
  function Abandoned(s: HeadState, counter: nat): HeadState {
    s.(overlay := s.store.generation, store := s.store.(versionCounter := counter))
  }

  datatype Outcome = Outcome(state: HeadState, result: Result<Option<CommitDelta>, Failure>)

  function DeltaOf(s: HeadState, plan: Plan, w: World, produced: L.Layer, fx: Effects): CommitDelta {
    DeltaAt(s.registry, s.store.revision + 1, s.layer, produced, plan, w, fx)
  }

  ghost function Concluded(s: HeadState, planned: Result<Option<Planned>, Failure>, w: World, produced: L.Layer,
                           fx: Effects): Outcome {
    match planned
    case Err(f) => Outcome(s, Err(f))
    case Ok(None) => Outcome(s, Ok(None))
    case Ok(Some(p)) =>
      if FailureOf(p.plan, w.failing).Some? then Outcome(Abandoned(s, p.counter), Err(FailureOf(p.plan, w.failing).value))
      else Outcome(Applied(s, p, produced, fx), Ok(Some(DeltaOf(s, p.plan, w, produced, fx))))
  }

  /** One commit, seen as an atomic transaction that installs the layer `produced`. */
  ghost function Committed(s: HeadState, m: Mutation, w: World, produced: L.Layer): Outcome {
    Concluded(s, PlanOf(s, m, w), w, produced, EffectsOf(w))
  }

  /** The state in which a plan starts to run: its version numbers are drawn. */
  function Drawn(s: HeadState, counter: nat): HeadState {
    s.(store := s.store.(versionCounter := counter))
  }

  lemma DrawnAlready(s: HeadState)
    ensures s.store.(versionCounter := s.store.versionCounter) == s.store
  {
  }

  /** The content is live and the identity part of a plan has gone through. */
  function Identified(s: HeadState, plan: Plan, produced: L.Layer, fx: Effects): HeadState {
    var registry := RegistryAt(s.registry, s.store.revision + 1, plan, fx);
    s.(overlay := plan.content, registry := registry, layer := produced, identityFile := registry.byId)
  }

  /** The publication tail has gone through. */
  ghost function Tailed(s: HeadState, plan: Plan): HeadState {
    s.(store := Published(s.store, plan.content), authored := Filed(s.authored, plan),
       unsaved := s.unsaved + plan.unsavedInsert - plan.unsavedRemove)
  }

  lemma ReconciledIsApplied(s: HeadState, plan: Plan, produced: L.Layer, fx: Effects)
    requires plan.reconcile && plan.authored.None?
    ensures Tailed(Identified(s, plan, produced, fx), plan) ==
            Applied(s, Planned(plan, s.store.versionCounter), produced, fx)
  {
    DrawnAlready(s);
  }

  lemma AuthoredIsApplied(s: HeadState, plan: Plan, produced: L.Layer, fx: Effects)
    requires !plan.reconcile
    ensures Tailed(s.(overlay := plan.content, recordFiles := Filed(s.recordFiles, plan)), plan) ==
            Applied(s, Planned(plan, s.store.versionCounter), produced, fx)
  {
    DrawnAlready(s);
  }

  lemma DrawingIsHarmless(s: HeadState, p: Planned, w: World, produced: L.Layer, fx: Effects)
    ensures Concluded(Drawn(s, p.counter), Ok(Some(p)), w, produced, fx) == Concluded(s, Ok(Some(p)), w, produced, fx)
  {
    var d := Drawn(s, p.counter);
    assert d.registry == s.registry && d.layer == s.layer && d.store.revision == s.store.revision;
    assert d.store.(versionCounter := p.counter) == s.store.(versionCounter := p.counter);
  }
}
