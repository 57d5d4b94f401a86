/** The commit funnel: it stages the next state, runs every fallible step against the
    stage, publishes last, and rolls back on failure. Each commit is proved to be the
    atomic transaction of the plan module. */
module Commit {
  import opened Wrappers
  import opened ContentStore
  import opened Deltas
  import opened CommitPlan
  import I = Identity
  import M = Matching
  import R = Reconcile
  import C = Classification
  import L = CodeLayer
  import N = NodeLists
  import B = Rebuild
  import opened LayerProducer

  /** What a failed commit puts back. The store is not part of it: nothing but the
      version counter moves before the publication. */
  datatype Baseline = Baseline(published: ContentMap, registry: I.Registry, authored: Records, layer: CoherentLayer)

  method CloseOver(next: CoherentLayer, prev: CoherentLayer, seeds: set<L.NodeId>,
                   deleted: set<L.NodeId>) returns (ids: set<L.NodeId>)
    ensures ids == AffectedIds(next, prev, seeds, deleted)
  {
    ids := L.AffectedClosure(next, prev, seeds, deleted);
    forall x | L.Affected(next, prev, seeds, deleted, x)
      ensures x in L.Universe(next, prev, seeds)
    {
      AffectedIsKnown(next, prev, seeds, deleted, x);
    }
  }

  /** The plan built is the one planned, and only its version numbers have been drawn. */
  ghost predicate Prepared(before: HeadState, planned: Result<Option<Planned>, Failure>,
                           built: Result<Option<Plan>, Failure>, now: HeadState) {
    match planned
    case Err(f) => built == Err(f) && now == before
    case Ok(None) => built == Ok(None) && now == before
    case Ok(Some(p)) =>
      && built == Ok(Some(p.plan)) && now == Drawn(before, p.counter)
      && !(p.plan.reconcile && p.plan.authored.Some?)
  }

  class Head {
    const store: ContentStore
    const registry: I.IdentityRegistry
    const authoredLayers: map<string, bool>
    var overlay: ContentMap
    var authored: Records
    var layer: CoherentLayer
    var unsaved: set<string>
    var identityFile: map<I.DurableId, I.Anchor>
    var recordFiles: Records
    /** The engine state whose nodes the layer shows. */
    ghost var engine: N.Project

    ghost function State(): HeadState
      reads this, store, registry
    {
      HeadState(store.State(), overlay, registry.State(), authored, layer, unsaved, identityFile, recordFiles, authoredLayers)
    }

    ghost predicate Valid()
      reads this, store, registry
    {
      registry.Valid() && overlay == store.generation && B.Shows(layer, engine)
    }

    constructor (store: ContentStore, registry: I.IdentityRegistry, layer: CoherentLayer, authored: Records,
                 authoredLayers: map<string, bool>, ghost engine: N.Project)
      requires registry.Valid() && B.Shows(layer, engine)
      ensures Valid() && this.store == store && this.registry == registry && this.engine == engine
      ensures State() == HeadState(store.State(), store.generation, registry.State(), authored, layer, {},
                                     registry.byId, authored, authoredLayers)
    {
      this.store, this.registry, this.authoredLayers := store, registry, authoredLayers;
      this.overlay, this.layer, this.authored, unsaved := store.generation, layer, authored, {};
      identityFile, recordFiles, this.engine := registry.byId, authored, engine;
    }

    // ---- Building the plan --------------------------------------------------------------

    method BuildPlan(m: Mutation, w: World) returns (r: Result<Option<Plan>, Failure>)
      modifies store`versionCounter
      ensures Prepared(old(State()), PlanOf(old(State()), m, w), r, State())
    {
      match m
      case Overlay(changes, events, touched, edited) =>
        var content := store.Stage(changes);
        r := Ok(Some(Plan(content, touched, false, ScopeOf(events, w.isSource), true, None, edited, {})));
      case SyncPath(path) =>
        var change := DiskChange(path, w.disk(path));
        var content := store.Stage([change]);
        var rescan := w.isConfig(path);
        var scope := if rescan then None else ScopeOf([SyncEvent(path, w.disk)], w.isSource);
        r := Ok(Some(Plan(content, {path}, rescan, scope, true, None, {}, {path})));
      case SyncAll =>
        var changes := ReadDiskChanges(w.walked, unsaved, w.disk);
        var content := store.Stage(changes);
        r := Ok(Some(Plan(content, {}, true, None, true, None, {}, {})));
      case Author(name, id, value) =>
        r := PlanAuthor(name, id, value, w);
      case Poll(events) =>
        var plan := BuildPollPlan(events, w);
        r := Ok(plan);
    }

    static method ReadDiskChanges(walked: seq<string>, skip: set<string>,
                                  disk: string -> DiskRead) returns (changes: seq<Change>)
      ensures changes == ReingestChanges(walked, skip, disk)
    {
      changes := [];
      for i := 0 to |walked|
        invariant changes == ReingestChanges(walked[..i], skip, disk)
      {
        assert walked[..i + 1][..i] == walked[..i];
        if walked[i] !in skip {
          match disk(walked[i])
          case Readable(text) => changes := changes + [Insert(walked[i], text)];
          case Missing => changes := changes + [Delete(walked[i])];
          case Unreadable =>
        }
      }
      assert walked[..|walked|] == walked;
    }

    method PlanAuthor(name: string, id: I.DurableId, value: string, w: World) returns (r: Result<Option<Plan>, Failure>)
      ensures match PlanOf(State(), Author(name, id, value), w)
              case Err(f) => r == Err(f)
              case Ok(None) => r == Ok(None)
              case Ok(Some(p)) => r == Ok(Some(p.plan)) && p.counter == store.versionCounter
    {
      if name !in authoredLayers {
        return Err(UnknownLayer);
      }
      if id !in registry.byId {
        return Err(UnknownId);
      }
      if AuthoredSerialise in w.failing {
        return Err(FailedAt(AuthoredSerialise));
      }
      var key := (name, id);
      var version := Version(value, store.revision + 1, registry.byId[id].hash);
      var history := if key in authored && authoredLayers[name] then authored[key].history + [authored[key].current] else [];
      var ap := AuthoredPlan(key, Record(version, history));
      r := Ok(Some(Plan(store.generation, {}, false, None, false, Some(ap), {}, {})));
    }

    method BuildPollPlan(events: seq<ChangeEvent>, w: World) returns (plan: Option<Plan>)
      modifies store`versionCounter
      ensures match PlanPoll(old(State()), events, w)
              case None => plan == None && State() == old(State())
              case Some(p) => plan == Some(p.plan) && State() == old(State()).(store := old(store.State()).(versionCounter := p.counter))
    {
      if events == [] {
        return None;
      }
      if Rescan in events {
        return Some(Plan(store.generation, {}, true, None, true, None, {}, {}));
      }
      var changes, kept := FoldEvents(events, w);
      if kept == [] {
        return None;
      }
      var content := store.Stage(changes);
      plan := Some(Plan(content, EventPaths(kept), false, ScopeOf(kept, w.isSource), true, None, {}, {}));
    }

    /** Keeps the plain changes of paths without an unsaved buffer. */
    method FoldEvents(events: seq<ChangeEvent>, w: World) returns (changes: seq<Change>, kept: seq<ChangeEvent>)
      ensures changes == PollChanges(events, unsaved, w.disk) && kept == Surviving(events, unsaved)
    {
      changes, kept := [], [];
      for i := 0 to |events|
        invariant changes == PollChanges(events[..i], unsaved, w.disk) && kept == Surviving(events[..i], unsaved)
      {
        assert events[..i + 1][..i] == events[..i];
        var path := EventPath(events[i]);
        if path.Some? && path.value !in unsaved {
          match events[i]
          case CreatedAt(p) =>
            changes, kept := changes + [DiskChange(p, w.disk(p))], kept + [events[i]];
          case DeletedAt(p) =>
            changes, kept := changes + [Delete(p)], kept + [events[i]];
          case ChangedAt(p) =>
            changes, kept := changes + [DiskChange(p, w.disk(p))], kept + [events[i]];
          case OtherAt(_) =>
          case Pathless =>
          case Rescan =>
        }
      }
      assert events[..|events|] == events;
    }

    // ---- The staged transaction --------------------------------------------------------------

    /** Reconciles identities and produces the next code layer. */
    method ReconcileStaged(plan: Plan, w: World, ghost fx: Effects) returns (delta: CommitDelta)
      requires registry.Valid() && plan.reconcile && Means(fx, w) && B.Shows(layer, engine) && Kept(layer, plan, w.engine, engine)
      modifies registry, this`layer, this`engine
      ensures registry.Valid() && engine == w.engine && IsProduced(layer, old(layer), plan, w.engine, old(engine))
      ensures registry.State() == RegistryAt(old(registry.State()), store.revision + 1, plan, fx)
      ensures delta == DeltaAt(old(registry.State()), store.revision + 1, old(layer), layer, plan, w, fx)
    {
      ghost var o := fx.outcome(registry.State(), store.revision + 1, plan);
      var bindings, retired := Reconcile(plan, w, fx);
      var next := ProduceLayer(layer, plan, w.engine, engine);
      delta := Announce(bindings, retired, plan, w, next, fx, o);
      layer := next;
      engine := w.engine;
    }

    method Reconcile(plan: Plan, w: World, ghost fx: Effects) returns (bindings: seq<(string, M.Binding)>,
                     gone: set<I.DurableId>)
      requires registry.Valid() && Means(fx, w)
      modifies registry
      ensures registry.Valid()
      ensures var o := fx.outcome(old(registry.State()), store.revision + 1, plan);
              registry.State() == o.registry && bindings == o.bindings && gone == o.retired
    {
      assert OutcomeAt(fx, w, registry.State(), store.revision + 1, plan);
      var retired, review;
      bindings, retired, review := R.ReconcileRegistry(registry, w.entities(plan.scope), store.revision + 1, plan.scope, w.supply);
      gone := set id | id in retired;
    }

    /** Classifies the bindings and closes over the dependents of what changed. */
    method Announce(bindings: seq<(string, M.Binding)>, retired: set<I.DurableId>, plan: Plan, w: World,
                    next: CoherentLayer, ghost fx: Effects, ghost o: R.Outcome)
      returns (delta: CommitDelta)
      requires Means(fx, w) && bindings == o.bindings && retired == o.retired
      ensures delta == fx.announce(o, store.revision + 1, layer, next, plan)
    {
      assert AnnouncesAt(fx, w, o, store.revision + 1, layer, next, plan);
      var classes := C.ClassifyBindings(w.entities(plan.scope), bindings);
      var changed := EntityIds(set id | id in classes.changed);
      var deleted := EntityIds(retired);
      var affected := CloseOver(next, layer, changed + deleted, deleted);
      delta := CommitDelta(store.revision + 1, EntityIds(set id | id in classes.created), changed, deleted,
                           EntityIds(Moved(classes.moved)), {}, affected,
                           Relative(plan.touched, w.engine.root), FilesOf(next, affected), plan.rescan);
    }

    method PersistIdentity(w: World) returns (failure: Option<Failure>)
      modifies this`identityFile
      ensures identityFile == if failure.None? then registry.byId else old(identityFile)
      ensures failure == if IdentityFault in w.failing then Some(FailedAt(IdentityFault))
                         else if IdentitySerialise in w.failing then Some(FailedAt(IdentitySerialise))
                         else if IdentityWrite in w.failing then Some(FailedAt(IdentityWrite)) else None
    {
      if IdentityFault in w.failing {
        return Some(FailedAt(IdentityFault));
      }
      if IdentitySerialise in w.failing {
        return Some(FailedAt(IdentitySerialise));
      }
      if IdentityWrite in w.failing {
        return Some(FailedAt(IdentityWrite));
      }
      identityFile := registry.byId;
      failure := None;
    }

    method PersistAuthored(ap: AuthoredPlan, w: World) returns (failure: Option<Failure>)
      modifies this`recordFiles
      ensures recordFiles == if failure.None? then old(recordFiles)[ap.key := ap.record] else old(recordFiles)
      ensures failure == if AuthoredFault in w.failing then Some(FailedAt(AuthoredFault))
                         else if AuthoredWrite in w.failing then Some(FailedAt(AuthoredWrite)) else None
    {
      if AuthoredFault in w.failing {
        return Some(FailedAt(AuthoredFault));
      }
      if AuthoredWrite in w.failing {
        return Some(FailedAt(AuthoredWrite));
      }
      recordFiles := recordFiles[ap.key := ap.record];
      failure := None;
    }

    /** The identity part: reconcile, stage the code layer, persist the registry. */
    method IdentityStep(plan: Plan, w: World, ghost fx: Effects) returns (r: Result<CommitDelta, Failure>)
      requires registry.Valid() && plan.reconcile && plan.authored.None? && Means(fx, w)
      requires B.Shows(layer, engine) && Kept(layer, plan, w.engine, engine)
      modifies registry, this`overlay, this`layer, this`engine, this`identityFile
      ensures registry.Valid()
      ensures r == if FailureOf(plan, w.failing).Some? then Err(FailureOf(plan, w.failing).value)
                   else Ok(DeltaOf(old(State()), plan, w, layer, fx))
      ensures r.Ok? ==> State() == Identified(old(State()), plan, layer, fx) && engine == w.engine
      ensures r.Ok? ==> IsProduced(layer, old(layer), plan, w.engine, old(engine))
      ensures r.Err? ==> State() == old(State()).(overlay := overlay, registry := registry.State(), layer := layer)
    {
      var delta := GoLive(plan, w, fx);
      var failure := PassFaults(plan, w);
      r := if failure.Some? then Err(failure.value) else Ok(delta);
    }

    /** Puts the staged content under analysis and reconciles against it. */
    method GoLive(plan: Plan, w: World, ghost fx: Effects) returns (delta: CommitDelta)
      requires registry.Valid() && plan.reconcile && Means(fx, w) && B.Shows(layer, engine) && Kept(layer, plan, w.engine, engine)
      modifies registry, this`overlay, this`layer, this`engine
      ensures registry.Valid() && engine == w.engine && IsProduced(layer, old(layer), plan, w.engine, old(engine))
      ensures State() == Identified(old(State()), plan, layer, fx).(identityFile := old(identityFile))
      ensures delta == DeltaOf(old(State()), plan, w, layer, fx)
    {
      overlay := plan.content;
      delta := ReconcileStaged(plan, w, fx);
    }

    /** The fault boundary after production, and then the persisted registry. */
    method PassFaults(plan: Plan, w: World) returns (failure: Option<Failure>)
      requires plan.reconcile && plan.authored.None?
      modifies this`identityFile
      ensures failure == FailureOf(plan, w.failing)
      ensures identityFile == if failure.None? then registry.byId else old(identityFile)
    {
      if CodeLayerFault in w.failing {
        return Some(FailedAt(CodeLayerFault));
      }
      failure := PersistIdentity(w);
    }

    /** The publication tail, which cannot fail. */
    method PublishTail(plan: Plan)
      modifies this`authored, this`unsaved, store
      ensures State() == Tailed(old(State()), plan)
    {
      var _ := store.PublishStaged(plan.content);
      if plan.authored.Some? {
        var ap := plan.authored.value;
        authored := authored[ap.key := ap.record];
      }
      unsaved := unsaved + plan.unsavedInsert - plan.unsavedRemove;
    }

    method RunReconciling(plan: Plan, w: World, ghost fx: Effects) returns (r: Result<CommitDelta, Failure>)
      requires registry.Valid() && plan.reconcile && plan.authored.None? && Means(fx, w)
      requires B.Shows(layer, engine) && Kept(layer, plan, w.engine, engine)
      modifies this`overlay, this`layer, this`engine, this`identityFile, this`authored, this`unsaved, store, registry
      ensures registry.Valid()
      ensures r == if FailureOf(plan, w.failing).Some? then Err(FailureOf(plan, w.failing).value)
                   else Ok(DeltaOf(old(State()), plan, w, layer, fx))
      ensures r.Err? ==> State() == old(State()).(overlay := overlay, registry := registry.State(), layer := layer)
      ensures r.Ok? ==> State() == Applied(old(State()), Planned(plan, old(store.versionCounter)), layer, fx) && engine == w.engine
      ensures r.Ok? ==> IsProduced(layer, old(layer), plan, w.engine, old(engine))
    {
      ghost var before := State();
      r := IdentityStep(plan, w, fx);
      if r.Ok? {
        PublishTail(plan);
        ReconciledIsApplied(before, plan, layer, fx);
      }
    }

    method RunAuthoring(plan: Plan, w: World, ghost fx: Effects) returns (r: Result<CommitDelta, Failure>)
      requires !plan.reconcile
      modifies this`overlay, this`recordFiles, this`authored, this`unsaved, store
      ensures r == if FailureOf(plan, w.failing).Some? then Err(FailureOf(plan, w.failing).value)
                   else Ok(DeltaOf(old(State()), plan, w, layer, fx))
      ensures r.Err? ==> State() == old(State()).(overlay := overlay)
      ensures r.Ok? ==> State() == Applied(old(State()), Planned(plan, old(store.versionCounter)), layer, fx)
    {
      ghost var before := State();
      r := AuthoredStep(plan, w);
      if r.Ok? {
        PublishTail(plan);
        AuthoredIsApplied(before, plan, layer, fx);
      }
    }

    /** On success the whole transaction has happened; on failure the store, the unsaved
        set, the authored records and the sidecar are as before. */
    method RunStaged(plan: Plan, w: World, ghost fx: Effects) returns (r: Result<CommitDelta, Failure>)
      requires registry.Valid() && !(plan.reconcile && plan.authored.Some?) && Means(fx, w)
      requires B.Shows(layer, engine) && (plan.reconcile ==> Kept(layer, plan, w.engine, engine))
      modifies this, store, registry
      ensures registry.Valid()
      ensures r == if FailureOf(plan, w.failing).Some? then Err(FailureOf(plan, w.failing).value)
                   else Ok(DeltaOf(old(State()), plan, w, layer, fx))
      ensures r.Err? ==> State() == old(State()).(overlay := overlay, registry := registry.State(), layer := layer)
      ensures r.Ok? ==> State() == Applied(old(State()), Planned(plan, old(store.versionCounter)), layer, fx)
      ensures r.Ok? ==> if plan.reconcile then IsProduced(layer, old(layer), plan, w.engine, old(engine)) && engine == w.engine
                        else layer == old(layer) && engine == old(engine)
    {
      if plan.reconcile {
        r := RunReconciling(plan, w, fx);
      } else {
        r := RunAuthoring(plan, w, fx);
      }
    }

    method AuthoredStep(plan: Plan, w: World) returns (r: Result<CommitDelta, Failure>)
      requires !plan.reconcile
      modifies this`overlay, this`recordFiles
      ensures r == if FailureOf(plan, w.failing).Some? then Err(FailureOf(plan, w.failing).value)
                   else Ok(AuthoredDelta(store.revision + 1, plan, w))
      ensures State() == old(State()).(overlay := plan.content,
                                       recordFiles := if r.Ok? then Filed(old(recordFiles), plan) else old(recordFiles))
    {
      overlay := plan.content;
      var delta := CommitDelta(store.revision + 1, {}, {}, {}, {}, {}, {}, Relative(plan.touched, w.engine.root), {}, plan.rescan);
      if plan.authored.Some? {
        var failure := PersistAuthored(plan.authored.value, w);
        if failure.Some? {
          return Err(failure.value);
        }
        delta := delta.(authored := EntityIds({plan.authored.value.key.1}));
      }
      r := Ok(delta);
    }

    method Rollback(base: Baseline, ghost was: N.Project)
      requires I.Indexed(base.registry)
      modifies this`overlay, this`authored, this`layer, this`engine, registry
      ensures registry.Valid() && engine == was
      ensures State() == old(State()).(overlay := base.published, registry := base.registry,
                                       authored := base.authored, layer := base.layer)
    {
      overlay := base.published;
      registry.Restore(base.registry);
      authored := base.authored;
      layer := base.layer;
      engine := was;
    }

    /** Runs a built plan and undoes it on failure. */
    method RunOrRollback(staged: Plan, w: World, ghost fx: Effects) returns (r: Result<Option<CommitDelta>, Failure>)
      requires Valid() && !(staged.reconcile && staged.authored.Some?) && Means(fx, w)
      requires staged.reconcile ==> Kept(layer, staged, w.engine, engine)
      modifies this, store, registry
      ensures Valid()
      ensures Outcome(State(), r) == Concluded(old(State()), Ok(Some(Planned(staged, old(store.versionCounter)))), w, layer, fx)
      ensures if staged.reconcile && r.Ok? then IsProduced(layer, old(layer), staged, w.engine, old(engine)) && engine == w.engine
              else layer == old(layer) && engine == old(engine)
    {
      var base := Baseline(store.generation, I.Registry(registry.byId, registry.byPath, registry.byHash), authored, layer);
      ghost var was := engine;
      DrawnAlready(State());
      var result := RunStaged(staged, w, fx);
      match result
      case Ok(delta) =>
        r := Ok(Some(delta));
      case Err(failure) =>
        Rollback(base, was);
        r := Err(failure);
    }

    method Conclude(plan: Result<Option<Plan>, Failure>, w: World, ghost before: HeadState,
                    ghost planned: Result<Option<Planned>, Failure>, ghost fx: Effects)
      returns (r: Result<Option<CommitDelta>, Failure>)
      requires Valid() && Prepared(before, planned, plan, State()) && before.overlay == before.store.generation && Means(fx, w)
      requires plan.Ok? && plan.value.Some? && plan.value.value.reconcile ==> Kept(layer, plan.value.value, w.engine, engine)
      modifies this, store, registry
      ensures Valid()
      ensures Outcome(State(), r) == Concluded(before, planned, w, layer, fx)
      ensures if plan.Ok? && plan.value.Some? && plan.value.value.reconcile && r.Ok?
              then IsProduced(layer, old(layer), plan.value.value, w.engine, old(engine)) && engine == w.engine
              else layer == old(layer) && engine == old(engine)
    {
      if plan.Err? {
        return Err(plan.error);
      }
      if plan.value.None? {
        return Ok(None);
      }
      r := RunOrRollback(plan.value.value, w, fx);
      DrawingIsHarmless(before, planned.value.value, w, layer, fx);
    }

    /** Every commit, whichever step of it fails, is the atomic transaction; a successful
        reconciling one installs the layer that the producer makes of the engine. */
    method Commit(m: Mutation, w: World) returns (r: Result<Option<CommitDelta>, Failure>)
      requires Valid() && (Reconciles(State(), m, w) ==> Kept(layer, PlanIn(State(), m, w), w.engine, engine))
      modifies this, store, registry
      ensures Valid()
      ensures Outcome(State(), r) == Committed(old(State()), m, w, layer)
      ensures if old(Reconciles(State(), m, w)) && r.Ok?
              then IsProduced(layer, old(layer), old(PlanIn(State(), m, w)), w.engine, old(engine)) && engine == w.engine
              else layer == old(layer) && engine == old(engine)
    {
      ghost var before := State();
      var plan := BuildPlan(m, w);
      EffectsMean(w);
      r := Conclude(plan, w, before, PlanOf(before, m, w), EffectsOf(w));
    }
  }
}
