/** What a reconciling commit announces, read off the registries before and after it. */
module Announcements {
  import opened Wrappers
  import opened Deltas
  import opened CommitPlan
  import opened CommitRuns
  import I = Identity
  import R = Reconcile
  import T = ReconcileTheorems
  import M = MatchingTheorems
  import MT = Matching
  import C = Classification
  import IR = IdentityRuns
  import L = CodeLayer
  import S = LayerSpec
  import N = Names
  import LP = LayerProducer

  // ---- From the reconciliation -----------------------------------------------------------------

  ghost predicate Usable(s: HeadState, m: Mutation, w: World) {
    Reconciles(s, m, w) && T.Reconcilable(s.registry, w.entities(PlanIn(s, m, w).scope), w.supply)
  }

  ghost function OutcomeOf(s: HeadState, m: Mutation, w: World): R.Outcome
    requires Reconciles(s, m, w)
  {
    Reconciliation(s.registry, s.store.revision + 1, PlanIn(s, m, w), w)
  }

  lemma ConcludedEffects(s: HeadState, p: Planned, w: World, produced: L.Layer, fx: Effects)
    requires p.plan.reconcile && Succeeded(Concluded(s, Ok(Some(p)), w, produced, fx))
    ensures var c := Concluded(s, Ok(Some(p)), w, produced, fx); var o := fx.outcome(s.registry, s.store.revision + 1, p.plan);
            && c.state.registry == o.registry
            && c.result.value.value == fx.announce(o, s.store.revision + 1, s.layer, produced, p.plan)
  {
  }

  lemma ConcludedOutcome(s: HeadState, p: Planned, w: World, produced: L.Layer, fx: Effects)
    requires Means(fx, w) && p.plan.reconcile && Succeeded(Concluded(s, Ok(Some(p)), w, produced, fx))
    ensures var c := Concluded(s, Ok(Some(p)), w, produced, fx); var o := Reconciliation(s.registry, s.store.revision + 1, p.plan, w);
            && c.state.registry == o.registry
            && c.result.value.value == AnnouncedBy(o, s.store.revision + 1, s.layer, produced, p.plan, w)
  {
    var o := fx.outcome(s.registry, s.store.revision + 1, p.plan);
    ConcludedEffects(s, p, w, produced, fx);
    assert OutcomeAt(fx, w, s.registry, s.store.revision + 1, p.plan);
    assert AnnouncesAt(fx, w, o, s.store.revision + 1, s.layer, produced, p.plan);
  }

  lemma CommittedOutcome(s: HeadState, m: Mutation, w: World, produced: L.Layer)
    requires Reconciles(s, m, w) && Succeeded(Committed(s, m, w, produced))
    ensures var c := Committed(s, m, w, produced); var o := OutcomeOf(s, m, w);
            && c.state.registry == o.registry
            && c.result.value.value == AnnouncedBy(o, s.store.revision + 1, s.layer, produced, PlanIn(s, m, w), w)
  {
    EffectsMean(w);
    ConcludedOutcome(s, PlanOf(s, m, w).value.value, w, produced, EffectsOf(w));
  }

  /** The registry after a commit holds every entity found, retires what was in scope and was
      not found, and leaves what lies elsewhere alone. */
  lemma RegistryFollowsEntities(s: HeadState, m: Mutation, w: World, produced: L.Layer)
    requires Usable(s, m, w) && Succeeded(Committed(s, m, w, produced))
    ensures var after, next := Committed(s, m, w, produced).state.registry, s.store.revision + 1;
            var scope := PlanIn(s, m, w).scope; var entities := w.entities(scope);
            && (forall e :: e in entities ==> exists id :: Holds(after, id, e) && C.Seen(after, id, next))
            && (forall id :: I.Live(s.registry, id) && M.Covers(scope, s.registry.byId[id].path) ==>
                  C.Seen(after, id, next) || C.Vanished(s.registry, after, id))
            && ((forall e :: e in entities ==> M.Covers(scope, e.path)) ==>
                  forall id :: id in s.registry.byId && !M.Covers(scope, s.registry.byId[id].path) ==>
                    id in after.byId && after.byId[id] == s.registry.byId[id])
  {
    var scope := PlanIn(s, m, w).scope;
    var entities, next := w.entities(scope), s.store.revision + 1;
    CommittedOutcome(s, m, w, produced);
    EntitiesAreHeld(s.registry, entities, next, scope, w.supply);
    ScopeIsSettled(s.registry, entities, next, scope, w.supply);
    if forall e :: e in entities ==> M.Covers(scope, e.path) {
      OthersAreKept(s.registry, entities, next, scope, w.supply);
    }
  }

  ghost predicate Holds(registry: I.Registry, id: I.DurableId, e: MT.Entity) {
    id in registry.byId && registry.byId[id].path == e.path && registry.byId[id].hash == e.hash
  }

  lemma EntitiesAreHeld(reg: I.Registry, entities: seq<MT.Entity>, rev: nat, scope: Option<set<string>>,
                        supply: nat -> I.DurableId)
    requires T.Reconcilable(reg, entities, supply)
    ensures var after := R.Reconciled(reg, entities, rev, scope, supply).registry;
            forall e :: e in entities ==> exists id :: Holds(after, id, e) && C.Seen(after, id, rev)
  {
    var o := R.Reconciled(reg, entities, rev, scope, supply);
    T.ReconcileBindings(reg, entities, rev, scope, supply);
    forall e | e in entities
      ensures exists id :: Holds(o.registry, id, e) && C.Seen(o.registry, id, rev)
    {
      var k :| 0 <= k < |o.bindings| && T.Settled(o, k, e, rev);
      C.BoundIffSeen(reg, entities, rev, scope, supply, o.bindings[k].1.id);
      assert Holds(o.registry, o.bindings[k].1.id, e);
    }
  }

  lemma ScopeIsSettled(reg: I.Registry, entities: seq<MT.Entity>, rev: nat, scope: Option<set<string>>,
                       supply: nat -> I.DurableId)
    requires T.Reconcilable(reg, entities, supply)
    ensures var after := R.Reconciled(reg, entities, rev, scope, supply).registry;
            forall id :: I.Live(reg, id) && M.Covers(scope, reg.byId[id].path) ==>
              C.Seen(after, id, rev) || C.Vanished(reg, after, id)
  {
    T.ReconcileAnchors(reg, entities, rev, scope, supply);
    forall id | I.Live(reg, id) && M.Covers(scope, reg.byId[id].path)
      ensures var after := R.Reconciled(reg, entities, rev, scope, supply).registry;
              C.Seen(after, id, rev) || C.Vanished(reg, after, id)
    {
      M.InScopeIff(reg, id, scope);
      C.BoundIffSeen(reg, entities, rev, scope, supply, id);
    }
  }

  lemma OthersAreKept(reg: I.Registry, entities: seq<MT.Entity>, rev: nat, scope: Option<set<string>>,
                      supply: nat -> I.DurableId)
    requires T.Reconcilable(reg, entities, supply) && forall e :: e in entities ==> M.Covers(scope, e.path)
    ensures var after := R.Reconciled(reg, entities, rev, scope, supply).registry;
            forall id :: id in reg.byId && !M.Covers(scope, reg.byId[id].path) ==>
              id in after.byId && after.byId[id] == reg.byId[id]
  {
    if scope.Some? {
      forall e | e in entities
        ensures IR.PathInScope(e.path, scope.value)
      {
        M.CoversIff(scope.value, e.path);
      }
      IR.ScopedFrame(reg, entities, rev, scope.value, supply);
      forall id | id in reg.byId && !M.Covers(scope, reg.byId[id].path)
        ensures !IR.PathInScope(reg.byId[id].path, scope.value)
      {
        M.CoversIff(scope.value, reg.byId[id].path);
      }
    }
  }

  // ---- The announced classes ------------------------------------------------------------------------

  lemma ClassesAnnounced(s: HeadState, m: Mutation, w: World, produced: L.Layer, id: I.DurableId)
    requires Usable(s, m, w) && Succeeded(Committed(s, m, w, produced))
    ensures var c := Committed(s, m, w, produced); var after := c.state.registry; var d := c.result.value.value;
            && (L.EntityId(id) in d.changed <==> C.Edited(s.registry, after, id))
            && (L.EntityId(id) in d.created <==> id in after.byId && id !in s.registry.byId)
            && (L.EntityId(id) in d.deleted <==> C.Vanished(s.registry, after, id))
  {
    CommittedOutcome(s, m, w, produced);
    var plan := PlanIn(s, m, w);
    C.ClassesShow(s.registry, w.entities(plan.scope), s.store.revision + 1, plan.scope, w.supply, id);
  }

  lemma OnlyEntitiesAnnounced(s: HeadState, m: Mutation, w: World, produced: L.Layer)
    requires Reconciles(s, m, w) && Succeeded(Committed(s, m, w, produced))
    ensures var d := Committed(s, m, w, produced).result.value.value;
            forall x :: x in d.changed + d.created + d.deleted + d.moved ==> x.EntityId?
  {
    CommittedOutcome(s, m, w, produced);
    AnnouncedEntities(OutcomeOf(s, m, w), s.store.revision + 1, s.layer, produced, PlanIn(s, m, w), w);
  }

  lemma AnnouncedEntities(o: R.Outcome, next: nat, prev: L.Layer, produced: L.Layer, plan: Plan, w: World)
    ensures var d := AnnouncedBy(o, next, prev, produced, plan, w);
            forall x :: x in d.changed + d.created + d.deleted + d.moved ==> x.EntityId?
  {
  }

  /** From the registries before and after: `changed` are the entities whose body changed,
      `created` those with a new id, `deleted` those that vanished, and `moved` those found
      unchanged at a path that was free. */
  lemma AnnouncedIsPrecise(s: HeadState, m: Mutation, w: World, produced: L.Layer, id: I.DurableId)
    requires Usable(s, m, w) && Succeeded(Committed(s, m, w, produced)) && C.NotAhead(s.registry, s.store.revision)
    ensures var c := Committed(s, m, w, produced); var after := c.state.registry; var d := c.result.value.value;
            && (L.EntityId(id) in d.changed <==> C.Edited(s.registry, after, id))
            && (L.EntityId(id) in d.created <==> id in after.byId && id !in s.registry.byId)
            && (L.EntityId(id) in d.deleted <==> C.Vanished(s.registry, after, id))
            && (L.EntityId(id) in d.moved <==> C.Relocated(s.registry, after, id, s.store.revision + 1))
  {
    ClassesAnnounced(s, m, w, produced, id);
    CommittedOutcome(s, m, w, produced);
    var plan := PlanIn(s, m, w);
    C.MovedShows(s.registry, w.entities(plan.scope), s.store.revision + 1, plan.scope, w.supply, id);
  }

  /** The nodes of the entities that a commit edited or removed. */
  ghost function Disturbed(before: I.Registry, after: I.Registry): set<L.NodeId> {
    set id | id in after.byId && (C.Edited(before, after, id) || C.Vanished(before, after, id)) :: L.EntityId(id)
  }

  ghost function Removed(before: I.Registry, after: I.Registry): set<L.NodeId> {
    set id | id in after.byId && C.Vanished(before, after, id) :: L.EntityId(id)
  }

  /** These are the seeds of what is affected. */
  lemma SeedsAreDisturbed(s: HeadState, m: Mutation, w: World, produced: L.Layer)
    requires Usable(s, m, w) && Succeeded(Committed(s, m, w, produced))
    ensures var c := Committed(s, m, w, produced); var d := c.result.value.value;
            d.changed + d.deleted == Disturbed(s.registry, c.state.registry) && d.deleted == Removed(s.registry, c.state.registry)
  {
    var after, d := Committed(s, m, w, produced).state.registry, Committed(s, m, w, produced).result.value.value;
    OnlyEntitiesAnnounced(s, m, w, produced);
    forall x: L.NodeId
      ensures x in d.changed + d.deleted <==> x in Disturbed(s.registry, after)
      ensures x in d.deleted <==> x in Removed(s.registry, after)
    {
      if x.EntityId? {
        ClassesAnnounced(s, m, w, produced, x.durableId);
      }
    }
  }

  /** No commit makes an anchor seen ahead of the store. */
  lemma SeenStaysBehind(s: HeadState, m: Mutation, w: World, produced: L.Layer)
    requires C.NotAhead(s.registry, s.store.revision) && (Reconciles(s, m, w) ==> Usable(s, m, w))
    ensures var after := Committed(s, m, w, produced).state; C.NotAhead(after.registry, after.store.revision)
  {
    var c := Committed(s, m, w, produced);
    CommittedRevision(s, m, w, produced);
    if Reconciles(s, m, w) && Succeeded(c) {
      CommittedOutcome(s, m, w, produced);
      forall id | id in c.state.registry.byId
        ensures c.state.registry.byId[id].lastSeen <= s.store.revision + 1
      {
        C.SeenBy(s.registry, w.entities(PlanIn(s, m, w).scope), s.store.revision + 1, PlanIn(s, m, w).scope, w.supply, id);
      }
    }
  }

  lemma CommittedRevision(s: HeadState, m: Mutation, w: World, produced: L.Layer)
    ensures var c := Committed(s, m, w, produced);
            && c.state.store.revision == s.store.revision + (if Succeeded(c) then 1 else 0)
            && (!Succeeded(c) || !Reconciles(s, m, w) ==> c.state.registry == s.registry)
  {
    ConcludedRevision(s, PlanOf(s, m, w), w, produced, EffectsOf(w));
  }

  lemma ConcludedRevision(s: HeadState, planned: Result<Option<Planned>, Failure>, w: World, produced: L.Layer, fx: Effects)
    ensures var c := Concluded(s, planned, w, produced, fx);
            && c.state.store.revision == s.store.revision + (if Succeeded(c) then 1 else 0)
            && (Succeeded(c) ==> planned.Ok? && planned.value.Some?)
            && (!Succeeded(c) || !planned.value.value.plan.reconcile ==> c.state.registry == s.registry)
  {
  }

  // ---- Files and flags ------------------------------------------------------------------------------

  /** A native path under the root stands for the project file that it is the path of. */
  lemma NativeIff(root: string, native: string, file: string)
    ensures NativeToGraph(root, native) == Some(file) <==> N.PathOf(root, native, file)
  {
    if N.PathOf(root, native, file) {
      N.ToGraphIff(root, native, file);
      var rest := native[|root|..];
      assert native == root + "/" + file ==> rest == "/" + file && rest[1..] == file;
      assert native == root + file ==> rest == file;
    }
    if NativeToGraph(root, native) == Some(file) {
      var rest := native[|root|..];
      assert native == root + rest;
      assert rest[0] == '/' ==> rest == "/" + rest[1..] && native == root + "/" + rest[1..];
    }
  }

  /** A scoped write seeds the rebuild with the project files whose paths are in its scope. */
  lemma SeedIff(root: string, scope: set<string>, file: string)
    ensures file in LP.SeedOf(root, scope) <==> exists p :: p in scope && N.PathOf(root, p, file)
  {
    forall p
      ensures NativeToGraph(root, p) == Some(file) <==> N.PathOf(root, p, file)
    {
      NativeIff(root, p, file);
    }
  }

  /** How a delta names a touched path: relative to the root if it lies there, else as it is. */
  ghost predicate NamedAs(root: string, native: string, file: string) {
    if exists g :: N.PathOf(root, native, g) then N.PathOf(root, native, file) else file == native
  }

  lemma RelativeMeans(paths: set<string>, root: string, file: string)
    ensures file in Relative(paths, root) <==> exists p :: p in paths && NamedAs(root, p, file)
  {
    forall p, g
      ensures NativeToGraph(root, p) == Some(g) <==> N.PathOf(root, p, g)
    {
      NativeIff(root, p, g);
    }
    forall p | p in paths
      ensures NamedAs(root, p, match NativeToGraph(root, p) case Some(g) => g case None => p)
      ensures NamedAs(root, p, file) ==> file == match NativeToGraph(root, p) case Some(g) => g case None => p
    {
    }
    if p :| p in paths && NamedAs(root, p, file) {
      assert file in Relative(paths, root);
    }
  }

  lemma AnnouncedRest(o: R.Outcome, next: nat, prev: L.Layer, produced: L.Layer, plan: Plan, w: World, file: string)
    ensures var d := AnnouncedBy(o, next, prev, produced, plan, w);
            && d.revision == next && d.authored == {} && d.rescan == plan.rescan
            && (file in d.affectedFiles <==>
                  file != "<external>" && exists x :: x in d.affected && x in produced.nodes && produced.nodes[x].file == file)
            && (file in d.touchedFiles <==> exists p :: p in plan.touched && NamedAs(w.engine.root, p, file))
  {
    RelativeMeans(plan.touched, w.engine.root, file);
  }

  /** The rest of a reconciling commit's delta: its revision, the files of the affected nodes
      of the new layer, the touched paths relative to the root, and whether to start over. */
  lemma DeltaRest(s: HeadState, m: Mutation, w: World, produced: L.Layer, file: string)
    requires Reconciles(s, m, w) && Succeeded(Committed(s, m, w, produced))
    ensures var d := Committed(s, m, w, produced).result.value.value;
            && d.revision == s.store.revision + 1 && d.authored == {}
            && (d.rescan <==> m.SyncAll? || (m.Poll? && Rescan in m.events) || (m.SyncPath? && w.isConfig(m.path)))
            && (file in d.affectedFiles <==>
                  file != "<external>" && exists x :: x in d.affected && x in produced.nodes && produced.nodes[x].file == file)
            && (file in d.touchedFiles <==> exists p :: p in PlanIn(s, m, w).touched && NamedAs(w.engine.root, p, file))
  {
    CommittedOutcome(s, m, w, produced);
    AnnouncedRest(OutcomeOf(s, m, w), s.store.revision + 1, s.layer, produced, PlanIn(s, m, w), w, file);
  }
}
