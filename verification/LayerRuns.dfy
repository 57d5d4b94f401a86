/** The head's code layer over every run of commits: from which engine state each file's
    edges come, when the layer is that of a full build, and what is then affected. */
module LayerRuns {
  import opened Wrappers
  import opened CommitPlan
  import opened Deltas
  import opened CommitRuns
  import opened LayerProducer
  import opened Announcements
  import I = Identity
  import L = CodeLayer
  import S = LayerSpec
  import N = NodeLists
  import B = Rebuild
  import P = Patchwork
  import E = Exactness

  /** The attempt goes through and installs a layer. */
  ghost predicate Installs(s: HeadState, a: Attempt) {
    Reconciles(s, a.m, a.w) && Succeeded(Tries(s, a))
  }

  /** The engine state whose nodes the head shows after an attempt. */
  ghost function EngineAfter(s: HeadState, was: N.Project, a: Attempt): N.Project {
    if Installs(s, a) then a.w.engine else was
  }

  ghost function EngineOf(s: HeadState, was: N.Project, attempts: seq<Attempt>): N.Project {
    if attempts == [] then was
    else
      var n := |attempts| - 1;
      EngineAfter(Tried(s, attempts[..n]), EngineOf(s, was, attempts[..n]), attempts[n])
  }

  ghost function OriginNext(s: HeadState, origin: P.Origins, a: Attempt): P.Origins {
    if Installs(s, a) then OriginAfter(origin, s.layer, PlanIn(s, a.m, a.w), a.w.engine) else origin
  }

  /** From which engine state each file was last derived. */
  ghost function OriginOf(s: HeadState, origin: P.Origins, attempts: seq<Attempt>): P.Origins {
    if attempts == [] then origin
    else
      var n := |attempts| - 1;
      OriginNext(Tried(s, attempts[..n]), OriginOf(s, origin, attempts[..n]), attempts[n])
  }

  /** What the head's commit asks of the engine and says of the layer that it installs. */
  ghost predicate Produced(s: HeadState, was: N.Project, a: Attempt) {
    Installs(s, a) ==>
      var plan := PlanIn(s, a.m, a.w);
      Kept(s.layer, plan, a.w.engine, was) && IsProduced(a.produced, s.layer, plan, a.w.engine, was)
  }

  ghost predicate ProducedAt(s: HeadState, was: N.Project, attempts: seq<Attempt>, n: nat)
    requires n < |attempts|
  {
    Produced(Tried(s, attempts[..n]), EngineOf(s, was, attempts[..n]), attempts[n])
  }

  ghost predicate AllProduced(s: HeadState, was: N.Project, attempts: seq<Attempt>) {
    forall n: nat :: n < |attempts| ==> ProducedAt(s, was, attempts, n)
  }

  lemma ProducedBefore(s: HeadState, was: N.Project, attempts: seq<Attempt>, m: nat)
    requires AllProduced(s, was, attempts) && m <= |attempts|
    ensures AllProduced(s, was, attempts[..m])
  {
    forall n: nat | n < m
      ensures ProducedAt(s, was, attempts[..m], n)
    {
      assert attempts[..m][..n] == attempts[..n];
      assert ProducedAt(s, was, attempts, n);
    }
  }

  lemma ConcludedLayer(s: HeadState, planned: Result<Option<Planned>, Failure>, w: World, produced: L.Layer, fx: Effects)
    ensures var o := Concluded(s, planned, w, produced, fx);
            o.state.layer == if Succeeded(o) && planned.value.value.plan.reconcile then produced else s.layer
  {
  }

  lemma LayerAfter(s: HeadState, a: Attempt)
    ensures Tries(s, a).state.layer == if Installs(s, a) then a.produced else s.layer
  {
    ConcludedLayer(s, PlanOf(s, a.m, a.w), a.w, a.produced, EffectsOf(a.w));
  }

  // ---- Whatever happens, the layer is a patchwork -----------------------------------------------

  lemma AttemptPatches(s: HeadState, was: N.Project, origin: P.Origins, a: Attempt)
    requires P.Patched(s.layer, was, origin) && Produced(s, was, a)
    ensures P.Patched(Tries(s, a).state.layer, EngineAfter(s, was, a), OriginNext(s, origin, a))
  {
    LayerAfter(s, a);
    if Installs(s, a) {
      ProductionPatches(a.produced, s.layer, PlanIn(s, a.m, a.w), a.w.engine, was, origin);
    }
  }

  /** Over every run of commits with arbitrary failures the head shows the nodes of the last
      engine state, and each file's edges are those of the state it was last derived from. */
  lemma {:induction false} LayerIsPatchwork(s: HeadState, was: N.Project, origin: P.Origins, attempts: seq<Attempt>)
    requires P.Patched(s.layer, was, origin) && AllProduced(s, was, attempts)
    ensures P.Patched(Tried(s, attempts).layer, EngineOf(s, was, attempts), OriginOf(s, origin, attempts))
  {
    if attempts != [] {
      var n := |attempts| - 1;
      ProducedBefore(s, was, attempts, n);
      LayerIsPatchwork(s, was, origin, attempts[..n]);
      assert ProducedAt(s, was, attempts, n);
      AttemptPatches(Tried(s, attempts[..n]), EngineOf(s, was, attempts[..n]), OriginOf(s, origin, attempts[..n]), attempts[n]);
    }
  }

  /** So after any run the head's layer is that of a full build if and only if each file
      leads where it led when it was last derived. */
  lemma LayerIsFullIff(s: HeadState, was: N.Project, origin: P.Origins, attempts: seq<Attempt>)
    requires P.Patched(s.layer, was, origin) && AllProduced(s, was, attempts)
    ensures B.Agrees(Tried(s, attempts).layer, EngineOf(s, was, attempts)) <==>
            E.LeadsAsDerived(OriginOf(s, origin, attempts), EngineOf(s, was, attempts))
  {
    LayerIsPatchwork(s, was, origin, attempts);
    E.PatchedAgreesIff(Tried(s, attempts).layer, EngineOf(s, was, attempts), OriginOf(s, origin, attempts));
  }

  // ---- When the layer follows the engine all along -----------------------------------------------

  ghost predicate FollowsAt(s: HeadState, was: N.Project, attempts: seq<Attempt>, n: nat)
    requires n < |attempts|
  {
    var now, a := Tried(s, attempts[..n]), attempts[n];
    Installs(now, a) ==> Follows(now.layer, PlanIn(now, a.m, a.w), a.w.engine, EngineOf(s, was, attempts[..n]))
  }

  ghost predicate AgreesAt(s: HeadState, was: N.Project, attempts: seq<Attempt>, n: nat)
    requires n <= |attempts|
  {
    B.Agrees(Tried(s, attempts[..n]).layer, EngineOf(s, was, attempts[..n]))
  }

  lemma AgreesNextIff(s: HeadState, was: N.Project, attempts: seq<Attempt>, n: nat)
    requires n < |attempts| && AllProduced(s, was, attempts) && AgreesAt(s, was, attempts, n)
    ensures AgreesAt(s, was, attempts, n + 1) <==> FollowsAt(s, was, attempts, n)
  {
    var now, eng, a := Tried(s, attempts[..n]), EngineOf(s, was, attempts[..n]), attempts[n];
    assert attempts[..n + 1][..n] == attempts[..n];
    assert ProducedAt(s, was, attempts, n);
    LayerAfter(now, a);
    if Installs(now, a) {
      ProducedAgreesIff(a.produced, now.layer, PlanIn(now, a.m, a.w), a.w.engine, eng);
    }
  }

  lemma {:induction false} FollowingAgrees(s: HeadState, was: N.Project, attempts: seq<Attempt>, n: nat)
    requires n <= |attempts| && B.Agrees(s.layer, was) && AllProduced(s, was, attempts)
    requires forall k: nat :: k < n ==> FollowsAt(s, was, attempts, k)
    ensures AgreesAt(s, was, attempts, n)
  {
    if n > 0 {
      FollowingAgrees(s, was, attempts, n - 1);
      AgreesNextIff(s, was, attempts, n - 1);
    }
  }

  /** Over every run of commits with arbitrary failures, the head's layer is at every point
      that of a full build if and only if every installed change is one that its rebuild
      follows. */
  lemma LayerFollowsEngine(s: HeadState, was: N.Project, attempts: seq<Attempt>)
    requires B.Agrees(s.layer, was) && AllProduced(s, was, attempts)
    ensures (forall n: nat :: n <= |attempts| ==> AgreesAt(s, was, attempts, n)) <==>
            (forall n: nat :: n < |attempts| ==> FollowsAt(s, was, attempts, n))
  {
    if forall n: nat :: n < |attempts| ==> FollowsAt(s, was, attempts, n) {
      forall n: nat | n <= |attempts|
        ensures AgreesAt(s, was, attempts, n)
      {
        FollowingAgrees(s, was, attempts, n);
      }
    }
    if forall n: nat :: n <= |attempts| ==> AgreesAt(s, was, attempts, n) {
      forall n: nat | n < |attempts|
        ensures FollowsAt(s, was, attempts, n)
      {
        assert AgreesAt(s, was, attempts, n + 1);
        AgreesNextIff(s, was, attempts, n);
      }
    }
  }

  // ---- What is affected is exact -------------------------------------------------------------------

  /** A layer with just the given edges. */
  ghost function EdgesOnly(edges: set<L.Edge>): L.Layer {
    L.Layer(map[], edges, map[], map[])
  }

  lemma AffectedByEdges(next: L.Layer, prev: L.Layer, seeds: set<L.NodeId>, deleted: set<L.NodeId>, x: L.NodeId)
    ensures L.Affected(next, prev, seeds, deleted, x) <==>
            L.Affected(EdgesOnly(next.edges), EdgesOnly(prev.edges), seeds, deleted, x)
  {
    forall path
      ensures L.Chain(next, prev, deleted, path) <==> L.Chain(EdgesOnly(next.edges), EdgesOnly(prev.edges), deleted, path)
    {
      assert forall a, b :: L.DependsOn(next, prev, deleted, a, b) <==>
          L.DependsOn(EdgesOnly(next.edges), EdgesOnly(prev.edges), deleted, a, b);
    }
  }

  /** A path of references, imports, inheritances and overrides of the full builds leads from
      `x` to an entity that was edited or removed between the two registries. */
  ghost predicate Reaches(eng: S.Engine, was: S.Engine, before: I.Registry, after: I.Registry, x: L.NodeId) {
    L.Affected(EdgesOnly(S.FullEdges(eng)), EdgesOnly(S.FullEdges(was)), Disturbed(before, after), Removed(before, after), x)
  }

  /** After a run whose changes its rebuilds follow, the affected ids that the next commit
      announces are exactly those that reach an entity it edited or removed through the edges
      of a full build over its engine state or, at removed ids, over the one before. */
  lemma AffectedIsExact(s: HeadState, was: N.Project, attempts: seq<Attempt>, n: nat, x: L.NodeId)
    requires n < |attempts| && B.Agrees(s.layer, was) && AllProduced(s, was, attempts)
    requires forall k: nat :: k <= n ==> FollowsAt(s, was, attempts, k)
    requires Installs(Tried(s, attempts[..n]), attempts[n])
    requires Usable(Tried(s, attempts[..n]), attempts[n].m, attempts[n].w)
    ensures var now := Tried(s, attempts[..n]); var o := Tries(now, attempts[n]);
            x in o.result.value.value.affected <==>
            Reaches(attempts[n].w.engine, EngineOf(s, was, attempts[..n]), now.registry, o.state.registry, x)
  {
    AgreesAround(s, was, attempts, n);
    AffectedThrough(Tried(s, attempts[..n]), attempts[n], EngineOf(s, was, attempts[..n]), x);
  }

  lemma AgreesAround(s: HeadState, was: N.Project, attempts: seq<Attempt>, n: nat)
    requires n < |attempts| && B.Agrees(s.layer, was) && AllProduced(s, was, attempts)
    requires forall k: nat :: k <= n ==> FollowsAt(s, was, attempts, k)
    requires Installs(Tried(s, attempts[..n]), attempts[n])
    ensures B.Agrees(Tried(s, attempts[..n]).layer, EngineOf(s, was, attempts[..n]))
    ensures B.Agrees(attempts[n].produced, attempts[n].w.engine)
  {
    FollowingAgrees(s, was, attempts, n);
    FollowingAgrees(s, was, attempts, n + 1);
    assert attempts[..n + 1][..n] == attempts[..n];
    LayerAfter(Tried(s, attempts[..n]), attempts[n]);
  }

  lemma AffectedThrough(s: HeadState, a: Attempt, was: N.Project, x: L.NodeId)
    requires Installs(s, a) && B.Agrees(s.layer, was) && B.Agrees(a.produced, a.w.engine) && Usable(s, a.m, a.w)
    ensures var o := Tries(s, a);
            x in o.result.value.value.affected <==> Reaches(a.w.engine, was, s.registry, o.state.registry, x)
  {
    EffectsMean(a.w);
    ConcludedAffected(s, PlanOf(s, a.m, a.w), a.w, a.produced, EffectsOf(a.w), x);
    SeedsAreDisturbed(s, a.m, a.w, a.produced);
    var d := Tries(s, a).result.value.value;
    AffectedByEdges(a.produced, s.layer, d.changed + d.deleted, d.deleted, x);
  }

  lemma ConcludedAffected(s: HeadState, planned: Result<Option<Planned>, Failure>, w: World, produced: L.Layer, fx: Effects,
                          x: L.NodeId)
    requires Means(fx, w) && Succeeded(Concluded(s, planned, w, produced, fx)) && planned.value.value.plan.reconcile
    ensures var d := Concluded(s, planned, w, produced, fx).result.value.value;
            x in d.affected <==> L.Affected(produced, s.layer, d.changed + d.deleted, d.deleted, x)
  {
    var plan := planned.value.value.plan;
    var o := fx.outcome(s.registry, s.store.revision + 1, plan);
    assert AnnouncesAt(fx, w, o, s.store.revision + 1, s.layer, produced, plan);
    var d := Concluded(s, planned, w, produced, fx).result.value.value;
    if L.Affected(produced, s.layer, d.changed + d.deleted, d.deleted, x) {
      AffectedIsKnown(produced, s.layer, d.changed + d.deleted, d.deleted, x);
    }
  }
}
