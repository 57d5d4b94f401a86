/** The producer that a reconciling commit runs: a scoped rebuild over the layer of the last
    commit, or a full build. */
module LayerProducer {
  import opened Wrappers
  import opened CommitPlan
  import L = CodeLayer
  import S = LayerSpec
  import N = NodeLists
  import B = Rebuild
  import X = Scoped
  import P = Patchwork
  import E = Exactness

  /** The project-relative files of a reconciliation scope. */
  function SeedOf(root: string, scope: set<string>): set<string> {
    set p | p in scope && NativeToGraph(root, p).Some? :: NativeToGraph(root, p).value
  }

  predicate IsScoped(prev: L.Layer, plan: Plan) {
    plan.scope.Some? && !plan.rescan && !(prev.nodes == map[] && prev.edges == {})
  }

  /** The files that a scoped write derives anew. */
  function DirtyFiles(prev: L.Layer, plan: Plan, eng: S.Engine): set<string>
    requires plan.scope.Some?
  {
    X.Dirty(prev, SeedOf(eng.root, plan.scope.value))
  }

  /** What a scoped write stands for: the files that it does not derive anew have the symbols
      that they had. */
  ghost predicate Kept(prev: L.Layer, plan: Plan, eng: S.Engine, was: S.Engine) {
    IsScoped(prev, plan) ==> X.SymbolsKept(was, eng, DirtyFiles(prev, plan, eng))
  }

  /** What the builds return, whether or not a full build would return the same. */
  ghost predicate IsProduced(next: L.Layer, prev: L.Layer, plan: Plan, eng: S.Engine, was: S.Engine) {
    && B.Shows(next, eng)
    && next.edges == if IsScoped(prev, plan) then X.RebuiltEdges(prev, was, eng, DirtyFiles(prev, plan, eng)) else S.FullEdges(eng)
  }

  /** A scoped write rebuilds the dirty files; a rescan, an unscoped write or an empty layer
      calls for a full build. */
  method ProduceLayer(prev: L.Layer, plan: Plan, eng: N.Project, ghost was: N.Project) returns (next: L.Layer)
    requires B.Shows(prev, was) && Kept(prev, plan, eng, was)
    ensures IsProduced(next, prev, plan, eng, was)
  {
    if IsScoped(prev, plan) {
      next := X.BuildScoped(eng, prev, SeedOf(eng.root, plan.scope.value), was);
    } else {
      next := B.FullBuild(eng);
    }
  }

  /** A write is scoped if it is no rescan, names the files to look at, and there is a layer to
      rebuild over. */
  lemma ScopedIff(prev: L.Layer, plan: Plan)
    ensures IsScoped(prev, plan) <==>
            plan.scope.Some? && !plan.rescan && ((exists x :: x in prev.nodes) || exists e :: e in prev.edges)
  {
  }

  // ---- When the produced layer is that of a full build ------------------------------------------

  /** From which engine state each file is derived once the layer has been produced. */
  ghost function OriginAfter(origin: P.Origins, prev: L.Layer, plan: Plan, eng: N.Project): P.Origins {
    if IsScoped(prev, plan) then P.Rederived(origin, DirtyFiles(prev, plan, eng), eng) else P.Wholly(eng)
  }

  /** Whatever the layer was pieced together from, production derives the dirty files anew. */
  lemma ProductionPatches(next: L.Layer, prev: L.Layer, plan: Plan, eng: N.Project, was: N.Project, origin: P.Origins)
    requires P.Patched(prev, was, origin) && Kept(prev, plan, eng, was) && IsProduced(next, prev, plan, eng, was)
    ensures P.Patched(next, eng, OriginAfter(origin, prev, plan, eng))
  {
    if IsScoped(prev, plan) {
      P.RebuildPatches(next, prev, was, eng, origin, DirtyFiles(prev, plan, eng));
    } else {
      P.AgreeingIsPatched(next, eng);
    }
  }

  /** The files that a scoped write leaves alone lead where they led. */
  ghost predicate Follows(prev: L.Layer, plan: Plan, eng: S.Engine, was: S.Engine) {
    IsScoped(prev, plan) ==> forall f :: f !in DirtyFiles(prev, plan, eng) ==> E.SameAnswers(was, eng, f)
  }

  /** Over a layer that agrees, the produced layer agrees if and only if the change is one
      that the rebuild follows. */
  lemma ProducedAgreesIff(next: L.Layer, prev: L.Layer, plan: Plan, eng: N.Project, was: N.Project)
    requires B.Agrees(prev, was) && Kept(prev, plan, eng, was) && IsProduced(next, prev, plan, eng, was)
    ensures B.Agrees(next, eng) <==> Follows(prev, plan, eng, was)
  {
    if IsScoped(prev, plan) {
      E.ScopedAgreesIff(next, prev, was, eng, DirtyFiles(prev, plan, eng));
    }
  }

  /** Where the files left alone keep their facts, it is enough to look where they touch the
      files in scope. */
  lemma FollowsIfSettled(prev: L.Layer, plan: Plan, eng: N.Project, was: N.Project)
    requires IsScoped(prev, plan)
    requires E.Steady(was, eng, SeedOf(eng.root, plan.scope.value), DirtyFiles(prev, plan, eng))
    ensures Kept(prev, plan, eng, was)
    ensures Follows(prev, plan, eng, was) <==>
            E.Settled(was, eng, SeedOf(eng.root, plan.scope.value), DirtyFiles(prev, plan, eng))
  {
    E.SettledIff(was, eng, SeedOf(eng.root, plan.scope.value), DirtyFiles(prev, plan, eng));
    E.ScopedExactIff(was, eng, DirtyFiles(prev, plan, eng));
  }
}
