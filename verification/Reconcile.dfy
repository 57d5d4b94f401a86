/** Reconciliation: match, apply to the registry, retire what vanished. */
module Reconcile {
  import opened Wrappers
  import opened Orders
  import opened Identity
  import opened Matching
  import EditDistance

  // ---- Specification ------------------------------------------------------------

  function Sorted(entities: seq<Entity>): seq<Entity> {
    Sort(entities, EntityBefore)
  }

  /** Applies one binding: rebind a known id, or insert a minted one. */
  function ApplyOne(reg: Registry, e: Entity, b: Binding, review: seq<DurableId>, rev: Revision): Registry {
    if b.Minted? then Inserted(reg, Anchor(b.id, e.path, e.hash, e.kind, rev, rev, Active))
    else
      var r := Rebound(reg, b.id, e.path, e.hash, rev);
      if b.id in review then r else WithStatus(r, b.id, Active)
  }

  ghost predicate AllBound(es: seq<Entity>, m: Progress) {
    forall i :: 0 <= i < |es| ==> es[i].path in m.byPath
  }

  /** The registry after the first `n` entities' bindings have been applied. */
  ghost function Applied(reg: Registry, es: seq<Entity>, m: Progress, rev: Revision, n: nat): Registry
    requires n <= |es| && AllBound(es, m)
  {
    if n == 0 then reg
    else ApplyOne(Applied(reg, es, m, rev, n - 1), es[n - 1], m.byPath[es[n - 1].path], m.review, rev)
  }

  /** Marks every flagged id for review. */
  ghost function Reviewed(reg: Registry, review: seq<DurableId>): Registry {
    reg.(byId := map id | id in reg.byId ::
      if id in review then reg.byId[id].(status := NeedsReview) else reg.byId[id])
  }

  /** The anchors that this pass orphans: unbound, in scope and not orphaned before. */
  ghost function Vanished(reg: Registry, bound: set<DurableId>, scope: Option<set<string>>): set<DurableId> {
    set id | id in reg.byId && id !in bound && AnchorInScope(reg, id, scope) && reg.byId[id].status != Orphaned
  }

  ghost function RetiredAll(reg: Registry, ids: set<DurableId>, rev: Revision): Registry {
    reg.(byId := map id | id in reg.byId ::
           if id in ids then reg.byId[id].(lastSeen := rev, status := Orphaned) else reg.byId[id],
         byPath := reg.byPath - (set id | id in ids && id in reg.byId :: reg.byId[id].path))
  }

  datatype Outcome = Outcome(
    registry: Registry,
    bindings: seq<(string, Binding)>,
    bound: set<DurableId>,
    retired: set<DurableId>,
    review: seq<DurableId>)

  ghost function Bound(inp: Input, rev: Revision): Registry
    requires AllBound(inp.es, Matched(inp))
  {
    Reviewed(Applied(inp.reg, inp.es, Matched(inp), rev, |inp.es|), Matched(inp).review)
  }

  lemma {:induction false} PassBindsMatched(pass: Pass, inp: Input, n: nat, m: Progress)
    requires n <= |inp.es|
    requires forall i :: i in m.matched && i < |inp.es| ==> inp.es[i].path in m.byPath
    ensures forall i :: i in RunPass(pass, inp, n, m).matched && i < |inp.es| ==>
              inp.es[i].path in RunPass(pass, inp, n, m).byPath
  {
    if n > 0 {
      PassBindsMatched(pass, inp, n - 1, m);
    }
  }

  lemma EveryEntityBound(inp: Input)
    ensures AllBound(inp.es, Matched(inp))
  {
    var n := |inp.es|;
    PassBindsMatched(ExactPass, inp, n, START);
    PassBindsMatched(HashPass, inp, n, AfterExact(inp));
    PassBindsMatched(StructPass, inp, n, AfterHash(inp));
    PassBindsMatched(MintPass, inp, n, AfterStruct(inp));
    MintPassBinds(inp, n, AfterStruct(inp));
    forall i | 0 <= i < n
      ensures inp.es[i].path in Matched(inp).byPath
    {
      assert i in Matched(inp).matched;
    }
  }

  ghost function Reconciled(reg: Registry, entities: seq<Entity>, rev: Revision,
                            scope: Option<set<string>>, supply: nat -> DurableId): Outcome
  {
    var inp := Input(reg, Sorted(entities), scope, supply);
    var m := Matched(inp);
    EveryEntityBound(inp);
    var r := Bound(inp, rev);
    var gone := Vanished(r, m.bound, scope);
    Outcome(RetiredAll(r, gone, rev), m.bindings, m.bound, gone, m.review)
  }

  // ---- Every step keeps the indexes ------------------------------------------------

  lemma ApplyOneKeepsIndexes(reg: Registry, e: Entity, b: Binding, review: seq<DurableId>, rev: Revision)
    requires Indexed(reg)
    ensures Indexed(ApplyOne(reg, e, b, review, rev))
  {
    if b.Minted? {
      InsertedKeepsIndexes(reg, Anchor(b.id, e.path, e.hash, e.kind, rev, rev, Active));
    } else {
      if b.id in reg.byId {
        InsertedKeepsIndexes(reg, reg.byId[b.id].(path := e.path, hash := e.hash, lastSeen := rev));
      }
      StatusKeepsIndexes(Rebound(reg, b.id, e.path, e.hash, rev), b.id, Active);
    }
  }

  lemma {:induction false} AppliedKeepsIndexes(reg: Registry, es: seq<Entity>, m: Progress, rev: Revision, n: nat)
    requires Indexed(reg) && n <= |es| && AllBound(es, m)
    ensures Indexed(Applied(reg, es, m, rev, n))
  {
    if n > 0 {
      AppliedKeepsIndexes(reg, es, m, rev, n - 1);
      ApplyOneKeepsIndexes(Applied(reg, es, m, rev, n - 1), es[n - 1], m.byPath[es[n - 1].path], m.review, rev);
    }
  }

  lemma ReviewedKeepsIndexes(reg: Registry, review: seq<DurableId>)
    requires Indexed(reg)
    ensures Indexed(Reviewed(reg, review))
  {
    var r := Reviewed(reg, review);
    forall h, x
      ensures Listed(r, h, x) == if x in r.byId && r.byId[x].hash == h then 1 else 0
    {
      assert Listed(reg, h, x) == if x in reg.byId && reg.byId[x].hash == h then 1 else 0;
    }
  }

  lemma RetiredAllKeepsIndexes(reg: Registry, ids: set<DurableId>, rev: Revision)
    requires Indexed(reg)
    ensures Indexed(RetiredAll(reg, ids, rev))
  {
    var r := RetiredAll(reg, ids, rev);
    forall h, x
      ensures Listed(r, h, x) == if x in r.byId && r.byId[x].hash == h then 1 else 0
    {
      assert Listed(reg, h, x) == if x in reg.byId && reg.byId[x].hash == h then 1 else 0;
    }
  }

  lemma ReconciledKeepsIndexes(reg: Registry, entities: seq<Entity>, rev: Revision,
                               scope: Option<set<string>>, supply: nat -> DurableId)
    requires Indexed(reg)
    ensures Indexed(Reconciled(reg, entities, rev, scope, supply).registry)
  {
    var inp := Input(reg, Sorted(entities), scope, supply);
    var m := Matched(inp);
    EveryEntityBound(inp);
    AppliedKeepsIndexes(reg, inp.es, m, rev, |inp.es|);
    ReviewedKeepsIndexes(Applied(reg, inp.es, m, rev, |inp.es|), m.review);
    var r := Bound(inp, rev);
    RetiredAllKeepsIndexes(r, Vanished(r, m.bound, scope), rev);
  }

  // ---- The procedure -------------------------------------------------------------------

  /** Scans the hash list for the least eligible id. */
  method BestByHash(ghost inp: Input, registry: IdentityRegistry, scope: Option<set<string>>,
                    e: Entity, bound: set<DurableId>)
    returns (best: Option<DurableId>)
    requires inp.reg == registry.State() && inp.scope == scope
    ensures best == BestOf(HashCandidates(inp, e, bound))
  {
    ghost var c := HashCandidates(inp, e, bound);
    var ids := ListAt(registry.byHash, e.hash);
    best := None;
    for i := 0 to |ids|
      invariant best.None? ==> forall k :: 0 <= k < i ==> ids[k] !in c
      invariant best.Some? ==> best.value in c && forall k :: 0 <= k < i && ids[k] in c ==> AtMost(best.value, ids[k])
    {
      var id := ids[i];
      if id !in bound && (scope.None? || (id in registry.byId && AnchorFile(registry.byId[id].path).Some?
                                          && AnchorFile(registry.byId[id].path).value in scope.value))
         && id in registry.byId
         && (registry.byId[id].path != e.path || registry.byId[id].path !in registry.byPath) {
        assert id in c;
        if best.None? {
          best := Some(id);
        } else if Less(id, best.value) {
          forall k | 0 <= k < i && ids[k] in c
            ensures AtMost(id, ids[k])
          {
            AtMostTransitive(id, best.value, ids[k]);
          }
          best := Some(id);
        } else {
          NotLessIsAtMost(best.value, id);
        }
      }
    }
    if best.Some? {
      ClosestUnique(c, best.value, Closest(c));
    }
  }

  /** The best candidate outside `rest`, with its rank. */
  ghost predicate BestSoFar(c: map<DurableId, nat>, rest: set<DurableId>, best: Option<DurableId>, dist: nat) {
    match best
    case None => forall x :: x in c ==> x in rest
    case Some(id) =>
      && id in c && c[id] == dist
      && forall x :: x in c && x !in rest ==> dist < c[x] || (dist == c[x] && AtMost(id, x))
  }

  predicate Beats(id: DurableId, d: nat, best: Option<DurableId>, dist: nat) {
    best.None? || d < dist || (d == dist && Less(id, best.value))
  }

  lemma ConsiderCandidate(c: map<DurableId, nat>, rest: set<DurableId>, best: Option<DurableId>, dist: nat, id: DurableId)
    requires BestSoFar(c, rest, best, dist) && id in rest && id in c
    ensures Beats(id, c[id], best, dist) ==> BestSoFar(c, rest - {id}, Some(id), c[id])
    ensures !Beats(id, c[id], best, dist) ==> BestSoFar(c, rest - {id}, best, dist)
  {
    if Beats(id, c[id], best, dist) {
      forall x | x in c && x !in rest - {id}
        ensures c[id] < c[x] || (c[id] == c[x] && AtMost(id, x))
      {
        if x != id && c[id] == c[x] {
          AtMostTransitive(id, best.value, x);
        }
      }
    } else {
      NotLessIsAtMost(best.value, id);
    }
  }

  lemma BestSoFarIsBest(c: map<DurableId, nat>, best: Option<DurableId>, dist: nat)
    requires BestSoFar(c, {}, best, dist)
    ensures best == BestOf(c)
  {
    if best.Some? {
      ClosestUnique(c, best.value, Closest(c));
    }
  }

  /** Scans all anchors for the structural candidate at least edit distance. */
  method BestByStructure(ghost inp: Input, registry: IdentityRegistry, scope: Option<set<string>>,
                         e: Entity, bound: set<DurableId>)
    returns (best: Option<DurableId>)
    requires inp.reg == registry.State() && inp.scope == scope
    ensures best == BestOf(StructCandidates(inp, e, bound))
  {
    ghost var c := StructCandidates(inp, e, bound);
    best := None;
    var dist := 0;
    var rest := registry.byId.Keys;
    while rest != {}
      invariant rest <= registry.byId.Keys && BestSoFar(c, rest, best, dist)
      decreases |rest|
    {
      var id :| id in rest;
      var a := registry.byId[id];
      if id !in bound && (scope.None? || (AnchorFile(a.path).Some? && AnchorFile(a.path).value in scope.value))
         && LeafName(a.path) == e.name && a.kind == e.kind && Container(a.path) == e.container {
        var d := EditDistance.Compute(a.path, e.path);
        assert id in c && c[id] == d;
        ConsiderCandidate(c, rest, best, dist, id);
        if best.None? || d < dist || (d == dist && Less(id, best.value)) {
          best, dist := Some(id), d;
        }
      }
      rest := rest - {id};
    }
    BestSoFarIsBest(c, best, dist);
  }

  /** Binds each entity to the id its path is indexed under. */
  method MatchExact(registry: IdentityRegistry, es: seq<Entity>, scope: Option<set<string>>, supply: nat -> DurableId)
    returns (m: Progress)
    ensures m == AfterExact(Input(registry.State(), es, scope, supply))
  {
    ghost var inp := Input(registry.State(), es, scope, supply);
    m := START;
    for i := 0 to |es|
      invariant m == RunPass(ExactPass, inp, i, START)
    {
      if i !in m.matched && es[i].path in registry.byPath && registry.byPath[es[i].path] !in m.bound {
        var id := registry.byPath[es[i].path];
        var oldHash := if id in registry.byId then registry.byId[id].hash else es[i].hash;
        m := Record(m, i, es[i], Exact(id, oldHash));
      }
    }
  }

  method MatchByHashStep(ghost inp: Input, registry: IdentityRegistry, e: Entity, i: nat,
                         scope: Option<set<string>>, m: Progress)
    returns (m': Progress)
    requires inp.reg == registry.State() && inp.scope == scope && i < |inp.es| && inp.es[i] == e
    ensures m' == Step(HashPass, inp, i, m)
  {
    m' := m;
    if i !in m.matched {
      var best := BestByHash(inp, registry, scope, e, m.bound);
      if best.Some? {
        m' := Record(m, i, e, Moved(best.value, registry.byId[best.value].path, registry.byId[best.value].hash));
      }
    }
  }

  /** Binds each remaining entity to the least unconsumed id with its hash. */
  method MatchByHash(registry: IdentityRegistry, es: seq<Entity>, scope: Option<set<string>>,
                     supply: nat -> DurableId, m0: Progress)
    returns (m: Progress)
    requires m0 == AfterExact(Input(registry.State(), es, scope, supply))
    ensures m == AfterHash(Input(registry.State(), es, scope, supply))
  {
    ghost var inp := Input(registry.State(), es, scope, supply);
    m := m0;
    for i := 0 to |es|
      invariant m == RunPass(HashPass, inp, i, m0)
    {
      m := MatchByHashStep(inp, registry, es[i], i, scope, m);
    }
  }

  method MatchByStructureStep(ghost inp: Input, registry: IdentityRegistry, e: Entity, i: nat,
                              scope: Option<set<string>>, m: Progress)
    returns (m': Progress)
    requires inp.reg == registry.State() && inp.scope == scope && i < |inp.es| && inp.es[i] == e
    ensures m' == Step(StructPass, inp, i, m)
  {
    m' := m;
    if i !in m.matched {
      var best := BestByStructure(inp, registry, scope, e, m.bound);
      if best.Some? {
        m' := Record(m, i, e, Struct(best.value, registry.byId[best.value].hash));
      }
    }
  }

  /** Binds each remaining entity to the closest unconsumed anchor of its name, kind and container. */
  method MatchByStructure(registry: IdentityRegistry, es: seq<Entity>, scope: Option<set<string>>,
                          supply: nat -> DurableId, m0: Progress)
    returns (m: Progress)
    requires m0 == AfterHash(Input(registry.State(), es, scope, supply))
    ensures m == AfterStruct(Input(registry.State(), es, scope, supply))
  {
    ghost var inp := Input(registry.State(), es, scope, supply);
    m := m0;
    for i := 0 to |es|
      invariant m == RunPass(StructPass, inp, i, m0)
    {
      m := MatchByStructureStep(inp, registry, es[i], i, scope, m);
    }
  }

  /** Mints an id for every entity still unbound. */
  method MatchByMinting(registry: IdentityRegistry, es: seq<Entity>, scope: Option<set<string>>,
                        supply: nat -> DurableId, m0: Progress)
    returns (m: Progress)
    requires m0 == AfterStruct(Input(registry.State(), es, scope, supply))
    ensures m == Matched(Input(registry.State(), es, scope, supply))
  {
    ghost var inp := Input(registry.State(), es, scope, supply);
    m := m0;
    for i := 0 to |es|
      invariant m == RunPass(MintPass, inp, i, m0)
    {
      if i !in m.matched {
        m := Record(m, i, es[i], Minted(supply(m.minted)));
      }
    }
  }

  method ReconcileRegistry(registry: IdentityRegistry, entities: seq<Entity>, rev: Revision,
                           scope: Option<set<string>>, supply: nat -> DurableId)
    returns (bindings: seq<(string, Binding)>, retired: seq<DurableId>, review: seq<DurableId>)
    requires registry.Valid()
    modifies registry
    ensures registry.Valid()
    ensures var o := Reconciled(old(registry.State()), entities, rev, scope, supply);
            && registry.State() == o.registry
            && bindings == o.bindings
            && review == o.review
            && Distinct(retired) && (forall id :: id in retired <==> id in o.retired)
  {
    var es := Sorted(entities);
    ghost var inp := Input(registry.State(), es, scope, supply);
    var m := MatchExact(registry, es, scope, supply);
    m := MatchByHash(registry, es, scope, supply, m);
    m := MatchByStructure(registry, es, scope, supply, m);
    m := MatchByMinting(registry, es, scope, supply, m);
    EveryEntityBound(inp);
    ApplyBindings(registry, es, m, rev);
    MarkForReview(registry, m.review);
    retired := RetireVanished(registry, m.bound, scope, rev);
    bindings, review := m.bindings, m.review;
  }

  method ApplyBindings(registry: IdentityRegistry, es: seq<Entity>, m: Progress, rev: Revision)
    requires registry.Valid() && AllBound(es, m)
    modifies registry
    ensures registry.Valid() && registry.State() == Applied(old(registry.State()), es, m, rev, |es|)
  {
    for i := 0 to |es|
      invariant registry.Valid() && registry.State() == Applied(old(registry.State()), es, m, rev, i)
    {
      var e := es[i];
      match m.byPath[e.path]
      case Minted(id) =>
        registry.Insert(Anchor(id, e.path, e.hash, e.kind, rev, rev, Active));
      case _ =>
        var id := m.byPath[e.path].id;
        registry.Rebind(id, e.path, e.hash, rev);
        if id !in m.review {
          registry.SetStatus(id, Active);
        }
    }
  }

  method MarkForReview(registry: IdentityRegistry, review: seq<DurableId>)
    requires registry.Valid()
    modifies registry
    ensures registry.Valid() && registry.State() == Reviewed(old(registry.State()), review)
  {
    ghost var start := registry.State();
    for i := 0 to |review|
      invariant registry.Valid() && registry.State() == Reviewed(start, review[..i])
    {
      ReviewOneMore(start, review[..i], review[i]);
      assert review[..i] + [review[i]] == review[..i + 1];
      registry.SetStatus(review[i], NeedsReview);
    }
    assert review[..|review|] == review;
  }

  lemma ReviewOneMore(start: Registry, review: seq<DurableId>, id: DurableId)
    ensures WithStatus(Reviewed(start, review), id, NeedsReview) == Reviewed(start, review + [id])
  {
    assert WithStatus(Reviewed(start, review), id, NeedsReview).byId == Reviewed(start, review + [id]).byId;
  }

  /** Visits the anchors in no particular order. */
  method RetireVanished(registry: IdentityRegistry, bound: set<DurableId>, scope: Option<set<string>>, rev: Revision)
    returns (retired: seq<DurableId>)
    requires registry.Valid()
    modifies registry
    ensures registry.Valid() && Distinct(retired)
    ensures var gone := Vanished(old(registry.State()), bound, scope);
            && registry.State() == RetiredAll(old(registry.State()), gone, rev)
            && forall id :: id in retired <==> id in gone
  {
    ghost var start := registry.State();
    ghost var gone := Vanished(start, bound, scope);
    ghost var done: set<DurableId> := {};
    retired := [];
    var rest := registry.byId.Keys;
    while rest != {}
      invariant rest <= start.byId.Keys && Swept(gone, rest, done, retired)
      invariant registry.Valid() && registry.State() == RetiredAll(start, done, rev)
      decreases |rest|
    {
      var id :| id in rest;
      var fired := RetireIfVanished(registry, id, bound, scope, rev, start, done);
      SweepOne(gone, rest, done, retired, id);
      rest := rest - {id};
      if fired {
        retired := retired + [id];
        done := done + {id};
      }
    }
    assert done == gone;
  }

  /** Of the ids to retire, `done` are those already visited, and `retired` lists them. */
  ghost predicate Swept(gone: set<DurableId>, rest: set<DurableId>, done: set<DurableId>, retired: seq<DurableId>) {
    done == gone - rest && Distinct(retired) && forall id :: id in retired <==> id in done
  }

  lemma SweepOne(gone: set<DurableId>, rest: set<DurableId>, done: set<DurableId>, retired: seq<DurableId>,
                 id: DurableId)
    requires Swept(gone, rest, done, retired) && id in rest
    ensures id !in done
    ensures id in gone ==> Swept(gone, rest - {id}, done + {id}, retired + [id])
    ensures id !in gone ==> Swept(gone, rest - {id}, done, retired)
  {
  }

  method RetireIfVanished(registry: IdentityRegistry, id: DurableId, bound: set<DurableId>, scope: Option<set<string>>,
                          rev: Revision, ghost start: Registry, ghost done: set<DurableId>)
    returns (fired: bool)
    requires registry.Valid() && registry.State() == RetiredAll(start, done, rev)
    requires id in start.byId && id !in done
    modifies registry
    ensures registry.Valid() && fired == (id in Vanished(start, bound, scope))
    ensures registry.State() == RetiredAll(start, if fired then done + {id} else done, rev)
  {
    var a := registry.byId[id];
    assert a == start.byId[id];
    fired := id !in bound
      && (scope.None? || (AnchorFile(a.path).Some? && AnchorFile(a.path).value in scope.value))
      && a.status != Orphaned;
    if fired {
      RetireOneMore(start, done, id, rev);
      registry.Retire(id, rev);
    }
  }

  lemma RetireOneMore(start: Registry, ids: set<DurableId>, id: DurableId, rev: Revision)
    requires id in start.byId && id !in ids && start.byId[id].status != Orphaned
    ensures Retired(RetiredAll(start, ids, rev), id, rev) == RetiredAll(start, ids + {id}, rev)
  {
    var a, b := Retired(RetiredAll(start, ids, rev), id, rev), RetiredAll(start, ids + {id}, rev);
    assert a.byId == b.byId;
    var p := set x | x in ids && x in start.byId :: start.byId[x].path;
    var q := set x | x in ids + {id} && x in start.byId :: start.byId[x].path;
    assert q == p + {start.byId[id].path};
    assert a.byPath == b.byPath;
  }
}
