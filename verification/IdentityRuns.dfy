/** Identity over whole runs: order independence, the frame of a scoped pass, orphaning
    that fires once, indexes that stay consistent, and saving and loading. */
module IdentityRuns {
  import opened Wrappers
  import opened Orders
  import opened Identity
  import opened Matching
  import opened Reconcile
  import opened AppliedFacts
  import opened ReconcileTheorems

  // ---- Order independence ------------------------------------------------------------

  lemma AscendingEntitiesAgree(s: seq<Entity>, t: seq<Entity>)
    requires PathAscending(s) && PathAscending(t)
    requires forall e :: e in s <==> e in t
    ensures s == t
  {
    var ps := seq(|s|, i requires 0 <= i < |s| => s[i].path);
    var pt := seq(|t|, i requires 0 <= i < |t| => t[i].path);
    forall p
      ensures p in ps <==> p in pt
    {
      if p in ps {
        var i :| 0 <= i < |ps| && ps[i] == p;
        assert s[i] in t;
        var j :| 0 <= j < |t| && t[j] == s[i];
        assert pt[j] == p;
      }
      if p in pt {
        var i :| 0 <= i < |pt| && pt[i] == p;
        assert t[i] in s;
        var j :| 0 <= j < |s| && s[j] == t[i];
        assert ps[j] == p;
      }
    }
    AscendingIsCanonical(ps, pt);
    AscendingIsDistinct(t);
    forall i | 0 <= i < |s|
      ensures s[i] == t[i]
    {
      assert s[i] in t;
      var j :| 0 <= j < |t| && t[j] == s[i];
      assert t[j].path == ps[i] == pt[i] == t[i].path;
    }
  }

  /** Reconciling any permutation of the entities gives the same bindings, the same
      registry and the same retired ids. */
  lemma OrderIndependence(reg: Registry, a: seq<Entity>, b: seq<Entity>, rev: Revision,
                          scope: Option<set<string>>, supply: nat -> DurableId)
    requires DistinctPaths(a) && DistinctPaths(b) && multiset(a) == multiset(b)
    ensures Reconciled(reg, a, rev, scope, supply) == Reconciled(reg, b, rev, scope, supply)
  {
    SortedAscends(a);
    SortedAscends(b);
    forall e
      ensures e in a <==> e in b
    {
      assert e in a <==> e in multiset(a);
      assert e in b <==> e in multiset(b);
    }
    AscendingEntitiesAgree(Sorted(a), Sorted(b));
  }

  // ---- The frame of a scoped pass --------------------------------------------------------

  ghost predicate PathInScope(p: string, scope: set<string>) {
    AnchorFile(p).Some? && AnchorFile(p).value in scope
  }

  /** A scoped pass leaves every anchor outside the scope exactly as it was, and every
      path entry outside the scope too. */
  lemma ScopedFrame(reg: Registry, entities: seq<Entity>, rev: Revision, scope: set<string>,
                    supply: nat -> DurableId)
    requires Reconcilable(reg, entities, supply)
    requires forall e :: e in entities ==> PathInScope(e.path, scope)
    ensures var o := Reconciled(reg, entities, rev, Some(scope), supply);
            && (forall id :: id in reg.byId && !PathInScope(reg.byId[id].path, scope) ==>
                  id !in o.bound && id !in o.retired && id in o.registry.byId && o.registry.byId[id] == reg.byId[id])
            && (forall p :: !PathInScope(p, scope) ==>
                  (p in o.registry.byPath <==> p in reg.byPath) &&
                  (p in reg.byPath ==> o.registry.byPath[p] == reg.byPath[p]))
  {
    var inp := Input(reg, Sorted(entities), Some(scope), supply);
    var o := Reconciled(reg, entities, rev, Some(scope), supply);
    InputUsable(reg, entities, Some(scope), supply);
    forall id | id in reg.byId && !PathInScope(reg.byId[id].path, scope)
      ensures id !in o.bound && id !in o.retired && id in o.registry.byId && o.registry.byId[id] == reg.byId[id]
    {
      OutOfScopeIsUnbound(inp, id);
      FinalUnbound(inp, rev, id);
    }
    forall p | !PathInScope(p, scope)
      ensures p in o.registry.byPath <==> p in reg.byPath
      ensures p in reg.byPath ==> o.registry.byPath[p] == reg.byPath[p]
    {
      OutOfScopePathKept(inp, rev, p);
    }
  }

  lemma OutOfScopeIsUnbound(inp: Input, id: DurableId)
    requires Usable(inp) && inp.scope.Some? && id in inp.reg.byId
    requires forall e :: e in inp.es ==> PathInScope(e.path, inp.scope.value)
    requires !PathInScope(inp.reg.byId[id].path, inp.scope.value)
    ensures id !in Matched(inp).bound
  {
    BoundIsTouched(inp, id);
    forall i: nat | i < |inp.es|
      ensures BindingAt(inp, i).id != id
    {
      BindingFacts(inp, i);
      assert inp.es[i] in inp.es;
    }
  }

  lemma OutOfScopePathKept(inp: Input, rev: Revision, p: string)
    requires Usable(inp) && inp.scope.Some? && !PathInScope(p, inp.scope.value)
    requires forall e :: e in inp.es ==> PathInScope(e.path, inp.scope.value)
    ensures p in Final(inp, rev).byPath <==> p in inp.reg.byPath
    ensures p in inp.reg.byPath ==> Final(inp, rev).byPath[p] == inp.reg.byPath[p]
  {
    forall i: nat | i < |inp.es|
      ensures inp.es[i].path != p
    {
      assert inp.es[i] in inp.es;
    }
    AppliedOtherPath(inp, rev, |inp.es|, p);
    OutOfScopePathStays(inp, p);
    EveryEntityBound(inp);
    var gone := Vanished(Bound(inp, rev), Matched(inp).bound, inp.scope);
    assert forall x :: x in gone ==> PathInScope(Bound(inp, rev).byId[x].path, inp.scope.value);
  }

  // ---- Orphaning fires once --------------------------------------------------------------

  datatype Call = Call(entities: seq<Entity>, rev: Revision, scope: Option<set<string>>, supply: nat -> DurableId)

  ghost function Run(reg: Registry, call: Call): Outcome {
    Reconciled(reg, call.entities, call.rev, call.scope, call.supply)
  }

  /** `states` and `outs` are the registries and outcomes of running `calls` in order. */
  ghost predicate IsRun(calls: seq<Call>, states: seq<Registry>, outs: seq<Outcome>) {
    && |states| == |calls| + 1 && |outs| == |calls|
    && forall k :: 0 <= k < |calls| ==> outs[k] == Run(states[k], calls[k]) && states[k + 1] == outs[k].registry
  }

  ghost predicate BindsOnlyBound(m: Progress) {
    (forall p :: p in m.byPath ==> m.byPath[p].id in m.bound) && (forall id :: id in m.review ==> id in m.bound)
  }

  lemma PassBindsOnlyBound(pass: Pass, inp: Input, n: nat, m: Progress)
    requires n <= |inp.es| && BindsOnlyBound(m)
    ensures BindsOnlyBound(RunPass(pass, inp, n, m))
  {
    var keeps := (p: Progress) => BindsOnlyBound(p);
    PassInduction(pass, inp, n, m, keeps);
  }

  lemma {:induction false} AppliedTouchesOnlyBound(inp: Input, m: Progress, rev: Revision, n: nat, id: DurableId)
    requires Indexed(inp.reg) && n <= |inp.es| && AllBound(inp.es, m) && BindsOnlyBound(m) && id !in m.bound
    ensures var r := Applied(inp.reg, inp.es, m, rev, n);
            (id in r.byId <==> id in inp.reg.byId) && (id in inp.reg.byId ==> r.byId[id] == inp.reg.byId[id])
  {
    if n > 0 {
      AppliedTouchesOnlyBound(inp, m, rev, n - 1, id);
      AppliedKeepsIndexes(inp.reg, inp.es, m, rev, n - 1);
      ApplyOneTouchesOnly(Applied(inp.reg, inp.es, m, rev, n - 1), inp.es[n - 1], m.byPath[inp.es[n - 1].path],
                          m.review, rev, id);
    }
  }

  ghost predicate OrphansOnce(reg: Registry, o: Outcome, id: DurableId) {
    && (id in o.retired ==> id !in o.bound && Live(reg, id) && id in o.registry.byId && !Live(o.registry, id))
    && (id in reg.byId && id !in o.bound && !Live(reg, id) ==> id in o.registry.byId && !Live(o.registry, id))
  }

  lemma ApplyOneTouchesOnly(reg: Registry, e: Entity, b: Binding, review: seq<DurableId>, rev: Revision, id: DurableId)
    requires Indexed(reg) && id != b.id
    ensures var r := ApplyOne(reg, e, b, review, rev);
            (id in r.byId <==> id in reg.byId) && (id in reg.byId ==> r.byId[id] == reg.byId[id])
  {
  }

  /** For any input at all: an unbound anchor keeps its status unless this call retires
      it, and only anchors that were not orphaned are retired. */
  lemma UnboundStatus(reg: Registry, call: Call, id: DurableId)
    requires Indexed(reg)
    ensures OrphansOnce(reg, Run(reg, call), id)
  {
    var inp := Input(reg, Sorted(call.entities), call.scope, call.supply);
    var n := |inp.es|;
    EveryEntityBound(inp);
    PassBindsOnlyBound(ExactPass, inp, n, START);
    PassBindsOnlyBound(HashPass, inp, n, AfterExact(inp));
    PassBindsOnlyBound(StructPass, inp, n, AfterHash(inp));
    PassBindsOnlyBound(MintPass, inp, n, AfterStruct(inp));
    if id !in Matched(inp).bound {
      AppliedTouchesOnlyBound(inp, Matched(inp), call.rev, n, id);
    }
  }

  lemma {:induction false} RunStaysIndexed(calls: seq<Call>, states: seq<Registry>, outs: seq<Outcome>, k: nat)
    requires IsRun(calls, states, outs) && Indexed(states[0]) && k <= |calls|
    ensures Indexed(states[k])
  {
    if k > 0 {
      RunStaysIndexed(calls, states, outs, k - 1);
      var c := calls[k - 1];
      ReconciledKeepsIndexes(states[k - 1], c.entities, c.rev, c.scope, c.supply);
      assert outs[k - 1] == Run(states[k - 1], c);
    }
  }

  lemma {:induction false} OrphanStaysOrphaned(states: seq<Registry>, outs: seq<Outcome>, i: nat, j: nat, id: DurableId)
    requires |states| == |outs| + 1 && i < j <= |outs| && id in outs[i].retired
    requires forall k :: 0 <= k < |outs| ==> states[k + 1] == outs[k].registry && OrphansOnce(states[k], outs[k], id)
    requires forall k :: i < k < j ==> id !in outs[k].bound
    ensures id in states[j].byId && !Live(states[j], id)
    decreases j
  {
    assert states[j - 1 + 1] == outs[j - 1].registry && OrphansOnce(states[j - 1], outs[j - 1], id);
    if i < j - 1 {
      OrphanStaysOrphaned(states, outs, i, j - 1, id);
    }
  }

  /** In any run, an id retired at two steps was bound at some step strictly between. */
  lemma OrphaningFiresOnce(calls: seq<Call>, states: seq<Registry>, outs: seq<Outcome>, i: nat, j: nat, id: DurableId)
    requires IsRun(calls, states, outs) && Indexed(states[0]) && i < j < |calls|
    requires id in outs[i].retired && id in outs[j].retired
    ensures exists k :: i < k < j && id in outs[k].bound
  {
    forall k | 0 <= k < |outs|
      ensures states[k + 1] == outs[k].registry && OrphansOnce(states[k], outs[k], id)
    {
      RunStaysIndexed(calls, states, outs, k);
      UnboundStatus(states[k], calls[k], id);
    }
    if forall k :: i < k < j ==> id !in outs[k].bound {
      OrphanStaysOrphaned(states, outs, i, j, id);
    }
  }

  // ---- Indexes over every run of operations --------------------------------------------------

  datatype Operation =
    | DoInsert(anchor: Anchor)
    | DoRebind(id: DurableId, path: string, hash: ContentHash, rev: Revision)
    | DoRetire(id: DurableId, rev: Revision)
    | DoSetStatus(id: DurableId, status: Status)
    | DoReconcile(call: Call)

  ghost function Perform(reg: Registry, op: Operation): Registry {
    match op
    case DoInsert(a) => Inserted(reg, a)
    case DoRebind(id, path, hash, rev) => Rebound(reg, id, path, hash, rev)
    case DoRetire(id, rev) => Retired(reg, id, rev)
    case DoSetStatus(id, status) => WithStatus(reg, id, status)
    case DoReconcile(call) => Run(reg, call).registry
  }

  ghost function PerformAll(reg: Registry, ops: seq<Operation>): Registry {
    if ops == [] then reg else Perform(PerformAll(reg, ops[..|ops| - 1]), ops[|ops| - 1])
  }

  /** Whatever sequence of operations a registry goes through, every anchor is listed
      exactly once under its current hash and every path entry is sound. */
  lemma {:induction false} IndexesHoldOverEveryRun(ops: seq<Operation>)
    ensures Indexed(PerformAll(EMPTY, ops))
  {
    if ops != [] {
      var prefix := ops[..|ops| - 1];
      IndexesHoldOverEveryRun(prefix);
      PerformKeepsIndexes(PerformAll(EMPTY, prefix), ops[|ops| - 1]);
    }
  }

  lemma PerformKeepsIndexes(reg: Registry, op: Operation)
    requires Indexed(reg)
    ensures Indexed(Perform(reg, op))
  {
    match op
    case DoInsert(a) => InsertedKeepsIndexes(reg, a);
    case DoRebind(id, path, hash, rev) =>
      if id in reg.byId {
        InsertedKeepsIndexes(reg, reg.byId[id].(path := path, hash := hash, lastSeen := rev));
      }
    case DoRetire(id, rev) => RetiredKeepsIndexes(reg, id, rev);
    case DoSetStatus(id, status) => StatusKeepsIndexes(reg, id, status);
    case DoReconcile(c) => ReconciledKeepsIndexes(reg, c.entities, c.rev, c.scope, c.supply);
  }

  // ---- A path entry lost to a returning orphan ---------------------------------------------------

  const ORPHAN := Anchor("o", "f::a", 1, Function, 0, 0, Orphaned)
  const LOSSY := Registry(map["o" := ORPHAN], map[], map[1 := ["o"]])
  const ARRIVAL := Entity("f::a", "f", "a", Function, None, 2)
  const RETURNED := Entity("f::b", "f", "b", Function, None, 1)

  lemma LossyIsExact()
    ensures Indexed(LOSSY) && PathExact(LOSSY) && DistinctPaths([ARRIVAL, RETURNED])
  {
    assert ARRIVAL.path[3] != RETURNED.path[3];
    forall h, id
      ensures Listed(LOSSY, h, id) == if id in LOSSY.byId && LOSSY.byId[id].hash == h then 1 else 0
    {
      assert ListAt(LOSSY.byHash, h) == if h == 1 then ["o"] else [];
    }
  }

  lemma LossyHashPass(inp: Input)
    requires inp.reg == LOSSY && inp.es == [ARRIVAL, RETURNED] && inp.scope == None
    ensures 1 in AfterHash(inp).matched && inp.es[1].path in AfterHash(inp).byPath
    ensures AfterHash(inp).byPath[inp.es[1].path].id == "o"
  {
    var e0 := RunPass(ExactPass, inp, 1, START);
    assert RunPass(ExactPass, inp, 0, START) == START;
    assert e0 == START;
    assert AfterExact(inp) == START;
    assert RunPass(HashPass, inp, 0, START) == START;
    assert HashCandidates(inp, ARRIVAL, {}) == map[];
    assert RunPass(HashPass, inp, 1, START) == START;
    assert "o" in HashCandidates(inp, RETURNED, {}) by {
      assert HashCandidate(inp, RETURNED, {}, "o");
      assert RETURNED.path[3] != ORPHAN.path[3];
    }
    assert Closest(HashCandidates(inp, RETURNED, {})) == "o";
  }

  /** A concrete loss: an orphan whose body reappears at `f::b`, while a new body has
      taken its old path `f::a`, erases the entry that was just written for `f::a`. */
  lemma ReturningOrphanLosesPath(rev: Revision, supply: nat -> DurableId)
    requires Fresh(supply, LOSSY)
    ensures !PathExact(Reconciled(LOSSY, [ARRIVAL, RETURNED], rev, None, supply).registry)
  {
    var es := [ARRIVAL, RETURNED];
    var inp := Input(LOSSY, Sorted(es), None, supply);
    LossyIsExact();
    assert Less("f::a", "f::b") by {
      assert "f::a"[1..] == "::a" && "f::b"[1..] == "::b" && "::a"[1..] == ":a" && "::b"[1..] == ":b";
      assert ":a"[1..] == "a" && ":b"[1..] == "b";
      assert Less("a", "b") && Less(":a", ":b") && Less("::a", "::b");
    }
    assert PathAscending(es);
    InputUsable(LOSSY, es, None, supply);
    AscendingEntitiesAgree(Sorted(es), es);
    LossyHashPass(inp);
    PassKeepsConsistent(ExactPass, inp, 2, START);
    PassKeepsConsistent(HashPass, inp, 2, AfterExact(inp));
    PassKeepsConsistent(StructPass, inp, 2, AfterHash(inp));
    PassKeepsConsistent(MintPass, inp, 2, AfterStruct(inp));
    assert BindingAt(inp, 1).id == "o";
    assert Vacates(inp, 1, inp.es[0].path);
    PathIndexExactIff(LOSSY, es, rev, None, supply);
  }

  // ---- Saving and loading ------------------------------------------------------------------------

  /** The anchors of `reg` in ascending order of id. */
  ghost predicate IsSaved(s: seq<Anchor>, reg: Registry) {
    && IdAscending(s)
    && (forall a :: a in s ==> a.id in reg.byId && reg.byId[a.id] == a)
    && (forall id :: id in reg.byId ==> reg.byId[id] in s)
  }

  ghost function Loaded(s: seq<Anchor>): Registry {
    if s == [] then EMPTY else Inserted(Loaded(s[..|s| - 1]), s[|s| - 1])
  }

  method ListIds(registry: IdentityRegistry) returns (ids: seq<DurableId>)
    ensures Distinct(ids) && forall id :: id in ids <==> id in registry.byId
  {
    ids := [];
    var rest := registry.byId.Keys;
    while rest != {}
      invariant rest <= registry.byId.Keys
      invariant Distinct(ids) && forall id :: id in ids <==> id in registry.byId && id !in rest
      decreases |rest|
    {
      var id :| id in rest;
      rest := rest - {id};
      ids := ids + [id];
    }
  }

  lemma ListedIsSaved(reg: Registry, sorted: seq<DurableId>, s: seq<Anchor>)
    requires Indexed(reg) && Ascending(sorted) && (forall id :: id in sorted <==> id in reg.byId) && |s| == |sorted|
    requires forall k :: 0 <= k < |s| ==> sorted[k] in reg.byId && s[k] == reg.byId[sorted[k]]
    ensures IsSaved(s, reg)
  {
    forall id | id in reg.byId
      ensures reg.byId[id] in s
    {
      var k :| 0 <= k < |sorted| && sorted[k] == id;
      assert s[k] == reg.byId[id];
    }
  }

  method Save(registry: IdentityRegistry) returns (s: seq<Anchor>)
    requires registry.Valid()
    ensures IsSaved(s, registry.State())
  {
    var ids := ListIds(registry);
    var sorted := Sort(ids, Less);
    SortAscends(ids);
    s := [];
    for i := 0 to |sorted|
      invariant |s| == i && forall k :: 0 <= k < i ==> sorted[k] in registry.byId && s[k] == registry.byId[sorted[k]]
    {
      assert sorted[i] in sorted;
      s := s + [registry.byId[sorted[i]]];
    }
    ListedIsSaved(registry.State(), sorted, s);
  }

  method Load(s: seq<Anchor>) returns (registry: IdentityRegistry)
    ensures fresh(registry) && registry.Valid() && registry.State() == Loaded(s)
  {
    registry := new IdentityRegistry();
    for i := 0 to |s|
      invariant fresh(registry) && registry.Valid() && registry.State() == Loaded(s[..i])
    {
      assert s[..i + 1][..i] == s[..i];
      registry.Insert(s[i]);
    }
    assert s[..|s|] == s;
  }

  ghost predicate StoresPath(reg: Registry, id: DurableId, p: string) {
    id in reg.byId && reg.byId[id].path == p
  }

  ghost predicate GreatestAt(reg: Registry, id: DurableId, p: string) {
    StoresPath(reg, id, p) && forall x :: StoresPath(reg, x, p) ==> AtMost(x, id)
  }

  lemma {:induction false} LoadedIndexed(s: seq<Anchor>)
    ensures Indexed(Loaded(s))
  {
    if s != [] {
      LoadedIndexed(s[..|s| - 1]);
      InsertedKeepsIndexes(Loaded(s[..|s| - 1]), s[|s| - 1]);
    }
  }

  ghost predicate IdAscending(s: seq<Anchor>) {
    forall i, j :: 0 <= i < j < |s| ==> Less(s[i].id, s[j].id)
  }

  ghost predicate LoadedFrom(s: seq<Anchor>, r: Registry) {
    && (forall a :: a in s ==> a.id in r.byId && r.byId[a.id] == a)
    && (forall id :: id in r.byId ==> r.byId[id] in s && r.byId[id].id == id)
  }

  lemma {:induction false} LoadedAnchors(s: seq<Anchor>)
    requires IdAscending(s)
    ensures LoadedFrom(s, Loaded(s))
  {
    if s != [] {
      var n := |s| - 1;
      LoadedAnchors(s[..n]);
      LessIrreflexive(s[n].id);
      assert forall a :: a in s <==> a in s[..n] || a == s[n];
    }
  }

  /** The path index after loading: the last, and so the greatest, id with each path. */
  lemma {:induction false} LoadedPaths(s: seq<Anchor>, p: string)
    requires IdAscending(s)
    ensures p in Loaded(s).byPath ==> GreatestAt(Loaded(s), Loaded(s).byPath[p], p)
    ensures p !in Loaded(s).byPath ==> forall x :: !StoresPath(Loaded(s), x, p)
  {
    if s != [] {
      var n := |s| - 1;
      var r, last := Loaded(s[..n]), s[n];
      LoadedPaths(s[..n], p);
      LoadedAnchors(s[..n]);
      LessIrreflexive(last.id);
      assert last.id !in r.byId;
      forall x | StoresPath(Loaded(s), x, p)
        ensures AtMost(x, last.id) && (x == last.id || StoresPath(r, x, p))
      {
        if x != last.id {
          assert r.byId[x] in s[..n];
        }
      }
    }
  }

  /** Loading what was saved restores every anchor and its hash listing; the path index
      then names, for each stored path, the greatest id that stores it, orphaned or not. */
  lemma LoadRestores(reg: Registry, s: seq<Anchor>)
    requires Indexed(reg) && IsSaved(s, reg)
    ensures Loaded(s).byId == reg.byId
    ensures forall h, id :: Listed(Loaded(s), h, id) == Listed(reg, h, id)
    ensures forall p :: p in Loaded(s).byPath ==> GreatestAt(reg, Loaded(s).byPath[p], p)
    ensures forall p :: p !in Loaded(s).byPath ==> forall id :: !StoresPath(reg, id, p)
  {
    LoadedAnchors(s);
    assert Loaded(s).byId == reg.byId;
    LoadedIndexed(s);
    forall h, id
      ensures Listed(Loaded(s), h, id) == Listed(reg, h, id)
    {
      SameListing(reg, Loaded(s), h, id);
    }
    forall p
      ensures p in Loaded(s).byPath ==> GreatestAt(reg, Loaded(s).byPath[p], p)
      ensures p !in Loaded(s).byPath ==> forall id :: !StoresPath(reg, id, p)
    {
      LoadedPaths(s, p);
      assert forall x :: StoresPath(reg, x, p) <==> StoresPath(Loaded(s), x, p);
    }
  }

  lemma SameListing(a: Registry, b: Registry, h: ContentHash, id: DurableId)
    requires Indexed(a) && Indexed(b) && a.byId == b.byId
    ensures Listed(a, h, id) == Listed(b, h, id)
  {
    assert Listed(a, h, id) == if id in a.byId && a.byId[id].hash == h then 1 else 0;
  }

  /** Some live anchor with a greater id stores the orphan's path. */
  ghost predicate Shadowed(reg: Registry, id: DurableId)
    requires id in reg.byId
  {
    exists x :: Live(reg, x) && StoresPath(reg, x, reg.byId[id].path) && Less(id, x)
  }

  /** A reload keeps the path index exact if and only if every orphan's stored path is
      also stored by a live anchor with a greater id. */
  lemma ReloadExactIff(reg: Registry, s: seq<Anchor>)
    requires Indexed(reg) && PathExact(reg) && IsSaved(s, reg)
    ensures PathExact(Loaded(s)) <==> forall id :: id in reg.byId && !Live(reg, id) ==> Shadowed(reg, id)
  {
    LoadRestores(reg, s);
    var r := Loaded(s);
    forall id | id in reg.byId
      ensures reg.byId[id].path in r.byPath && GreatestAt(reg, r.byPath[reg.byId[id].path], reg.byId[id].path)
    {
      assert StoresPath(reg, id, reg.byId[id].path);
    }
    if PathExact(r) {
      forall id | id in reg.byId && !Live(reg, id)
        ensures Shadowed(reg, id)
      {
        ExactReloadShadows(reg, r, id);
      }
    }
    if forall id :: id in reg.byId && !Live(reg, id) ==> Shadowed(reg, id) {
      forall id | id in r.byId
        ensures Live(r, id) <==> r.byPath[r.byId[id].path] == id
      {
        ShadowedReloadIsExact(reg, id, r.byPath[reg.byId[id].path]);
      }
    }
  }

  /** A lone orphan: its path is not listed before the save, and is after the load. */
  lemma ReloadListsOrphan()
    ensures PathExact(LOSSY) && IsSaved([ORPHAN], LOSSY) && !PathExact(Loaded([ORPHAN]))
  {
    LossyIsExact();
    ReloadExactIff(LOSSY, [ORPHAN]);
    assert forall x :: !Live(LOSSY, x);
    assert "o" in LOSSY.byId && !Live(LOSSY, "o");
  }

  lemma ExactReloadShadows(reg: Registry, r: Registry, id: DurableId)
    requires r.byId == reg.byId && PathExact(r) && id in reg.byId && !Live(reg, id)
    requires reg.byId[id].path in r.byPath && GreatestAt(reg, r.byPath[reg.byId[id].path], reg.byId[id].path)
    ensures Shadowed(reg, id)
  {
    var p := reg.byId[id].path;
    var x := r.byPath[p];
    assert StoresPath(reg, id, p) && StoresPath(reg, x, p);
    assert x in r.byId && Live(r, x);
    assert Live(reg, x) && Less(id, x);
  }

  lemma ShadowedReloadIsExact(reg: Registry, id: DurableId, top: DurableId)
    requires PathExact(reg) && id in reg.byId && GreatestAt(reg, top, reg.byId[id].path)
    requires !Live(reg, top) ==> Shadowed(reg, top)
    ensures Live(reg, id) <==> top == id
  {
    if !Live(reg, top) {
      var y :| Live(reg, y) && StoresPath(reg, y, reg.byId[top].path) && Less(top, y);
      assert AtMost(y, top);
      LessAsymmetric(top, y);
      LessIrreflexive(top);
    }
  }
}
