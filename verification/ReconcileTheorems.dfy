/** What one reconciliation guarantees: its bindings, the anchors it leaves, and when the
    path index stays exact. */
module ReconcileTheorems {
  import opened Wrappers
  import opened Orders
  import opened Identity
  import opened Matching
  import opened Reconcile
  import opened AppliedFacts
  import EditDistance

  // ---- Sorting the entities ------------------------------------------------------

  ghost predicate PathAscending(es: seq<Entity>) {
    forall i, j :: 0 <= i < j < |es| ==> Less(es[i].path, es[j].path)
  }

  lemma {:induction false} PlaceEntity(e: Entity, s: seq<Entity>)
    requires PathAscending(s) && forall k :: 0 <= k < |s| ==> s[k].path != e.path
    ensures PathAscending(Place(e, s, EntityBefore))
    ensures forall x :: x in Place(e, s, EntityBefore) <==> x == e || x in s
  {
    var r := Place(e, s, EntityBefore);
    if s != [] {
      if EntityBefore(s[0], e) {
        PlaceEntity(e, s[1..]);
        assert forall x :: x in s <==> x == s[0] || x in s[1..];
        forall i, j | 0 <= i < j < |r|
          ensures Less(r[i].path, r[j].path)
        {
          if i == 0 {
            assert r[j] in Place(e, s[1..], EntityBefore);
          }
        }
      } else {
        LessTotal(s[0].path, e.path);
        forall i, j | 0 <= i < j < |r|
          ensures Less(r[i].path, r[j].path)
        {
          if i == 0 && j > 1 {
            LessTransitive(e.path, s[0].path, s[j - 1].path);
          }
        }
      }
    }
  }

  lemma {:induction false} SortedAscends(entities: seq<Entity>)
    requires DistinctPaths(entities)
    ensures PathAscending(Sorted(entities))
    ensures forall x :: x in Sorted(entities) <==> x in entities
  {
    if entities != [] {
      var rest := Sorted(entities[1..]);
      SortedAscends(entities[1..]);
      forall k | 0 <= k < |rest|
        ensures rest[k].path != entities[0].path
      {
        assert rest[k] in entities[1..];
      }
      PlaceEntity(entities[0], rest);
    }
  }

  lemma AscendingIsDistinct(es: seq<Entity>)
    requires PathAscending(es)
    ensures DistinctPaths(es)
  {
    forall i, j | 0 <= i < j < |es|
      ensures es[i].path != es[j].path
    {
      LessIrreflexive(es[i].path);
    }
  }

  ghost predicate Reconcilable(reg: Registry, entities: seq<Entity>, supply: nat -> DurableId) {
    Indexed(reg) && DistinctPaths(entities) && Fresh(supply, reg)
  }

  lemma InputUsable(reg: Registry, entities: seq<Entity>, scope: Option<set<string>>, supply: nat -> DurableId)
    requires Reconcilable(reg, entities, supply)
    ensures Usable(Input(reg, Sorted(entities), scope, supply))
    ensures PathAscending(Sorted(entities)) && forall x :: x in Sorted(entities) <==> x in entities
  {
    SortedAscends(entities);
    AscendingIsDistinct(Sorted(entities));
  }

  // ---- The final anchors --------------------------------------------------------------

  ghost function Final(inp: Input, rev: Revision): Registry
    requires Usable(inp)
  {
    EveryEntityBound(inp);
    var r := Bound(inp, rev);
    RetiredAll(r, Vanished(r, Matched(inp).bound, inp.scope), rev)
  }

  ghost predicate Retires(inp: Input, id: DurableId)
    requires Usable(inp)
  {
    Live(inp.reg, id) && id !in Matched(inp).bound && AnchorInScope(inp.reg, id, inp.scope)
  }

  /** The final anchor of a bound id. */
  lemma FinalBound(inp: Input, rev: Revision, i: nat)
    requires Usable(inp) && i < |inp.es|
    ensures BindingAt(inp, i).id in Final(inp, rev).byId
    ensures Final(inp, rev).byId[BindingAt(inp, i).id] ==
              NewAnchor(inp, i, rev).(status := if Flagged(BindingAt(inp, i), inp.es[i]) then NeedsReview else Active)
  {
    var id := BindingAt(inp, i).id;
    BindingFacts(inp, i);
    AppliedAnchors(inp, rev, |inp.es|, id);
  }

  /** The final anchor of any other id: untouched, or orphaned if it vanished. */
  lemma FinalUnbound(inp: Input, rev: Revision, id: DurableId)
    requires Usable(inp) && id !in Matched(inp).bound
    ensures id in Final(inp, rev).byId <==> id in inp.reg.byId
    ensures id in inp.reg.byId ==>
              Final(inp, rev).byId[id] ==
                (if Retires(inp, id) then inp.reg.byId[id].(lastSeen := rev, status := Orphaned) else inp.reg.byId[id])
    ensures EveryBound(inp) && (id in Vanished(Bound(inp, rev), Matched(inp).bound, inp.scope) <==> Retires(inp, id))
  {
    BoundIsTouched(inp, id);
    AppliedAnchors(inp, rev, |inp.es|, id);
    EveryEntityBound(inp);
  }

  ghost predicate EveryBound(inp: Input) {
    AllBound(inp.es, Matched(inp))
  }

  // ---- The bindings, listed -------------------------------------------------------------

  /** The list of bindings is the map of bindings, each path once. */
  ghost predicate Logs(m: Progress) {
    && |m.bindings| == |m.matched|
    && (forall k :: 0 <= k < |m.bindings| ==> m.bindings[k].0 in m.byPath && m.byPath[m.bindings[k].0] == m.bindings[k].1)
    && (forall j, k :: 0 <= j < k < |m.bindings| ==> m.bindings[j].0 != m.bindings[k].0)
    && (forall p :: p in m.byPath ==> exists k :: 0 <= k < |m.bindings| && m.bindings[k].0 == p)
  }

  lemma RecordKeepsEntries(m: Progress, i: nat, e: Entity, b: Binding, p: string)
    requires Logs(m) && p in Record(m, i, e, b).byPath
    ensures var m' := Record(m, i, e, b); exists k :: 0 <= k < |m'.bindings| && m'.bindings[k].0 == p
  {
    var m' := Record(m, i, e, b);
    if p == e.path {
      assert m'.bindings[|m.bindings|].0 == p;
    } else {
      var k :| 0 <= k < |m.bindings| && m.bindings[k].0 == p;
      assert m'.bindings[k].0 == p;
    }
  }

  lemma RecordKeepsDistinct(m: Progress, i: nat, e: Entity, b: Binding)
    requires Logs(m) && i !in m.matched && e.path !in m.byPath
    ensures var m' := Record(m, i, e, b);
            && |m'.bindings| == |m'.matched|
            && (forall k :: 0 <= k < |m'.bindings| ==> m'.bindings[k].0 in m'.byPath && m'.byPath[m'.bindings[k].0] == m'.bindings[k].1)
            && (forall j, k :: 0 <= j < k < |m'.bindings| ==> m'.bindings[j].0 != m'.bindings[k].0)
  {
  }

  lemma RecordKeepsLog(m: Progress, i: nat, e: Entity, b: Binding)
    requires Logs(m) && i !in m.matched && e.path !in m.byPath
    ensures Logs(Record(m, i, e, b))
  {
    RecordKeepsDistinct(m, i, e, b);
    forall p | p in Record(m, i, e, b).byPath
      ensures exists k :: 0 <= k < |Record(m, i, e, b).bindings| && Record(m, i, e, b).bindings[k].0 == p
    {
      RecordKeepsEntries(m, i, e, b, p);
    }
  }

  lemma StepKeepsLog(pass: Pass, inp: Input, i: nat, m: Progress)
    requires Logs(m) && i < |inp.es| && (i in m.matched || inp.es[i].path !in m.byPath)
    ensures Logs(Step(pass, inp, i, m))
  {
    if i !in m.matched && Offer(pass, inp, inp.es[i], m).Some? {
      RecordKeepsLog(m, i, inp.es[i], Offer(pass, inp, inp.es[i], m).value);
    }
  }

  lemma PassKeepsLog(pass: Pass, inp: Input, n: nat, m: Progress)
    requires Usable(inp) && n <= |inp.es| && Consistent(inp, m) && Logs(m)
    ensures Logs(RunPass(pass, inp, n, m))
  {
    var keeps := (p: Progress) => Consistent(inp, p) && Logs(p);
    forall i: nat, p | i < |inp.es| && keeps(p)
      ensures keeps(Step(pass, inp, i, p))
    {
      StepKeepsConsistent(pass, inp, i, p);
      assert Has(inp, p, i) ==> i in p.matched;
      StepKeepsLog(pass, inp, i, p);
    }
    PassInduction(pass, inp, n, m, keeps);
  }

  lemma PassesLog(inp: Input)
    requires Usable(inp)
    ensures Logs(Matched(inp))
  {
    var n := |inp.es|;
    PassKeepsConsistent(ExactPass, inp, n, START);
    PassKeepsConsistent(HashPass, inp, n, AfterExact(inp));
    PassKeepsConsistent(StructPass, inp, n, AfterHash(inp));
    PassKeepsLog(ExactPass, inp, n, START);
    PassKeepsLog(HashPass, inp, n, AfterExact(inp));
    PassKeepsLog(StructPass, inp, n, AfterHash(inp));
    PassKeepsLog(MintPass, inp, n, AfterStruct(inp));
  }

  ghost function Below(n: nat): (s: set<nat>)
    ensures |s| == n && forall i: nat :: i in s <==> i < n
  {
    if n == 0 then {} else Below(n - 1) + {n - 1}
  }

  lemma MatchedLogs(inp: Input)
    requires Usable(inp)
    ensures Logs(Matched(inp)) && |Matched(inp).bindings| == |inp.es|
  {
    PassesLog(inp);
    MatchingIsComplete(inp);
    assert forall i :: i in Matched(inp).matched ==> Has(inp, Matched(inp), i);
    assert Matched(inp).matched == Below(|inp.es|);
  }

  /** A listed binding is the binding of the entity at its path. */
  lemma ListedBinding(inp: Input, k: nat) returns (i: nat)
    requires Usable(inp) && k < |Matched(inp).bindings|
    ensures i < |inp.es| && inp.es[i].path == Matched(inp).bindings[k].0
    ensures BindingAt(inp, i) == Matched(inp).bindings[k].1
  {
    MatchedLogs(inp);
    MatchingIsComplete(inp);
    PathsAreEntities(inp, Matched(inp).bindings[k].0);
    i :| 0 <= i < |inp.es| && inp.es[i].path == Matched(inp).bindings[k].0;
  }

  lemma PathsAreEntities(inp: Input, p: string)
    requires Usable(inp) && p in Matched(inp).byPath
    ensures exists i: nat :: i < |inp.es| && inp.es[i].path == p
  {
    PassPathsAreEntities(ExactPass, inp, |inp.es|, START);
    PassPathsAreEntities(HashPass, inp, |inp.es|, AfterExact(inp));
    PassPathsAreEntities(StructPass, inp, |inp.es|, AfterHash(inp));
    PassPathsAreEntities(MintPass, inp, |inp.es|, AfterStruct(inp));
  }

  ghost predicate KeyedByEntities(inp: Input, m: Progress) {
    forall p :: p in m.byPath ==> exists i: nat :: i < |inp.es| && inp.es[i].path == p
  }

  lemma {:induction false} PassPathsAreEntities(pass: Pass, inp: Input, n: nat, m: Progress)
    requires n <= |inp.es| && KeyedByEntities(inp, m)
    ensures KeyedByEntities(inp, RunPass(pass, inp, n, m))
  {
    if n > 0 {
      PassPathsAreEntities(pass, inp, n - 1, m);
    }
  }

  // ---- Post-state ------------------------------------------------------------------------

  /** Reconciliation with distinct entity paths gives every entity exactly one binding
      and every binding an id of its own, and leaves the bound anchor with its entity's
      path, hash and revision. */
  lemma ReconcileBindings(reg: Registry, entities: seq<Entity>, rev: Revision,
                          scope: Option<set<string>>, supply: nat -> DurableId)
    requires Reconcilable(reg, entities, supply)
    ensures var o := Reconciled(reg, entities, rev, scope, supply);
            && |o.bindings| == |entities|
            && (forall j, k :: 0 <= j < k < |o.bindings| ==>
                  o.bindings[j].0 != o.bindings[k].0 && o.bindings[j].1.id != o.bindings[k].1.id)
            && (forall id :: id in o.bound <==> exists k :: 0 <= k < |o.bindings| && o.bindings[k].1.id == id)
            && (forall e :: e in entities ==> exists k :: 0 <= k < |o.bindings| && Settled(o, k, e, rev))
  {
    var inp := Input(reg, Sorted(entities), scope, supply);
    var o := Reconciled(reg, entities, rev, scope, supply);
    InputUsable(reg, entities, scope, supply);
    MatchedLogs(inp);
    forall j, k | 0 <= j < k < |o.bindings|
      ensures o.bindings[j].1.id != o.bindings[k].1.id
    {
      var a := ListedBinding(inp, j);
      var b := ListedBinding(inp, k);
      BindingFacts(inp, a);
    }
    forall id
      ensures id in o.bound <==> exists k :: 0 <= k < |o.bindings| && o.bindings[k].1.id == id
    {
      BoundIsListed(inp, id);
    }
    forall e | e in entities
      ensures exists k :: 0 <= k < |o.bindings| && Settled(o, k, e, rev)
    {
      var i: nat :| i < |inp.es| && inp.es[i] == e;
      EntityIsSettled(inp, rev, i, o);
    }
  }

  /** No id leaves the registry, only bound ids join it, exactly the live, in-scope,
      unbound anchors are retired, and every other unbound anchor is unchanged. */
  lemma ReconcileAnchors(reg: Registry, entities: seq<Entity>, rev: Revision,
                         scope: Option<set<string>>, supply: nat -> DurableId)
    requires Reconcilable(reg, entities, supply)
    ensures var o := Reconciled(reg, entities, rev, scope, supply);
            && o.registry.byId.Keys == reg.byId.Keys + o.bound
            && (forall id :: id in o.retired <==> Live(reg, id) && id !in o.bound && AnchorInScope(reg, id, scope))
            && (forall id :: id in reg.byId && id !in o.bound ==>
                  o.registry.byId[id] ==
                    (if id in o.retired then reg.byId[id].(lastSeen := rev, status := Orphaned) else reg.byId[id]))
  {
    var inp := Input(reg, Sorted(entities), scope, supply);
    var o := Reconciled(reg, entities, rev, scope, supply);
    InputUsable(reg, entities, scope, supply);
    forall id
      ensures id in o.registry.byId <==> id in reg.byId || id in o.bound
      ensures id in o.retired <==> Live(reg, id) && id !in o.bound && AnchorInScope(reg, id, scope)
      ensures id in reg.byId && id !in o.bound ==>
                o.registry.byId[id] ==
                  (if id in o.retired then reg.byId[id].(lastSeen := rev, status := Orphaned) else reg.byId[id])
    {
      if id in o.bound {
        BoundIsTouched(inp, id);
        var i: nat :| i < |inp.es| && BindingAt(inp, i).id == id;
        FinalBound(inp, rev, i);
      } else {
        FinalUnbound(inp, rev, id);
      }
    }
  }

  /** Binding `k` is `e`'s, and its anchor carries `e`'s facts at `rev`. */
  ghost predicate Settled(o: Outcome, k: nat, e: Entity, rev: Revision) {
    && k < |o.bindings| && o.bindings[k].0 == e.path
    && o.bindings[k].1.id in o.registry.byId
    && var a := o.registry.byId[o.bindings[k].1.id];
       && a.path == e.path && a.hash == e.hash && a.lastSeen == rev
       && a.status == if o.bindings[k].1.id in o.review then NeedsReview else Active
  }

  lemma ListedIsTouched(inp: Input, k: nat)
    requires Usable(inp) && k < |Matched(inp).bindings|
    ensures TouchedBy(inp, |inp.es|, Matched(inp).bindings[k].1.id)
  {
    MatchedLogs(inp);
    var i := ListedBinding(inp, k);
  }

  lemma TouchedIsListed(inp: Input, i: nat) returns (k: nat)
    requires Usable(inp) && i < |inp.es|
    ensures k < |Matched(inp).bindings| && Matched(inp).bindings[k].1.id == BindingAt(inp, i).id
  {
    MatchedLogs(inp);
    BindingFacts(inp, i);
    k :| 0 <= k < |Matched(inp).bindings| && Matched(inp).bindings[k].0 == inp.es[i].path;
  }

  lemma BoundIsListed(inp: Input, id: DurableId)
    requires Usable(inp)
    ensures var bs := Matched(inp).bindings;
            id in Matched(inp).bound <==> exists k :: 0 <= k < |bs| && bs[k].1.id == id
  {
    var bs := Matched(inp).bindings;
    BoundIsTouched(inp, id);
    if k :| 0 <= k < |bs| && bs[k].1.id == id {
      ListedIsTouched(inp, k);
    }
    if id in Matched(inp).bound {
      var i: nat :| i < |inp.es| && BindingAt(inp, i).id == id;
      var k := TouchedIsListed(inp, i);
    }
  }

  lemma EntityIsSettled(inp: Input, rev: Revision, i: nat, o: Outcome)
    requires Usable(inp) && i < |inp.es|
    requires o.registry == Final(inp, rev) && o.bindings == Matched(inp).bindings && o.review == Matched(inp).review
    ensures exists k :: 0 <= k < |o.bindings| && Settled(o, k, inp.es[i], rev)
  {
    MatchedLogs(inp);
    BindingFacts(inp, i);
    FinalBound(inp, rev, i);
    var k :| 0 <= k < |o.bindings| && o.bindings[k].0 == inp.es[i].path;
    assert Settled(o, k, inp.es[i], rev);
  }

  /** After an unscoped pass the live anchors are exactly the bound ids. */
  lemma UnscopedLiveIsBound(reg: Registry, entities: seq<Entity>, rev: Revision, supply: nat -> DurableId,
                            id: DurableId)
    requires Reconcilable(reg, entities, supply)
    ensures var o := Reconciled(reg, entities, rev, None, supply);
            Live(o.registry, id) <==> id in o.bound
  {
    var inp := Input(reg, Sorted(entities), None, supply);
    InputUsable(reg, entities, None, supply);
    if id in Matched(inp).bound {
      BoundIsTouched(inp, id);
      var i: nat :| i < |inp.es| && BindingAt(inp, i).id == id;
      FinalBound(inp, rev, i);
    } else {
      FinalUnbound(inp, rev, id);
    }
  }

  // ---- The path index: exactly the live anchors -----------------------------------------

  /** Some anchor is bound to a later entity than one that now occupies its stored path:
      rebinding it would erase the entry just written for that path. */
  ghost predicate Clobbers(inp: Input)
    requires Usable(inp)
  {
    exists i: nat, j: nat :: i < j < |inp.es| && Vacates(inp, j, inp.es[i].path)
  }

  lemma ClobbererIsOrphan(inp: Input, i: nat, j: nat)
    requires Usable(inp) && PathExact(inp.reg) && i < j < |inp.es| && Vacates(inp, j, inp.es[i].path)
    ensures inp.reg.byId[BindingAt(inp, j).id].status == Orphaned
  {
    BindingFacts(inp, i);
    BindingFacts(inp, j);
  }

  lemma FinalPathOfBound(inp: Input, rev: Revision, i: nat)
    requires Usable(inp) && PathExact(inp.reg) && i < |inp.es|
    ensures var p := inp.es[i].path; var r := Final(inp, rev);
            (p in r.byPath && r.byPath[p] == BindingAt(inp, i).id) <==> !Cleared(inp, p, i + 1, |inp.es|)
  {
    var p := inp.es[i].path;
    BindingFacts(inp, i);
    AppliedEntityPath(inp, rev, |inp.es|, i);
    EveryEntityBound(inp);
    var gone := Vanished(Bound(inp, rev), Matched(inp).bound, inp.scope);
    forall id | id in gone
      ensures id in Bound(inp, rev).byId && Bound(inp, rev).byId[id].path != p
    {
      FinalUnbound(inp, rev, id);
    }
  }

  lemma FinalPathOfUnbound(inp: Input, rev: Revision, id: DurableId)
    requires Usable(inp) && PathExact(inp.reg) && id in inp.reg.byId && id !in Matched(inp).bound
    ensures var p := inp.reg.byId[id].path; var r := Final(inp, rev);
            (p in r.byPath && r.byPath[p] == id) <==> Live(r, id)
  {
    var p, r := inp.reg.byId[id].path, Final(inp, rev);
    EveryEntityBound(inp);
    FinalUnbound(inp, rev, id);
    if EntityAt(inp, p, |inp.es|) {
      var i: nat :| i < |inp.es| && inp.es[i].path == p;
      BindingFacts(inp, i);
      AppliedEntityPath(inp, rev, |inp.es|, i);
      assert Bound(inp, rev).byPath == After(inp, rev, |inp.es|).byPath;
    } else {
      AppliedOtherPath(inp, rev, |inp.es|, p);
      if Live(inp.reg, id) && !AnchorInScope(inp.reg, id, inp.scope) {
        OutOfScopePathStays(inp, p);
        KeptPathSurvives(inp, rev, id);
      }
    }
  }

  /** No binding moves an anchor away from a path that is out of scope and unoccupied. */
  lemma OutOfScopePathStays(inp: Input, p: string)
    requires Usable(inp) && !EntityAt(inp, p, |inp.es|)
    requires inp.scope.Some? && !(AnchorFile(p).Some? && AnchorFile(p).value in inp.scope.value)
    ensures !Cleared(inp, p, 0, |inp.es|)
  {
    forall j: nat | j < |inp.es|
      ensures !Vacates(inp, j, p)
    {
      BindingFacts(inp, j);
    }
  }

  lemma KeptPathSurvives(inp: Input, rev: Revision, id: DurableId)
    requires Usable(inp) && id in inp.reg.byId && id !in Matched(inp).bound
    requires !AnchorInScope(inp.reg, id, inp.scope)
    requires inp.reg.byId[id].path in After(inp, rev, |inp.es|).byPath
    ensures inp.reg.byId[id].path in Final(inp, rev).byPath
    ensures Final(inp, rev).byPath[inp.reg.byId[id].path] == After(inp, rev, |inp.es|).byPath[inp.reg.byId[id].path]
  {
    var p := inp.reg.byId[id].path;
    EveryEntityBound(inp);
    var gone := Vanished(Bound(inp, rev), Matched(inp).bound, inp.scope);
    forall x | x in gone
      ensures x in Bound(inp, rev).byId && Bound(inp, rev).byId[x].path != p
    {
      FinalUnbound(inp, rev, x);
    }
  }

  /** If the path index lists exactly the live anchors before a reconcile, it does so
      afterwards if and only if no anchor is bound past an entity at its stored path;
      such an anchor is always an orphan. */
  lemma PathIndexExactIff(reg: Registry, entities: seq<Entity>, rev: Revision,
                          scope: Option<set<string>>, supply: nat -> DurableId)
    requires Reconcilable(reg, entities, supply) && PathExact(reg)
    ensures var inp := Input(reg, Sorted(entities), scope, supply);
            && Usable(inp)
            && (PathExact(Reconciled(reg, entities, rev, scope, supply).registry) <==> !Clobbers(inp))
            && (forall i: nat, j: nat :: i < j < |inp.es| && Vacates(inp, j, inp.es[i].path) ==>
                  reg.byId[BindingAt(inp, j).id].status == Orphaned)
  {
    var inp := Input(reg, Sorted(entities), scope, supply);
    InputUsable(reg, entities, scope, supply);
    forall i: nat, j: nat | i < j < |inp.es| && Vacates(inp, j, inp.es[i].path)
      ensures reg.byId[BindingAt(inp, j).id].status == Orphaned
    {
      ClobbererIsOrphan(inp, i, j);
    }
    if Clobbers(inp) {
      ClobberBreaksExactness(inp, rev);
    } else {
      NoClobberKeepsExactness(inp, rev);
    }
  }

  lemma ClobberBreaksExactness(inp: Input, rev: Revision)
    requires Usable(inp) && PathExact(inp.reg) && Clobbers(inp)
    ensures !PathExact(Final(inp, rev))
  {
    var i: nat, j: nat :| i < j < |inp.es| && Vacates(inp, j, inp.es[i].path);
    assert Cleared(inp, inp.es[i].path, i + 1, |inp.es|);
    FinalPathOfBound(inp, rev, i);
    FinalBound(inp, rev, i);
  }

  lemma NoClobberKeepsExactness(inp: Input, rev: Revision)
    requires Usable(inp) && PathExact(inp.reg) && !Clobbers(inp)
    ensures PathExact(Final(inp, rev))
  {
    var r := Final(inp, rev);
    forall id | id in r.byId
      ensures Live(r, id) <==> r.byId[id].path in r.byPath && r.byPath[r.byId[id].path] == id
    {
      if id in Matched(inp).bound {
        BoundIsTouched(inp, id);
        var i: nat :| i < |inp.es| && BindingAt(inp, i).id == id;
        FinalBound(inp, rev, i);
        FinalPathOfBound(inp, rev, i);
        assert !Cleared(inp, inp.es[i].path, i + 1, |inp.es|);
      } else {
        FinalUnbound(inp, rev, id);
        FinalPathOfUnbound(inp, rev, id);
      }
    }
  }

  // ---- A condition on the inputs alone ------------------------------------------------------

  /** As extraction builds them: a nested entity's path is its container and its name. */
  predicate Nested(e: Entity) {
    e.container.Some? ==> e.path == e.container.value + "::" + e.name
  }

  lemma SplitsAtLeaf(path: string)
    ensures Container(path).Some? ==> path == Container(path).value + "::" + LeafName(path)
  {
    var i := LastSep(path, |path|);
    if i > 0 {
      assert path == path[..i] + path[i..i + 2] + path[i + 2..];
      assert path[i..i + 2] == "::";
    }
  }

  ghost predicate AllUnderFiles(reg: Registry) {
    forall id :: id in reg.byId ==> Container(reg.byId[id].path).Some?
  }

  /** Reconciling entities that lie in files keeps every anchor in a file. */
  lemma UnderFilesKept(reg: Registry, entities: seq<Entity>, rev: Revision,
                       scope: Option<set<string>>, supply: nat -> DurableId)
    requires Reconcilable(reg, entities, supply) && AllUnderFiles(reg)
    requires forall e :: e in entities ==> Container(e.path).Some?
    ensures AllUnderFiles(Reconciled(reg, entities, rev, scope, supply).registry)
  {
    var inp := Input(reg, Sorted(entities), scope, supply);
    InputUsable(reg, entities, scope, supply);
    SortedAscends(entities);
    var r := Reconciled(reg, entities, rev, scope, supply).registry;
    forall id | id in r.byId
      ensures Container(r.byId[id].path).Some?
    {
      if id in Matched(inp).bound {
        BoundIsTouched(inp, id);
        var i: nat :| i < |inp.es| && BindingAt(inp, i).id == id;
        FinalBound(inp, rev, i);
        assert inp.es[i] in inp.es;
      } else {
        FinalUnbound(inp, rev, id);
      }
    }
  }

  lemma StructBindsAt(inp: Input, i: nat)
    requires Usable(inp) && i < |inp.es| && BindingAt(inp, i).Struct? && Nested(inp.es[i]) && AllUnderFiles(inp.reg)
    ensures var id := BindingAt(inp, i).id;
            && id in inp.reg.byId && inp.reg.byId[id].path == inp.es[i].path && inp.es[i].container.Some?
            && (PathExact(inp.reg) ==> inp.reg.byId[id].status == Orphaned)
  {
    BindingFacts(inp, i);
    SplitsAtLeaf(inp.reg.byId[BindingAt(inp, i).id].path);
  }

  /** With entities and anchors as extraction builds them, a structural bind only takes a
      nested entity, and only to an anchor at that entity's own path: the edit distance that
      ranks the candidates is always zero. If the path index was exact, the bind brings back
      an orphan. */
  lemma StructBindsOwnPath(reg: Registry, entities: seq<Entity>, rev: Revision,
                           scope: Option<set<string>>, supply: nat -> DurableId, k: nat)
    requires Reconcilable(reg, entities, supply) && AllUnderFiles(reg) && forall e :: e in entities ==> Nested(e)
    requires k < |Reconciled(reg, entities, rev, scope, supply).bindings|
    requires Reconciled(reg, entities, rev, scope, supply).bindings[k].1.Struct?
    ensures var (path, b) := Reconciled(reg, entities, rev, scope, supply).bindings[k];
            && b.id in reg.byId && EditDistance.Distance(reg.byId[b.id].path, path) == 0
            && (exists e :: e in entities && e.path == path && e.container.Some?)
            && (PathExact(reg) ==> reg.byId[b.id].status == Orphaned)
  {
    var inp := Input(reg, Sorted(entities), scope, supply);
    InputUsable(reg, entities, scope, supply);
    var i := ListedBinding(inp, k);
    SortedAscends(entities);
    assert inp.es[i] in inp.es;
    StructBindsAt(inp, i);
    EditDistance.DistanceZeroIffEqual(inp.es[i].path, inp.es[i].path);
  }

  /** Some orphan stores the path of an entity and shares its hash with a later one. */
  ghost predicate MayReturn(reg: Registry, entities: seq<Entity>) {
    exists id, e, later :: id in reg.byId && reg.byId[id].status == Orphaned && e in entities && later in entities
      && reg.byId[id].path == e.path && Less(e.path, later.path) && later.hash == reg.byId[id].hash
  }

  lemma OnlyHashBindsVacate(inp: Input, i: nat, j: nat)
    requires Usable(inp) && PathExact(inp.reg) && i < j < |inp.es| && Vacates(inp, j, inp.es[i].path)
    requires Nested(inp.es[j]) && AllUnderFiles(inp.reg)
    ensures inp.reg.byId[BindingAt(inp, j).id].hash == inp.es[j].hash
  {
    BindingFacts(inp, j);
    if BindingAt(inp, j).Struct? {
      StructBindsAt(inp, j);
    }
    assert inp.es[i].path != inp.es[j].path;
  }

  /** If no orphan that stores an entity's path shares a hash with a later entity, the path
      index stays exact: a caller can tell before reconciling. */
  lemma PathExactFromInputs(reg: Registry, entities: seq<Entity>, rev: Revision,
                            scope: Option<set<string>>, supply: nat -> DurableId)
    requires Reconcilable(reg, entities, supply) && PathExact(reg) && !MayReturn(reg, entities)
    requires AllUnderFiles(reg) && forall e :: e in entities ==> Nested(e)
    ensures PathExact(Reconciled(reg, entities, rev, scope, supply).registry)
  {
    PathIndexExactIff(reg, entities, rev, scope, supply);
    var inp := Input(reg, Sorted(entities), scope, supply);
    SortedAscends(entities);
    if Clobbers(inp) {
      var i: nat, j: nat :| i < j < |inp.es| && Vacates(inp, j, inp.es[i].path);
      assert inp.es[i] in inp.es && inp.es[j] in inp.es;
      OnlyHashBindsVacate(inp, i, j);
      ClobbererIsOrphan(inp, i, j);
    }
  }
}
