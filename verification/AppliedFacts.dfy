/** What applying a finished matching does to the registry, entry by entry. */
module AppliedFacts {
  import opened Wrappers
  import opened Orders
  import opened Identity
  import opened Matching
  import opened Reconcile

  /** Entity `i` of a usable input has a binding in the finished matching. */
  ghost function BindingAt(inp: Input, i: nat): Binding
    requires Usable(inp) && i < |inp.es|
  {
    MatchingIsComplete(inp);
    At(inp, Matched(inp), i)
  }

  /** The anchor that entity `i`'s id ends with once its binding is applied. */
  ghost function NewAnchor(inp: Input, i: nat, rev: Revision): Anchor
    requires Usable(inp) && i < |inp.es|
  {
    var b, e := BindingAt(inp, i), inp.es[i];
    if b.Minted? || b.id !in inp.reg.byId then Anchor(b.id, e.path, e.hash, e.kind, rev, rev, Active)
    else
      inp.reg.byId[b.id].(path := e.path, hash := e.hash, lastSeen := rev,
                          status := if b.id in Matched(inp).review then inp.reg.byId[b.id].status else Active)
  }

  ghost predicate TouchedBy(inp: Input, n: nat, id: DurableId)
    requires Usable(inp) && n <= |inp.es|
  {
    exists i: nat :: i < n && BindingAt(inp, i).id == id
  }

  lemma BindingFacts(inp: Input, i: nat)
    requires Usable(inp) && i < |inp.es|
    ensures AllBound(inp.es, Matched(inp))
    ensures Matched(inp).byPath[inp.es[i].path] == BindingAt(inp, i)
    ensures Justified(inp, inp.es[i], BindingAt(inp, i))
    ensures BindingAt(inp, i).id in Matched(inp).bound
    ensures forall j: nat :: j < |inp.es| && j != i ==> BindingAt(inp, j).id != BindingAt(inp, i).id
    ensures BindingAt(inp, i).id in Matched(inp).review <==> Flagged(BindingAt(inp, i), inp.es[i])
    ensures inp.es[i].path in inp.reg.byPath ==>
              BindingAt(inp, i).Exact? && BindingAt(inp, i).id == inp.reg.byPath[inp.es[i].path]
  {
    MatchingIsComplete(inp);
    EveryEntityBound(inp);
    assert i in Matched(inp).matched;
  }

  lemma BoundIsTouched(inp: Input, id: DurableId)
    requires Usable(inp)
    ensures id in Matched(inp).bound <==> TouchedBy(inp, |inp.es|, id)
    ensures id in Matched(inp).review ==> id in Matched(inp).bound
  {
    MatchingIsComplete(inp);
    if id in Matched(inp).bound {
      var i :| Owns(inp, Matched(inp), i, id);
      assert BindingAt(inp, i).id == id;
    }
    if TouchedBy(inp, |inp.es|, id) {
      var i: nat :| i < |inp.es| && BindingAt(inp, i).id == id;
      BindingFacts(inp, i);
    }
  }

  ghost function After(inp: Input, rev: Revision, n: nat): Registry
    requires Usable(inp) && n <= |inp.es|
  {
    EveryEntityBound(inp);
    Applied(inp.reg, inp.es, Matched(inp), rev, n)
  }

  lemma ApplyOneAnchors(reg: Registry, e: Entity, b: Binding, review: seq<DurableId>, rev: Revision)
    requires b.Minted? || (b.id in reg.byId && reg.byId[b.id].id == b.id)
    ensures var r := ApplyOne(reg, e, b, review, rev);
            && r.byId.Keys == reg.byId.Keys + {b.id}
            && (forall id :: id in reg.byId && id != b.id ==> r.byId[id] == reg.byId[id])
            && r.byId[b.id] ==
               if b.Minted? then Anchor(b.id, e.path, e.hash, e.kind, rev, rev, Active)
               else reg.byId[b.id].(path := e.path, hash := e.hash, lastSeen := rev,
                                    status := if b.id in review then reg.byId[b.id].status else Active)
  {
  }

  /** Applying bindings leaves alone every anchor that none of them names. */
  lemma {:induction false} AppliedUntouched(inp: Input, rev: Revision, n: nat, id: DurableId)
    requires Usable(inp) && n <= |inp.es| && !TouchedBy(inp, n, id)
    ensures id in After(inp, rev, n).byId <==> id in inp.reg.byId
    ensures id in inp.reg.byId ==> After(inp, rev, n).byId[id] == inp.reg.byId[id]
    decreases n, 2
  {
    if n > 0 {
      AppliedUntouched(inp, rev, n - 1, id);
      ApplyNext(inp, rev, n);
    }
  }

  /** The id of the next binding has not been named before. */
  lemma NextIsUntouched(inp: Input, n: nat)
    requires Usable(inp) && 0 < n <= |inp.es|
    ensures !TouchedBy(inp, n - 1, BindingAt(inp, n - 1).id)
  {
    BindingFacts(inp, n - 1);
  }

  lemma ApplyNext(inp: Input, rev: Revision, n: nat)
    requires Usable(inp) && 0 < n <= |inp.es|
    ensures var b := BindingAt(inp, n - 1); var r, r' := After(inp, rev, n - 1), After(inp, rev, n);
            && r'.byId.Keys == r.byId.Keys + {b.id}
            && (forall id :: id in r.byId && id != b.id ==> r'.byId[id] == r.byId[id])
            && r'.byId[b.id] == NewAnchor(inp, n - 1, rev)
    decreases n, 1
  {
    var b := BindingAt(inp, n - 1);
    BindingFacts(inp, n - 1);
    NextIsUntouched(inp, n);
    AppliedUntouched(inp, rev, n - 1, b.id);
    ApplyOneAnchors(After(inp, rev, n - 1), inp.es[n - 1], b, Matched(inp).review, rev);
  }

  lemma {:induction false} AppliedTouched(inp: Input, rev: Revision, n: nat, i: nat)
    requires Usable(inp) && i < n <= |inp.es|
    ensures var id := BindingAt(inp, i).id;
            id in After(inp, rev, n).byId && After(inp, rev, n).byId[id] == NewAnchor(inp, i, rev)
    decreases n
  {
    ApplyNext(inp, rev, n);
    if i < n - 1 {
      AppliedTouched(inp, rev, n - 1, i);
      BindingFacts(inp, n - 1);
    }
  }

  /** Applying the first `n` bindings rewrites exactly the anchors they name. */
  lemma AppliedAnchors(inp: Input, rev: Revision, n: nat, id: DurableId)
    requires Usable(inp) && n <= |inp.es|
    ensures !TouchedBy(inp, n, id) ==> (id in After(inp, rev, n).byId <==> id in inp.reg.byId)
    ensures !TouchedBy(inp, n, id) && id in inp.reg.byId ==> After(inp, rev, n).byId[id] == inp.reg.byId[id]
    ensures forall i: nat :: i < n && BindingAt(inp, i).id == id ==>
              id in After(inp, rev, n).byId && After(inp, rev, n).byId[id] == NewAnchor(inp, i, rev)
  {
    if TouchedBy(inp, n, id) {
      forall i: nat | i < n && BindingAt(inp, i).id == id
        ensures id in After(inp, rev, n).byId && After(inp, rev, n).byId[id] == NewAnchor(inp, i, rev)
      {
        AppliedTouched(inp, rev, n, i);
      }
    } else {
      AppliedUntouched(inp, rev, n, id);
    }
  }

  // ---- The path index ----------------------------------------------------------------

  /** Some binding from `from` up to `n` moves an anchor that stored path `p`. */
  ghost predicate Cleared(inp: Input, p: string, from: nat, n: nat)
    requires Usable(inp) && n <= |inp.es|
  {
    exists j: nat :: from <= j < n && Vacates(inp, j, p)
  }

  ghost predicate Vacates(inp: Input, j: nat, p: string)
    requires Usable(inp) && j < |inp.es|
  {
    BindingAt(inp, j).id in inp.reg.byId && inp.reg.byId[BindingAt(inp, j).id].path == p
  }

  ghost predicate EntityAt(inp: Input, p: string, n: nat)
    requires n <= |inp.es|
  {
    exists i: nat :: i < n && inp.es[i].path == p
  }

  lemma ApplyOnePaths(inp: Input, rev: Revision, n: nat, p: string)
    requires Usable(inp) && 0 < n <= |inp.es|
    ensures p in After(inp, rev, n).byPath <==>
              p == inp.es[n - 1].path || (p in After(inp, rev, n - 1).byPath && !Vacates(inp, n - 1, p))
    ensures p in After(inp, rev, n).byPath ==>
              After(inp, rev, n).byPath[p] ==
                if p == inp.es[n - 1].path then BindingAt(inp, n - 1).id else After(inp, rev, n - 1).byPath[p]
  {
    var b := BindingAt(inp, n - 1);
    BindingFacts(inp, n - 1);
    AppliedAnchors(inp, rev, n - 1, b.id);
    assert !TouchedBy(inp, n - 1, b.id);
  }

  /** Where an entity's path ends up: under its own id, unless a later binding
      moves away an anchor that stored the same path. */
  lemma {:induction false} AppliedEntityPath(inp: Input, rev: Revision, n: nat, i: nat)
    requires Usable(inp) && i < n <= |inp.es|
    ensures inp.es[i].path in After(inp, rev, n).byPath <==> !Cleared(inp, inp.es[i].path, i + 1, n)
    ensures inp.es[i].path in After(inp, rev, n).byPath ==>
              After(inp, rev, n).byPath[inp.es[i].path] == BindingAt(inp, i).id
    decreases n
  {
    var p := inp.es[i].path;
    ApplyOnePaths(inp, rev, n, p);
    if i < n - 1 {
      AppliedEntityPath(inp, rev, n - 1, i);
      assert Cleared(inp, p, i + 1, n - 1) ==> Cleared(inp, p, i + 1, n);
      assert Vacates(inp, n - 1, p) ==> Cleared(inp, p, i + 1, n);
    }
  }

  /** A path no entity occupies keeps its entry unless its anchor is moved away. */
  lemma {:induction false} AppliedOtherPath(inp: Input, rev: Revision, n: nat, p: string)
    requires Usable(inp) && n <= |inp.es| && !EntityAt(inp, p, n)
    ensures p in After(inp, rev, n).byPath <==> p in inp.reg.byPath && !Cleared(inp, p, 0, n)
    ensures p in After(inp, rev, n).byPath ==> After(inp, rev, n).byPath[p] == inp.reg.byPath[p]
  {
    if n > 0 {
      assert inp.es[n - 1].path != p;
      assert !EntityAt(inp, p, n - 1);
      ApplyOnePaths(inp, rev, n, p);
      AppliedOtherPath(inp, rev, n - 1, p);
      assert Cleared(inp, p, 0, n - 1) ==> Cleared(inp, p, 0, n);
      assert Vacates(inp, n - 1, p) ==> Cleared(inp, p, 0, n);
    }
  }
}
