/** What each matching pass must bind: no pass leaves out an anchor that it could have taken,
    and the earlier entity has the first choice. */
module MatchingTheorems {
  import opened Wrappers
  import opened Orders
  import opened Identity
  import opened Matching
  import opened Reconcile
  import opened AppliedFacts
  import opened ReconcileTheorems
  import EditDistance

  // ---- An entity's turn ------------------------------------------------------------------

  /** The matching just before entity `i` has its turn in a pass that starts from `m`. */
  ghost function Turn(pass: Pass, inp: Input, i: nat, m: Progress): Progress
    requires i < |inp.es|
  {
    RunPass(pass, inp, i, m)
  }

  lemma {:induction false} PassGrows(pass: Pass, inp: Input, i: nat, n: nat, m: Progress)
    requires i <= n <= |inp.es|
    ensures RunPass(pass, inp, i, m).bound <= RunPass(pass, inp, n, m).bound
    ensures RunPass(pass, inp, i, m).matched <= RunPass(pass, inp, n, m).matched
    ensures RunPass(pass, inp, i, m).minted <= RunPass(pass, inp, n, m).minted
  {
    if i < n {
      PassGrows(pass, inp, i, n - 1, m);
    }
  }

  /** An entity still unmatched after a pass was offered nothing when its turn came. */
  lemma LeftUnmatched(pass: Pass, inp: Input, i: nat, m: Progress)
    requires i < |inp.es| && i !in RunPass(pass, inp, |inp.es|, m).matched
    ensures Offer(pass, inp, inp.es[i], Turn(pass, inp, i, m)).None?
    ensures Turn(pass, inp, i, m).bound <= RunPass(pass, inp, |inp.es|, m).bound
  {
    PassGrows(pass, inp, i, |inp.es|, m);
    if Offer(pass, inp, inp.es[i], Turn(pass, inp, i, m)).Some? {
      OfferedIsMatched(pass, inp, i, m);
    }
  }

  lemma OfferedIsMatched(pass: Pass, inp: Input, i: nat, m: Progress)
    requires i < |inp.es| && Offer(pass, inp, inp.es[i], Turn(pass, inp, i, m)).Some?
    ensures i in RunPass(pass, inp, |inp.es|, m).matched
  {
    OfferMatches(pass, inp, i, Turn(pass, inp, i, m));
    PassGrows(pass, inp, i + 1, |inp.es|, m);
  }

  lemma OfferMatches(pass: Pass, inp: Input, i: nat, m: Progress)
    requires i < |inp.es| && Offer(pass, inp, inp.es[i], m).Some?
    ensures i in Step(pass, inp, i, m).matched
  {
  }

  ghost predicate MatchedBelow(m: Progress, m': Progress, n: nat) {
    forall i :: i in m'.matched ==> i in m.matched || i < n
  }

  lemma {:induction false} PassMatchesBelow(pass: Pass, inp: Input, n: nat, m: Progress)
    requires n <= |inp.es|
    ensures MatchedBelow(m, RunPass(pass, inp, n, m), n)
  {
    if n > 0 {
      PassMatchesBelow(pass, inp, n - 1, m);
    }
  }

  /** The step at an entity's turn records what it is offered. */
  lemma TurnRecords(pass: Pass, inp: Input, i: nat, m: Progress)
    requires i < |inp.es| && i !in m.matched && i in Step(pass, inp, i, m).matched
    ensures Offer(pass, inp, inp.es[i], m).Some? && Has(inp, Step(pass, inp, i, m), i)
    ensures At(inp, Step(pass, inp, i, m), i) == Offer(pass, inp, inp.es[i], m).value
  {
  }

  /** Later steps leave a recorded binding alone. */
  lemma LaterKeeps(pass: Pass, inp: Input, n: nat, m: Progress, i: nat)
    requires Usable(inp) && n < |inp.es| && Consistent(inp, m) && i in m.matched
    ensures Has(inp, m, i) && Has(inp, Step(pass, inp, n, m), i) && At(inp, Step(pass, inp, n, m), i) == At(inp, m, i)
  {
    StepExtends(pass, inp, n, m);
  }

  lemma NotYet(pass: Pass, inp: Input, n: nat, m: Progress, i: nat)
    requires i < n <= |inp.es| && i !in m.matched
    ensures i !in Turn(pass, inp, i, m).matched
    ensures i < n - 1 && i in RunPass(pass, inp, n, m).matched ==> i in RunPass(pass, inp, n - 1, m).matched
  {
    PassMatchesBelow(pass, inp, i, m);
  }

  /** An entity matched in a pass got what it was offered when its turn came. */
  lemma {:induction false} MatchedAtTurn(pass: Pass, inp: Input, n: nat, m: Progress, i: nat)
    requires Usable(inp) && Consistent(inp, m) && i < n <= |inp.es|
    requires i !in m.matched && i in RunPass(pass, inp, n, m).matched
    ensures Offer(pass, inp, inp.es[i], Turn(pass, inp, i, m)).Some?
    ensures Has(inp, RunPass(pass, inp, n, m), i)
    ensures At(inp, RunPass(pass, inp, n, m), i) == Offer(pass, inp, inp.es[i], Turn(pass, inp, i, m)).value
    decreases n
  {
    NotYet(pass, inp, n, m, i);
    if i < n - 1 {
      MatchedAtTurn(pass, inp, n - 1, m, i);
      RunKeeps(pass, inp, n, m, i);
    } else {
      TurnRecords(pass, inp, i, RunPass(pass, inp, i, m));
    }
  }

  lemma RunKeeps(pass: Pass, inp: Input, n: nat, m: Progress, i: nat)
    requires Usable(inp) && Consistent(inp, m) && 0 < n <= |inp.es| && i in RunPass(pass, inp, n - 1, m).matched
    ensures Has(inp, RunPass(pass, inp, n - 1, m), i) && Has(inp, RunPass(pass, inp, n, m), i)
    ensures At(inp, RunPass(pass, inp, n, m), i) == At(inp, RunPass(pass, inp, n - 1, m), i)
  {
    PassKeepsConsistent(pass, inp, n - 1, m);
    LaterKeeps(pass, inp, n - 1, RunPass(pass, inp, n - 1, m), i);
  }

  // ---- Which pass a binding comes from ------------------------------------------------------

  /** The kinds of binding made by a pass and the passes before it. */
  predicate MadeBy(pass: Pass, b: Binding) {
    match pass
    case ExactPass => b.Exact?
    case HashPass => b.Exact? || b.Moved?
    case StructPass => !b.Minted?
    case MintPass => true
  }

  ghost predicate Within(inp: Input, m: Progress, pass: Pass) {
    forall i :: i in m.matched ==> Has(inp, m, i) && MadeBy(pass, At(inp, m, i))
  }

  lemma OfferKind(pass: Pass, inp: Input, e: Entity, m: Progress)
    requires Offer(pass, inp, e, m).Some?
    ensures MadeBy(pass, Offer(pass, inp, e, m).value)
    ensures pass.StructPass? ==> Offer(pass, inp, e, m).value.Struct?
    ensures pass.MintPass? ==> Offer(pass, inp, e, m).value.Minted?
  {
  }

  lemma StepStaysWithin(pass: Pass, inp: Input, i: nat, m: Progress)
    requires Usable(inp) && i < |inp.es| && Consistent(inp, m) && Within(inp, m, pass)
    ensures Within(inp, Step(pass, inp, i, m), pass)
  {
    var m' := Step(pass, inp, i, m);
    forall k | k in m'.matched
      ensures Has(inp, m', k) && MadeBy(pass, At(inp, m', k))
    {
      if k in m.matched {
        LaterKeeps(pass, inp, i, m, k);
      } else {
        TurnRecords(pass, inp, i, m);
        OfferKind(pass, inp, inp.es[i], m);
      }
    }
  }

  lemma {:induction false} PassStaysWithin(pass: Pass, inp: Input, n: nat, m: Progress)
    requires Usable(inp) && n <= |inp.es| && Consistent(inp, m) && Within(inp, m, pass)
    ensures Within(inp, RunPass(pass, inp, n, m), pass)
  {
    if n > 0 {
      PassStaysWithin(pass, inp, n - 1, m);
      PassKeepsConsistent(pass, inp, n - 1, m);
      StepStaysWithin(pass, inp, n - 1, RunPass(pass, inp, n - 1, m));
    }
  }

  lemma PassKinds(inp: Input)
    requires Usable(inp)
    ensures Within(inp, AfterExact(inp), ExactPass) && Within(inp, AfterHash(inp), HashPass)
    ensures Within(inp, AfterStruct(inp), StructPass)
  {
    PassesExtend(inp);
    PassStaysWithin(ExactPass, inp, |inp.es|, START);
    PassStaysWithin(HashPass, inp, |inp.es|, AfterExact(inp));
    PassStaysWithin(StructPass, inp, |inp.es|, AfterHash(inp));
  }

  lemma PassesExtend(inp: Input)
    requires Usable(inp)
    ensures Consistent(inp, AfterExact(inp)) && Consistent(inp, AfterHash(inp)) && Consistent(inp, AfterStruct(inp))
    ensures Extends(inp, AfterExact(inp), AfterHash(inp)) && Extends(inp, AfterHash(inp), AfterStruct(inp))
    ensures Extends(inp, AfterStruct(inp), Matched(inp))
    ensures AfterHash(inp).bound <= AfterStruct(inp).bound <= Matched(inp).bound
  {
    var n := |inp.es|;
    PassKeepsConsistent(ExactPass, inp, n, START);
    PassKeepsConsistent(HashPass, inp, n, AfterExact(inp));
    PassKeepsConsistent(StructPass, inp, n, AfterHash(inp));
    PassKeepsConsistent(MintPass, inp, n, AfterStruct(inp));
    PassGrows(StructPass, inp, 0, n, AfterHash(inp));
    PassGrows(MintPass, inp, 0, n, AfterStruct(inp));
  }

  /** When entity `i` was matched, by the kind of binding it ended with. */
  lemma MatchedWhen(inp: Input, i: nat)
    requires Usable(inp) && i < |inp.es|
    ensures var b := BindingAt(inp, i);
            && (!b.Exact? ==> i !in AfterExact(inp).matched && inp.es[i].path !in inp.reg.byPath)
            && (b.Struct? || b.Minted? ==> i !in AfterHash(inp).matched)
            && (b.Minted? ==> i !in AfterStruct(inp).matched)
            && (b.Moved? ==> i in AfterHash(inp).matched)
            && (b.Struct? ==> i in AfterStruct(inp).matched)
  {
    PassKinds(inp);
    PassesExtend(inp);
    BindingFacts(inp, i);
    NewKinds(inp, i);
  }

  /** What the last two passes add is structural or minted. */
  lemma NewKinds(inp: Input, i: nat)
    requires Usable(inp) && i < |inp.es|
    ensures i !in AfterHash(inp).matched ==> BindingAt(inp, i).Struct? || BindingAt(inp, i).Minted?
    ensures i !in AfterStruct(inp).matched ==> BindingAt(inp, i).Minted?
  {
    if i !in AfterStruct(inp).matched {
      MintIsNew(inp, i);
    } else if i !in AfterHash(inp).matched {
      StructIsNew(inp, i);
    }
  }

  lemma MintIsNew(inp: Input, i: nat)
    requires Usable(inp) && i < |inp.es| && i !in AfterStruct(inp).matched
    ensures var m := Turn(MintPass, inp, i, AfterStruct(inp));
            Offer(MintPass, inp, inp.es[i], m) == Some(BindingAt(inp, i)) && BindingAt(inp, i).Minted?
  {
    PassesExtend(inp);
    MintPassBinds(inp, |inp.es|, AfterStruct(inp));
    MatchedAtTurn(MintPass, inp, |inp.es|, AfterStruct(inp), i);
    OfferKind(MintPass, inp, inp.es[i], Turn(MintPass, inp, i, AfterStruct(inp)));
  }

  lemma StructIsNew(inp: Input, i: nat)
    requires Usable(inp) && i < |inp.es| && i !in AfterHash(inp).matched && i in AfterStruct(inp).matched
    ensures var m := Turn(StructPass, inp, i, AfterHash(inp));
            Offer(StructPass, inp, inp.es[i], m) == Some(BindingAt(inp, i)) && BindingAt(inp, i).Struct?
  {
    PassesExtend(inp);
    MatchedAtTurn(StructPass, inp, |inp.es|, AfterHash(inp), i);
    OfferKind(StructPass, inp, inp.es[i], Turn(StructPass, inp, i, AfterHash(inp)));
  }

  lemma MoveIsNew(inp: Input, i: nat)
    requires Usable(inp) && i < |inp.es| && i !in AfterExact(inp).matched && i in AfterHash(inp).matched
    ensures var m := Turn(HashPass, inp, i, AfterExact(inp)); Offer(HashPass, inp, inp.es[i], m) == Some(BindingAt(inp, i))
  {
    PassesExtend(inp);
    MatchedAtTurn(HashPass, inp, |inp.es|, AfterExact(inp), i);
    ExtendsTransitive(inp, AfterHash(inp), AfterStruct(inp), Matched(inp));
  }

  // ---- Nothing that could be taken is left over -----------------------------------------------

  /** An entity not matched by hash: every in-scope anchor with its hash is bound. */
  lemma HashTakesAll(inp: Input, i: nat, id: DurableId)
    requires Usable(inp) && i < |inp.es| && (BindingAt(inp, i).Struct? || BindingAt(inp, i).Minted?)
    requires id in inp.reg.byId && AnchorInScope(inp.reg, id, inp.scope) && inp.reg.byId[id].hash == inp.es[i].hash
    ensures id in AfterHash(inp).bound && id in Matched(inp).bound
  {
    MatchedWhen(inp, i);
    PassesExtend(inp);
    LeftUnmatched(HashPass, inp, i, AfterExact(inp));
    HashListed(inp.reg, inp.es[i].hash, id);
    var m := Turn(HashPass, inp, i, AfterExact(inp));
    assert id in HashCandidates(inp, inp.es[i], m.bound) <==> id !in m.bound;
  }

  lemma StructTakesAll(inp: Input, i: nat, id: DurableId)
    requires Usable(inp) && i < |inp.es| && BindingAt(inp, i).Minted?
    requires id in inp.reg.byId && AnchorInScope(inp.reg, id, inp.scope) && Alike(inp.reg.byId[id], inp.es[i])
    ensures id in Matched(inp).bound
  {
    MatchedWhen(inp, i);
    PassesExtend(inp);
    LeftUnmatched(StructPass, inp, i, AfterHash(inp));
    var m := Turn(StructPass, inp, i, AfterHash(inp));
    assert id in StructCandidates(inp, inp.es[i], m.bound) <==> id !in m.bound;
  }

  /** The same name, kind and container. */
  predicate Alike(a: Anchor, e: Entity) {
    LeafName(a.path) == e.name && a.kind == e.kind && Container(a.path) == e.container
  }

  /** Of the anchors with its hash that are free at the end, none has a smaller id. */
  lemma HashTakesLeast(inp: Input, i: nat, id: DurableId)
    requires Usable(inp) && i < |inp.es| && BindingAt(inp, i).Moved?
    requires id in inp.reg.byId && AnchorInScope(inp.reg, id, inp.scope) && inp.reg.byId[id].hash == inp.es[i].hash
    requires id !in Turn(HashPass, inp, i, AfterExact(inp)).bound
    ensures AtMost(BindingAt(inp, i).id, id)
  {
    MatchedWhen(inp, i);
    MoveIsNew(inp, i);
    HashListed(inp.reg, inp.es[i].hash, id);
    var m := Turn(HashPass, inp, i, AfterExact(inp));
    assert id in HashCandidates(inp, inp.es[i], m.bound);
  }

  lemma StructTakesClosest(inp: Input, i: nat, id: DurableId)
    requires Usable(inp) && i < |inp.es| && BindingAt(inp, i).Struct?
    requires id in inp.reg.byId && AnchorInScope(inp.reg, id, inp.scope) && Alike(inp.reg.byId[id], inp.es[i])
    requires id !in Matched(inp).bound
    ensures var b := BindingAt(inp, i);
            b.id in inp.reg.byId && NoFarther(inp.reg, b.id, id, inp.es[i].path)
  {
    MatchedWhen(inp, i);
    PassesExtend(inp);
    StructIsNew(inp, i);
    PassGrows(StructPass, inp, i, |inp.es|, AfterHash(inp));
    var m := Turn(StructPass, inp, i, AfterHash(inp));
    assert id in StructCandidates(inp, inp.es[i], m.bound);
  }

  /** `x` is closer to the path than `y` or as close, and then its id is no greater. */
  ghost predicate NoFarther(reg: Registry, x: DurableId, y: DurableId, path: string)
    requires x in reg.byId && y in reg.byId
  {
    var d, d' := EditDistance.Distance(reg.byId[x].path, path), EditDistance.Distance(reg.byId[y].path, path);
    d < d' || (d == d' && AtMost(x, y))
  }

  /** A structural bind always changes the hash: with the same hash it would have moved. */
  lemma StructChangesHash(inp: Input, i: nat)
    requires Usable(inp) && i < |inp.es| && BindingAt(inp, i).Struct?
    ensures var id := BindingAt(inp, i).id; id in inp.reg.byId && inp.reg.byId[id].hash != inp.es[i].hash
  {
    var id := BindingAt(inp, i).id;
    BindingFacts(inp, i);
    MatchedWhen(inp, i);
    StructIsNew(inp, i);
    PassGrows(StructPass, inp, 0, i, AfterHash(inp));
    if inp.reg.byId[id].hash == inp.es[i].hash {
      HashTakesAll(inp, i, id);
    }
  }

  // ---- On the whole reconciliation ------------------------------------------------------------

  /** The path lies in the file: the first separator follows the file's name. */
  ghost predicate LiesIn(path: string, file: string) {
    file <= path && SepAt(path, |file|) && forall k :: 0 <= k < |file| ==> !SepAt(path, k)
  }

  ghost predicate Covers(scope: Option<set<string>>, path: string) {
    scope.Some? ==> exists f :: f in scope.value && LiesIn(path, f)
  }

  lemma FileOfPathIff(path: string, file: string)
    ensures AnchorFile(path) == Some(file) <==> LiesIn(path, file)
  {
    var i := FirstSep(path, 0);
    if LiesIn(path, file) {
      assert SepAt(path, |file|);
      assert i == |file| && path[..i] == file;
    }
  }

  lemma CoversIff(scope: set<string>, path: string)
    ensures Covers(Some(scope), path) <==> AnchorFile(path).Some? && AnchorFile(path).value in scope
  {
    if AnchorFile(path).Some? {
      FileOfPathIff(path, AnchorFile(path).value);
    }
    if f :| f in scope && LiesIn(path, f) {
      FileOfPathIff(path, f);
    }
  }

  /** The scope test of the passes and of retirement reads the file off the stored path. */
  lemma InScopeIff(reg: Registry, id: DurableId, scope: Option<set<string>>)
    requires id in reg.byId
    ensures AnchorInScope(reg, id, scope) <==> Covers(scope, reg.byId[id].path)
  {
    if scope.Some? {
      CoversIff(scope.value, reg.byId[id].path);
    }
  }

  /** The path is the container and the name, and no separator follows the container's. */
  ghost predicate JoinsAs(path: string, container: string, name: string) {
    path == container + "::" + name && forall k :: |container| < k ==> !SepAt(path, k)
  }

  /** Name and container of a path, read from its last separator. */
  lemma LeafMeans(path: string, container: string, name: string)
    requires container != ""
    ensures Container(path) == Some(container) && LeafName(path) == name <==> JoinsAs(path, container, name)
  {
    var i := LastSep(path, |path|);
    if JoinsAs(path, container, name) {
      assert SepAt(path, |container|);
      assert i == |container|;
      assert path[..i] == container && path[i + 2..] == name;
    }
    if Container(path) == Some(container) && LeafName(path) == name {
      SplitsAtLeaf(path);
    }
  }

  /** An anchor in scope that the pass leaves unbound was of no use to any entity that ended
      with a later kind of binding, and was no better for one that ended with its own kind. */
  lemma NothingLeftOver(reg: Registry, entities: seq<Entity>, rev: Revision, scope: Option<set<string>>,
                        supply: nat -> DurableId, k: nat, e: Entity, id: DurableId)
    requires Reconcilable(reg, entities, supply) && k < |Reconciled(reg, entities, rev, scope, supply).bindings|
    requires e in entities && Reconciled(reg, entities, rev, scope, supply).bindings[k].0 == e.path
    requires id in reg.byId && Covers(scope, reg.byId[id].path)
    requires id !in Reconciled(reg, entities, rev, scope, supply).bound
    ensures var b := Reconciled(reg, entities, rev, scope, supply).bindings[k].1;
            && (b.Exact? <==> e.path in reg.byPath)
            && (b.Struct? || b.Minted? ==> reg.byId[id].hash != e.hash)
            && (b.Minted? ==> !Alike(reg.byId[id], e))
            && (b.Moved? && reg.byId[id].hash == e.hash ==> AtMost(b.id, id))
            && (b.Struct? && Alike(reg.byId[id], e) ==> b.id in reg.byId && NoFarther(reg, b.id, id, e.path))
  {
    var inp := Input(reg, Sorted(entities), scope, supply);
    InputUsable(reg, entities, scope, supply);
    InScopeIff(reg, id, scope);
    var i := BindingOf(inp, k, e);
    BindingFacts(inp, i);
    LeftOver(inp, i, id);
  }

  /** The entity that a listed binding is for. */
  lemma BindingOf(inp: Input, k: nat, e: Entity) returns (i: nat)
    requires Usable(inp) && e in inp.es && k < |Matched(inp).bindings| && Matched(inp).bindings[k].0 == e.path
    ensures i < |inp.es| && inp.es[i] == e && BindingAt(inp, i) == Matched(inp).bindings[k].1
  {
    i := ListedBinding(inp, k);
    var j :| 0 <= j < |inp.es| && inp.es[j] == e;
    assert i == j;
  }

  lemma LeftOver(inp: Input, i: nat, id: DurableId)
    requires Usable(inp) && i < |inp.es| && id in inp.reg.byId && AnchorInScope(inp.reg, id, inp.scope)
    requires id !in Matched(inp).bound
    ensures var b, e := BindingAt(inp, i), inp.es[i];
            && (b.Struct? || b.Minted? ==> inp.reg.byId[id].hash != e.hash)
            && (b.Minted? ==> !Alike(inp.reg.byId[id], e))
            && (b.Moved? && inp.reg.byId[id].hash == e.hash ==> AtMost(b.id, id))
            && (b.Struct? && Alike(inp.reg.byId[id], e) ==> b.id in inp.reg.byId && NoFarther(inp.reg, b.id, id, e.path))
  {
    var b, e := BindingAt(inp, i), inp.es[i];
    if (b.Struct? || b.Minted?) && inp.reg.byId[id].hash == e.hash {
      HashTakesAll(inp, i, id);
    }
    if b.Minted? && Alike(inp.reg.byId[id], e) {
      StructTakesAll(inp, i, id);
    }
    if b.Moved? && inp.reg.byId[id].hash == e.hash {
      PassGrows(HashPass, inp, i, |inp.es|, AfterExact(inp));
      PassesExtend(inp);
      HashTakesLeast(inp, i, id);
    }
    if b.Struct? && Alike(inp.reg.byId[id], e) {
      StructTakesClosest(inp, i, id);
    }
  }

  // ---- The earlier entity chooses first -----------------------------------------------------------

  lemma EarlierMoves(inp: Input, i: nat, j: nat)
    requires Usable(inp) && i < j < |inp.es| && BindingAt(inp, i).Moved? && BindingAt(inp, j).Moved?
    requires inp.es[i].hash == inp.es[j].hash
    ensures Less(BindingAt(inp, i).id, BindingAt(inp, j).id)
  {
    var id := BindingAt(inp, j).id;
    BindingFacts(inp, i);
    BindingFacts(inp, j);
    MatchedWhen(inp, j);
    MoveIsNew(inp, j);
    PassGrows(HashPass, inp, i, j, AfterExact(inp));
    assert id !in Turn(HashPass, inp, j, AfterExact(inp)).bound;
    HashTakesLeast(inp, i, id);
  }

  /** A minted entity takes the next fresh id. */
  lemma MintedNext(inp: Input, i: nat)
    requires Usable(inp) && i < |inp.es| && BindingAt(inp, i).Minted?
    ensures var m := Turn(MintPass, inp, i, AfterStruct(inp));
            BindingAt(inp, i).id == inp.supply(m.minted) && RunPass(MintPass, inp, i + 1, AfterStruct(inp)).minted == m.minted + 1
  {
    MatchedWhen(inp, i);
    MintIsNew(inp, i);
    PassMatchesBelow(MintPass, inp, i, AfterStruct(inp));
  }

  lemma EarlierMints(inp: Input, i: nat, j: nat)
    requires Usable(inp) && i < j < |inp.es| && BindingAt(inp, i).Minted? && BindingAt(inp, j).Minted?
    ensures exists a: nat, b: nat :: a < b && BindingAt(inp, i).id == inp.supply(a) && BindingAt(inp, j).id == inp.supply(b)
  {
    MintedNext(inp, i);
    MintedNext(inp, j);
    PassGrows(MintPass, inp, i + 1, j, AfterStruct(inp));
  }

  /** Of two entities with one hash that both move, the one with the smaller path takes the
      smaller id; of two that are minted, it takes the earlier of the fresh ids. */
  lemma EarlierChoosesFirst(reg: Registry, entities: seq<Entity>, rev: Revision, scope: Option<set<string>>,
                            supply: nat -> DurableId, j: nat, k: nat, e: Entity, e': Entity)
    requires Reconcilable(reg, entities, supply) && e in entities && e' in entities && Less(e.path, e'.path)
    requires j < |Reconciled(reg, entities, rev, scope, supply).bindings|
    requires k < |Reconciled(reg, entities, rev, scope, supply).bindings|
    requires Reconciled(reg, entities, rev, scope, supply).bindings[j].0 == e.path
    requires Reconciled(reg, entities, rev, scope, supply).bindings[k].0 == e'.path
    ensures var b := Reconciled(reg, entities, rev, scope, supply).bindings[j].1;
            var b' := Reconciled(reg, entities, rev, scope, supply).bindings[k].1;
            && (b.Moved? && b'.Moved? && e.hash == e'.hash ==> Less(b.id, b'.id))
            && (b.Minted? && b'.Minted? ==> exists m: nat, n: nat :: m < n && b.id == supply(m) && b'.id == supply(n))
  {
    var inp := Input(reg, Sorted(entities), scope, supply);
    InputUsable(reg, entities, scope, supply);
    var a := BindingOf(inp, j, e);
    var c := BindingOf(inp, k, e');
    PathOrder(inp.es, a, c);
    if BindingAt(inp, a).Moved? && BindingAt(inp, c).Moved? && e.hash == e'.hash {
      EarlierMoves(inp, a, c);
    }
    if BindingAt(inp, a).Minted? && BindingAt(inp, c).Minted? {
      EarlierMints(inp, a, c);
    }
  }

  lemma PathOrder(es: seq<Entity>, a: nat, c: nat)
    requires PathAscending(es) && a < |es| && c < |es| && Less(es[a].path, es[c].path)
    ensures a < c
  {
    if c < a {
      LessAsymmetric(es[a].path, es[c].path);
    } else if a == c {
      LessIrreflexive(es[a].path);
    }
  }

  // ---- The anchor that a bound entity ends with -----------------------------------------------------

  /** A minted anchor is new and active. Any other keeps its id, kind and first revision, and
      is active unless its hash changed, which calls for a review. */
  lemma BoundAnchor(reg: Registry, entities: seq<Entity>, rev: Revision, scope: Option<set<string>>,
                    supply: nat -> DurableId, k: nat, e: Entity)
    requires Reconcilable(reg, entities, supply) && k < |Reconciled(reg, entities, rev, scope, supply).bindings|
    requires e in entities && Reconciled(reg, entities, rev, scope, supply).bindings[k].0 == e.path
    ensures var o := Reconciled(reg, entities, rev, scope, supply); var id := o.bindings[k].1.id;
            && id in o.registry.byId
            && o.registry.byId[id] ==
               if id !in reg.byId then Anchor(id, e.path, e.hash, e.kind, rev, rev, Active)
               else Anchor(id, e.path, e.hash, reg.byId[id].kind, reg.byId[id].firstSeen, rev,
                           if reg.byId[id].hash == e.hash then Active else NeedsReview)
  {
    var inp := Input(reg, Sorted(entities), scope, supply);
    InputUsable(reg, entities, scope, supply);
    var i := BindingOf(inp, k, e);
    BindingFacts(inp, i);
    FinalBound(inp, rev, i);
    if BindingAt(inp, i).Struct? {
      StructChangesHash(inp, i);
    }
    assert BindingAt(inp, i).id in reg.byId ==> reg.byId[BindingAt(inp, i).id].id == BindingAt(inp, i).id;
  }
}
