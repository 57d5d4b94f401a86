/** The four matching passes of reconciliation: exact, hash, structural, mint. */
module Matching {
  import opened Wrappers
  import opened Orders
  import opened Identity
  import EditDistance

  datatype Entity = Entity(
    path: string,
    file: string,
    name: string,
    kind: SymbolKind,
    container: Option<string>,
    hash: ContentHash)

  datatype Binding =
    | Exact(id: DurableId, oldHash: ContentHash)
    | Moved(id: DurableId, oldPath: string, oldHash: ContentHash)
    | Struct(id: DurableId, oldHash: ContentHash)
    | Minted(id: DurableId)

  /** What one reconciliation reads: the registry as it was, the sorted entities,
      the scope (`None` means every file) and the supply that minting draws from. */
  datatype Input = Input(
    reg: Registry,
    es: seq<Entity>,
    scope: Option<set<string>>,
    supply: nat -> DurableId)

  /** The growing result of the passes. */
  datatype Progress = Progress(
    bound: set<DurableId>,
    matched: set<nat>,
    bindings: seq<(string, Binding)>,
    byPath: map<string, Binding>,
    review: seq<DurableId>,
    minted: nat)

  const START := Progress({}, {}, [], map[], [], 0)

  datatype Pass = ExactPass | HashPass | StructPass | MintPass

  predicate EntityBefore(a: Entity, b: Entity) {
    Less(a.path, b.path) || (a.path == b.path && a.hash < b.hash)
  }

  predicate AnchorInScope(reg: Registry, id: DurableId, scope: Option<set<string>>) {
    scope.None? ||
    (id in reg.byId && AnchorFile(reg.byId[id].path).Some? && AnchorFile(reg.byId[id].path).value in scope.value)
  }

  // ---- The best candidate: least rank, then least id ----------------------------

  ghost predicate IsClosest(ranked: map<DurableId, nat>, id: DurableId) {
    id in ranked && forall x :: x in ranked ==>
      ranked[id] < ranked[x] || (ranked[id] == ranked[x] && AtMost(id, x))
  }

  lemma {:induction false} ClosestExists(ranked: map<DurableId, nat>)
    requires ranked != map[]
    ensures exists id :: IsClosest(ranked, id)
    decreases |ranked|
  {
    var x :| x in ranked;
    var rest := ranked - {x};
    if rest == map[] {
      assert forall y :: y in ranked ==> y == x || y in rest;
      assert IsClosest(ranked, x);
    } else {
      assert rest.Keys == ranked.Keys - {x};
      assert |rest.Keys| < |ranked.Keys|;
      ClosestExists(rest);
      var y :| IsClosest(rest, y);
      LessTotal(x, y);
      if ranked[y] < ranked[x] || (ranked[y] == ranked[x] && AtMost(y, x)) {
        assert forall z :: z in ranked ==> z == x || z in rest;
        assert IsClosest(ranked, y);
      } else {
        forall z | z in ranked
          ensures ranked[x] < ranked[z] || (ranked[x] == ranked[z] && AtMost(x, z))
        {
          if z != x {
            assert z in rest;
            if ranked[x] == ranked[z] {
              AtMostTransitive(x, y, z);
            }
          }
        }
        assert IsClosest(ranked, x);
      }
    }
  }

  lemma ClosestUnique(ranked: map<DurableId, nat>, x: DurableId, y: DurableId)
    requires IsClosest(ranked, x) && IsClosest(ranked, y)
    ensures x == y
  {
    if x != y {
      LessAsymmetric(x, y);
    }
  }

  ghost function Closest(ranked: map<DurableId, nat>): (id: DurableId)
    requires ranked != map[]
    ensures IsClosest(ranked, id)
  {
    ClosestExists(ranked);
    var id :| IsClosest(ranked, id);
    id
  }

  ghost function BestOf(ranked: map<DurableId, nat>): Option<DurableId> {
    if ranked == map[] then None else Some(Closest(ranked))
  }

  // ---- What each pass offers an entity -------------------------------------------

  predicate HashCandidate(inp: Input, e: Entity, bound: set<DurableId>, id: DurableId) {
    && id !in bound
    && AnchorInScope(inp.reg, id, inp.scope)
    && id in inp.reg.byId
    && (inp.reg.byId[id].path != e.path || inp.reg.byId[id].path !in inp.reg.byPath)
  }

  ghost function HashCandidates(inp: Input, e: Entity, bound: set<DurableId>): map<DurableId, nat> {
    map id | id in ListAt(inp.reg.byHash, e.hash) && HashCandidate(inp, e, bound, id) :: 0
  }

  predicate StructCandidate(inp: Input, e: Entity, bound: set<DurableId>, id: DurableId)
    requires id in inp.reg.byId
  {
    var a := inp.reg.byId[id];
    && id !in bound
    && AnchorInScope(inp.reg, id, inp.scope)
    && LeafName(a.path) == e.name
    && a.kind == e.kind
    && Container(a.path) == e.container
  }

  ghost function StructCandidates(inp: Input, e: Entity, bound: set<DurableId>): map<DurableId, nat> {
    map id | id in inp.reg.byId && StructCandidate(inp, e, bound, id) ::
      EditDistance.Distance(inp.reg.byId[id].path, e.path)
  }

  function OldHash(reg: Registry, id: DurableId, e: Entity): ContentHash {
    if id in reg.byId then reg.byId[id].hash else e.hash
  }

  ghost function Offer(pass: Pass, inp: Input, e: Entity, m: Progress): Option<Binding> {
    match pass
    case ExactPass =>
      if e.path in inp.reg.byPath && inp.reg.byPath[e.path] !in m.bound then
        Some(Exact(inp.reg.byPath[e.path], OldHash(inp.reg, inp.reg.byPath[e.path], e)))
      else None
    case HashPass =>
      var c := HashCandidates(inp, e, m.bound);
      if c == map[] then None
      else Some(Moved(Closest(c), inp.reg.byId[Closest(c)].path, inp.reg.byId[Closest(c)].hash))
    case StructPass =>
      var c := StructCandidates(inp, e, m.bound);
      if c == map[] then None else Some(Struct(Closest(c), inp.reg.byId[Closest(c)].hash))
    case MintPass => Some(Minted(inp.supply(m.minted)))
  }

  /** Structural binds, and exact binds whose body changed, are flagged for review. */
  predicate Flagged(b: Binding, e: Entity) {
    b.Struct? || (b.Exact? && b.oldHash != e.hash)
  }

  function Record(m: Progress, i: nat, e: Entity, b: Binding): Progress {
    Progress(
      m.bound + {b.id},
      m.matched + {i},
      m.bindings + [(e.path, b)],
      m.byPath[e.path := b],
      if Flagged(b, e) then m.review + [b.id] else m.review,
      if b.Minted? then m.minted + 1 else m.minted)
  }

  ghost function Step(pass: Pass, inp: Input, i: nat, m: Progress): Progress
    requires i < |inp.es|
  {
    if i in m.matched then m
    else
      match Offer(pass, inp, inp.es[i], m)
      case None => m
      case Some(b) => Record(m, i, inp.es[i], b)
  }

  /** One pass over the first `n` entities. */
  ghost function RunPass(pass: Pass, inp: Input, n: nat, m: Progress): Progress
    requires n <= |inp.es|
  {
    if n == 0 then m else Step(pass, inp, n - 1, RunPass(pass, inp, n - 1, m))
  }

  /** What every step of a pass keeps, the pass keeps. */
  lemma {:induction false} PassInduction(pass: Pass, inp: Input, n: nat, m: Progress, keeps: Progress -> bool)
    requires n <= |inp.es| && keeps(m)
    requires forall i: nat, p :: i < |inp.es| && keeps(p) ==> keeps(Step(pass, inp, i, p))
    ensures keeps(RunPass(pass, inp, n, m))
  {
    if n > 0 {
      PassInduction(pass, inp, n - 1, m, keeps);
    }
  }

  ghost function AfterExact(inp: Input): Progress { RunPass(ExactPass, inp, |inp.es|, START) }

  ghost function AfterHash(inp: Input): Progress { RunPass(HashPass, inp, |inp.es|, AfterExact(inp)) }

  ghost function AfterStruct(inp: Input): Progress { RunPass(StructPass, inp, |inp.es|, AfterHash(inp)) }

  ghost function Matched(inp: Input): Progress { RunPass(MintPass, inp, |inp.es|, AfterStruct(inp)) }

  // ---- What every pass keeps --------------------------------------------------------

  ghost predicate DistinctPaths(es: seq<Entity>) {
    forall i, j :: 0 <= i < j < |es| ==> es[i].path != es[j].path
  }

  ghost predicate Fresh(supply: nat -> DurableId, reg: Registry) {
    && (forall k: nat :: supply(k) !in reg.byId)
    && (forall j: nat, k: nat :: j != k ==> supply(j) != supply(k))
  }

  /** What a binding of `e` promises about the registry that was matched against. */
  ghost predicate Justified(inp: Input, e: Entity, b: Binding) {
    match b
    case Exact(id, oldHash) =>
      && e.path in inp.reg.byPath && inp.reg.byPath[e.path] == id
      && id in inp.reg.byId && inp.reg.byId[id].path == e.path && inp.reg.byId[id].hash == oldHash
    case Moved(id, oldPath, oldHash) =>
      && id in inp.reg.byId && AnchorInScope(inp.reg, id, inp.scope)
      && inp.reg.byId[id].path == oldPath && inp.reg.byId[id].hash == oldHash == e.hash
    case Struct(id, oldHash) =>
      && id in inp.reg.byId && AnchorInScope(inp.reg, id, inp.scope)
      && LeafName(inp.reg.byId[id].path) == e.name && inp.reg.byId[id].kind == e.kind
      && Container(inp.reg.byId[id].path) == e.container && inp.reg.byId[id].hash == oldHash
    case Minted(id) => id !in inp.reg.byId
  }

  /** The binding recorded for entity `i`. */
  ghost predicate Has(inp: Input, m: Progress, i: nat) {
    i < |inp.es| && inp.es[i].path in m.byPath
  }

  ghost function At(inp: Input, m: Progress, i: nat): Binding
    requires Has(inp, m, i)
  {
    m.byPath[inp.es[i].path]
  }

  ghost predicate Owns(inp: Input, m: Progress, i: nat, id: DurableId) {
    i in m.matched && Has(inp, m, i) && At(inp, m, i).id == id
  }

  /** Matched entities are those with a binding, each justified and each with its own id. */
  ghost predicate OneToOne(inp: Input, m: Progress) {
    && (forall i :: i in m.matched ==> Has(inp, m, i))
    && (forall i :: Has(inp, m, i) ==> i in m.matched)
    && (forall i :: i in m.matched ==> Justified(inp, inp.es[i], At(inp, m, i)))
    && (forall i, j :: i in m.matched && j in m.matched && i != j ==> At(inp, m, i).id != At(inp, m, j).id)
    && (forall i :: i in m.matched ==> At(inp, m, i).id in m.bound)
  }

  /** Bound ids belong to matched entities, and new ones were minted. */
  ghost predicate AllOwned(inp: Input, m: Progress) {
    && (forall id :: id in m.bound ==> exists i :: Owns(inp, m, i, id))
    && (forall id :: id in m.bound && id !in inp.reg.byId ==> exists k: nat :: k < m.minted && inp.supply(k) == id)
  }

  ghost predicate ReviewsFlagged(inp: Input, m: Progress)
    requires OneToOne(inp, m)
  {
    && (forall i :: i in m.matched ==> (At(inp, m, i).id in m.review <==> Flagged(At(inp, m, i), inp.es[i])))
    && (forall id :: id in m.review ==> id in m.bound)
  }

  ghost predicate Consistent(inp: Input, m: Progress) {
    OneToOne(inp, m) && AllOwned(inp, m) && ReviewsFlagged(inp, m)
  }

  lemma OfferIsJustified(pass: Pass, inp: Input, e: Entity, m: Progress)
    requires Indexed(inp.reg) && Fresh(inp.supply, inp.reg) && Offer(pass, inp, e, m).Some?
    requires forall id :: id in m.bound && id !in inp.reg.byId ==> exists k: nat :: k < m.minted && inp.supply(k) == id
    ensures Justified(inp, e, Offer(pass, inp, e, m).value)
    ensures Offer(pass, inp, e, m).value.id !in m.bound
  {
    match pass
    case ExactPass =>
    case HashPass =>
      var c := HashCandidates(inp, e, m.bound);
      HashListed(inp.reg, e.hash, Closest(c));
    case StructPass =>
    case MintPass =>
  }

  lemma RecordKeepsOwners(inp: Input, m: Progress, i: nat, b: Binding)
    requires DistinctPaths(inp.es) && Consistent(inp, m)
    requires i < |inp.es| && i !in m.matched
    ensures Owns(inp, Record(m, i, inp.es[i], b), i, b.id)
    ensures forall j, id :: Owns(inp, m, j, id) ==> Owns(inp, Record(m, i, inp.es[i], b), j, id)
    ensures forall j :: j in m.matched ==>
              Has(inp, m, j) && Has(inp, Record(m, i, inp.es[i], b), j) &&
              At(inp, Record(m, i, inp.es[i], b), j) == At(inp, m, j)
  {
    var m' := Record(m, i, inp.es[i], b);
    forall j | j in m.matched
      ensures Has(inp, m, j) && Has(inp, m', j) && At(inp, m', j) == At(inp, m, j)
    {
      assert Has(inp, m, j);
      assert inp.es[j].path != inp.es[i].path;
    }
  }

  lemma RecordHasMatched(inp: Input, m: Progress, i: nat, b: Binding, j: nat)
    requires DistinctPaths(inp.es) && Consistent(inp, m)
    requires i < |inp.es| && i !in m.matched && Has(inp, Record(m, i, inp.es[i], b), j)
    ensures j in m.matched + {i}
  {
    if j != i {
      assert inp.es[j].path != inp.es[i].path;
      assert Has(inp, m, j);
    }
  }

  lemma RecordBoundIsOwned(inp: Input, m: Progress, i: nat, b: Binding, id: DurableId)
    requires DistinctPaths(inp.es) && Consistent(inp, m)
    requires i < |inp.es| && i !in m.matched && id in m.bound + {b.id}
    ensures exists j :: Owns(inp, Record(m, i, inp.es[i], b), j, id)
  {
    var m' := Record(m, i, inp.es[i], b);
    RecordKeepsOwners(inp, m, i, b);
    if id == b.id {
      assert Owns(inp, m', i, id);
    } else {
      var j :| Owns(inp, m, j, id);
      assert Owns(inp, m', j, id);
    }
  }

  lemma RecordNewIsMinted(inp: Input, m: Progress, i: nat, b: Binding, id: DurableId)
    requires Consistent(inp, m) && i < |inp.es| && Justified(inp, inp.es[i], b)
    requires b.Minted? ==> b.id == inp.supply(m.minted)
    requires id in m.bound + {b.id} && id !in inp.reg.byId
    ensures exists k: nat :: k < Record(m, i, inp.es[i], b).minted && inp.supply(k) == id
  {
    if id == b.id {
      assert inp.supply(m.minted) == id;
    } else {
      var k: nat :| k < m.minted && inp.supply(k) == id;
    }
  }

  lemma RecordKeepsOneToOne(inp: Input, m: Progress, i: nat, b: Binding)
    requires DistinctPaths(inp.es) && Consistent(inp, m)
    requires i < |inp.es| && i !in m.matched && Justified(inp, inp.es[i], b) && b.id !in m.bound
    ensures OneToOne(inp, Record(m, i, inp.es[i], b))
  {
    var m' := Record(m, i, inp.es[i], b);
    RecordKeepsOwners(inp, m, i, b);
    forall j: nat | Has(inp, m', j)
      ensures j in m'.matched
    {
      RecordHasMatched(inp, m, i, b, j);
    }
  }

  lemma RecordKeepsOwned(inp: Input, m: Progress, i: nat, b: Binding)
    requires DistinctPaths(inp.es) && Consistent(inp, m)
    requires i < |inp.es| && i !in m.matched && Justified(inp, inp.es[i], b)
    requires b.Minted? ==> b.id == inp.supply(m.minted)
    ensures AllOwned(inp, Record(m, i, inp.es[i], b))
  {
    var m' := Record(m, i, inp.es[i], b);
    forall id | id in m'.bound
      ensures exists j :: Owns(inp, m', j, id)
    {
      RecordBoundIsOwned(inp, m, i, b, id);
    }
    forall id | id in m'.bound && id !in inp.reg.byId
      ensures exists k: nat :: k < m'.minted && inp.supply(k) == id
    {
      RecordNewIsMinted(inp, m, i, b, id);
    }
  }

  lemma RecordKeepsConsistent(inp: Input, m: Progress, i: nat, b: Binding)
    requires DistinctPaths(inp.es) && Consistent(inp, m)
    requires i < |inp.es| && i !in m.matched
    requires Justified(inp, inp.es[i], b) && b.id !in m.bound
    requires b.Minted? ==> b.id == inp.supply(m.minted)
    ensures Consistent(inp, Record(m, i, inp.es[i], b))
  {
    var m' := Record(m, i, inp.es[i], b);
    RecordKeepsOneToOne(inp, m, i, b);
    RecordKeepsOwned(inp, m, i, b);
    RecordKeepsOwners(inp, m, i, b);
    assert forall x :: x in m'.review <==> x in m.review || (Flagged(b, inp.es[i]) && x == b.id);
  }

  ghost predicate Usable(inp: Input) {
    DistinctPaths(inp.es) && Indexed(inp.reg) && Fresh(inp.supply, inp.reg)
  }

  lemma StepKeepsConsistent(pass: Pass, inp: Input, i: nat, m: Progress)
    requires Usable(inp) && i < |inp.es| && Consistent(inp, m)
    ensures Consistent(inp, Step(pass, inp, i, m))
  {
    if i !in m.matched && Offer(pass, inp, inp.es[i], m).Some? {
      OfferIsJustified(pass, inp, inp.es[i], m);
      RecordKeepsConsistent(inp, m, i, Offer(pass, inp, inp.es[i], m).value);
    }
  }

  ghost predicate Extends(inp: Input, m: Progress, m': Progress) {
    && m.matched <= m'.matched
    && forall i :: i in m.matched ==> Has(inp, m, i) && Has(inp, m', i) && At(inp, m', i) == At(inp, m, i)
  }

  lemma StepExtends(pass: Pass, inp: Input, i: nat, m: Progress)
    requires Usable(inp) && i < |inp.es| && Consistent(inp, m)
    ensures Extends(inp, m, Step(pass, inp, i, m))
  {
    if i !in m.matched && Offer(pass, inp, inp.es[i], m).Some? {
      RecordKeepsOwners(inp, m, i, Offer(pass, inp, inp.es[i], m).value);
    }
  }

  /** Every pass keeps the matching consistent and only adds bindings to it. */
  lemma PassKeepsConsistent(pass: Pass, inp: Input, n: nat, m: Progress)
    requires Usable(inp) && n <= |inp.es| && Consistent(inp, m)
    ensures Consistent(inp, RunPass(pass, inp, n, m))
    ensures Extends(inp, m, RunPass(pass, inp, n, m))
  {
    var keeps := (p: Progress) => Consistent(inp, p) && Extends(inp, m, p);
    forall i: nat, p | i < |inp.es| && keeps(p)
      ensures keeps(Step(pass, inp, i, p))
    {
      StepKeepsConsistent(pass, inp, i, p);
      StepExtends(pass, inp, i, p);
      ExtendsTransitive(inp, m, p, Step(pass, inp, i, p));
    }
    PassInduction(pass, inp, n, m, keeps);
  }

  lemma ExtendsTransitive(inp: Input, a: Progress, b: Progress, c: Progress)
    requires Extends(inp, a, b) && Extends(inp, b, c)
    ensures Extends(inp, a, c)
  {
  }

  /** So far only exact bindings, and one for each of the first `n` paths that is indexed. */
  ghost predicate ExactSoFar(inp: Input, n: nat, m: Progress) {
    && Consistent(inp, m)
    && (forall i :: i in m.matched ==> i < n && Has(inp, m, i) && At(inp, m, i).Exact?)
    && (forall i: nat :: i < n && i < |inp.es| && inp.es[i].path in inp.reg.byPath ==> i in m.matched)
  }

  /** The id indexed under an entity's path is still free when its turn comes. */
  lemma ExactOffers(inp: Input, i: nat, m: Progress)
    requires Usable(inp) && i < |inp.es| && ExactSoFar(inp, i, m) && inp.es[i].path in inp.reg.byPath
    ensures Offer(ExactPass, inp, inp.es[i], m).Some?
  {
  }

  lemma ExactStepBinds(inp: Input, n: nat, m: Progress)
    requires Usable(inp) && 0 < n <= |inp.es| && ExactSoFar(inp, n - 1, m)
    ensures ExactSoFar(inp, n, Step(ExactPass, inp, n - 1, m))
  {
    var m' := Step(ExactPass, inp, n - 1, m);
    StepKeepsConsistent(ExactPass, inp, n - 1, m);
    StepExtends(ExactPass, inp, n - 1, m);
    if inp.es[n - 1].path in inp.reg.byPath {
      ExactOffers(inp, n - 1, m);
    }
    forall i | i in m'.matched
      ensures i < n && Has(inp, m', i) && At(inp, m', i).Exact?
    {
      if i in m.matched {
        assert At(inp, m', i) == At(inp, m, i);
      }
    }
  }

  lemma {:induction false} ExactPassBinds(inp: Input, n: nat)
    requires Usable(inp) && n <= |inp.es|
    ensures ExactSoFar(inp, n, RunPass(ExactPass, inp, n, START))
  {
    if n > 0 {
      ExactPassBinds(inp, n - 1);
      ExactStepBinds(inp, n, RunPass(ExactPass, inp, n - 1, START));
    }
  }

  lemma {:induction false} MintPassBinds(inp: Input, n: nat, m: Progress)
    requires n <= |inp.es|
    ensures m.matched <= RunPass(MintPass, inp, n, m).matched
    ensures forall i: nat :: i < n ==> i in RunPass(MintPass, inp, n, m).matched
  {
    if n > 0 {
      MintPassBinds(inp, n - 1, m);
    }
  }

  /** The finished matching binds every entity, each to an id of its own, and an
      entity whose path is indexed keeps exactly the id indexed there. */
  lemma MatchingIsComplete(inp: Input)
    requires Usable(inp)
    ensures Consistent(inp, Matched(inp))
    ensures forall i: nat :: i < |inp.es| ==> i in Matched(inp).matched && Has(inp, Matched(inp), i)
    ensures forall i: nat :: i < |inp.es| && inp.es[i].path in inp.reg.byPath ==>
              At(inp, Matched(inp), i).Exact?
    ensures forall i: nat :: i < |inp.es| && inp.es[i].path in inp.reg.byPath ==>
              At(inp, Matched(inp), i).id == inp.reg.byPath[inp.es[i].path]
  {
    var n := |inp.es|;
    var a, b, c, d := AfterExact(inp), AfterHash(inp), AfterStruct(inp), Matched(inp);
    ExactPassBinds(inp, n);
    PassKeepsConsistent(HashPass, inp, n, a);
    PassKeepsConsistent(StructPass, inp, n, b);
    PassKeepsConsistent(MintPass, inp, n, c);
    MintPassBinds(inp, n, c);
    forall i: nat | i < n && inp.es[i].path in inp.reg.byPath
      ensures Has(inp, d, i) && At(inp, d, i).Exact? && At(inp, d, i).id == inp.reg.byPath[inp.es[i].path]
    {
      assert i in a.matched && i in b.matched && i in c.matched;
      assert Justified(inp, inp.es[i], At(inp, d, i));
    }
  }
}
