/** The id-level classification of a reconciliation: created, changed, moved, deleted. */
module Classification {
  import opened Wrappers
  import opened Orders
  import opened Identity
  import opened Matching
  import opened Reconcile
  import opened AppliedFacts
  import opened ReconcileTheorems
  import opened MatchingTheorems

  datatype Move = Move(id: DurableId, oldPath: string, newPath: string, oldFile: string, newFile: string)

  datatype Classes = Classes(created: seq<DurableId>, changed: seq<DurableId>, moved: seq<Move>)

  function FileOfPath(path: string): string {
    match AnchorFile(path)
    case Some(file) => file
    case None => path
  }

  /** Entities by path; a later entity replaces an earlier one at the same path. */
  function ByPath(entities: seq<Entity>): map<string, Entity> {
    if entities == [] then map[]
    else
      var last := entities[|entities| - 1];
      ByPath(entities[..|entities| - 1])[last.path := last]
  }

  predicate HashChanged(entities: map<string, Entity>, path: string, oldHash: ContentHash) {
    path !in entities || entities[path].hash != oldHash
  }

  function MoveOf(entities: map<string, Entity>, path: string, b: Binding): Move
    requires b.Moved?
  {
    Move(b.id, b.oldPath, path, FileOfPath(b.oldPath),
         if path in entities then entities[path].file else FileOfPath(path))
  }

  function ClassifyOne(c: Classes, entities: map<string, Entity>, path: string, b: Binding): Classes {
    match b
    case Minted(id) => c.(created := c.created + [id])
    case Exact(id, oldHash) => if HashChanged(entities, path, oldHash) then c.(changed := c.changed + [id]) else c
    case Struct(id, oldHash) => if HashChanged(entities, path, oldHash) then c.(changed := c.changed + [id]) else c
    case Moved(id, _, _) => c.(moved := c.moved + [MoveOf(entities, path, b)])
  }

  function Classify(entities: map<string, Entity>, bindings: seq<(string, Binding)>): Classes {
    if bindings == [] then Classes([], [], [])
    else
      var n := |bindings| - 1;
      ClassifyOne(Classify(entities, bindings[..n]), entities, bindings[n].0, bindings[n].1)
  }

  /** The classification as the commit computes it: index the entities, then sort each
      binding into its class. */
  method ClassifyBindings(entities: seq<Entity>, bindings: seq<(string, Binding)>) returns (c: Classes)
    ensures c == Classify(ByPath(entities), bindings)
  {
    var byPath: map<string, Entity> := map[];
    for i := 0 to |entities|
      invariant byPath == ByPath(entities[..i])
    {
      assert entities[..i + 1][..i] == entities[..i];
      byPath := byPath[entities[i].path := entities[i]];
    }
    assert entities[..|entities|] == entities;
    var created, changed, moved := [], [], [];
    for i := 0 to |bindings|
      invariant Classes(created, changed, moved) == Classify(ByPath(entities), bindings[..i])
    {
      assert bindings[..i + 1][..i] == bindings[..i];
      var path := bindings[i].0;
      match bindings[i].1
      case Minted(id) =>
        created := created + [id];
      case Exact(id, oldHash) =>
        if HashChanged(byPath, path, oldHash) {
          changed := changed + [id];
        }
      case Struct(id, oldHash) =>
        if HashChanged(byPath, path, oldHash) {
          changed := changed + [id];
        }
      case Moved(_, _, _) =>
        moved := moved + [MoveOf(byPath, path, bindings[i].1)];
    }
    assert bindings[..|bindings|] == bindings;
    c := Classes(created, changed, moved);
  }

  // ---- Membership in the classes -----------------------------------------------------

  ghost predicate Creates(b: (string, Binding), id: DurableId) {
    b.1 == Minted(id)
  }

  ghost predicate Changes(entities: map<string, Entity>, b: (string, Binding), id: DurableId) {
    (b.1.Exact? || b.1.Struct?) && b.1.id == id && HashChanged(entities, b.0, b.1.oldHash)
  }

  lemma {:induction false} ClassMembers(entities: map<string, Entity>, bs: seq<(string, Binding)>)
    ensures forall id :: id in Classify(entities, bs).created <==> exists b :: b in bs && Creates(b, id)
    ensures forall id :: id in Classify(entities, bs).changed <==> exists b :: b in bs && Changes(entities, b, id)
    ensures forall mv :: mv in Classify(entities, bs).moved <==>
              exists b :: b in bs && b.1.Moved? && mv == MoveOf(entities, b.0, b.1)
  {
    if bs != [] {
      var n := |bs| - 1;
      ClassMembers(entities, bs[..n]);
      var p, c := Classify(entities, bs[..n]), Classify(entities, bs);
      assert forall b :: b in bs <==> b in bs[..n] || b == bs[n];
      assert forall id :: id in c.created <==> id in p.created || Creates(bs[n], id);
      assert forall id :: id in c.changed <==> id in p.changed || Changes(entities, bs[n], id);
      assert forall mv :: mv in c.moved <==>
          mv in p.moved || (bs[n].1.Moved? && mv == MoveOf(entities, bs[n].0, bs[n].1));
    }
  }

  lemma {:induction false} ByPathFinds(entities: seq<Entity>, e: Entity)
    requires DistinctPaths(entities) && e in entities
    ensures e.path in ByPath(entities) && ByPath(entities)[e.path] == e
  {
    var n := |entities| - 1;
    if entities[n] != e {
      assert e in entities[..n];
      ByPathFinds(entities[..n], e);
    }
  }

  /** What a listed binding says about the registry before and after. */
  lemma BindingMeans(reg: Registry, entities: seq<Entity>, rev: Revision, scope: Option<set<string>>,
                     supply: nat -> DurableId, b: (string, Binding))
    requires Reconcilable(reg, entities, supply)
    requires b in Reconciled(reg, entities, rev, scope, supply).bindings
    ensures var o := Reconciled(reg, entities, rev, scope, supply); var id := b.1.id;
            && id in o.bound && id in o.registry.byId && o.registry.byId[id].path == b.0
            && (b.1.Minted? <==> id !in reg.byId)
            && b.0 in ByPath(entities) && o.registry.byId[id].hash == ByPath(entities)[b.0].hash
            && (!b.1.Minted? ==> reg.byId[id].hash == b.1.oldHash)
            && (b.1.Exact? <==> b.0 in reg.byPath)
            && (b.1.Struct? ==> o.registry.byId[id].hash != b.1.oldHash)
            && ByPath(entities)[b.0] in entities && ByPath(entities)[b.0].path == b.0
            && (b.1.Moved? ==> reg.byId[id].path == b.1.oldPath && o.registry.byId[id].hash == b.1.oldHash)
  {
    var inp := Input(reg, Sorted(entities), scope, supply);
    InputUsable(reg, entities, scope, supply);
    var k :| 0 <= k < |Matched(inp).bindings| && Matched(inp).bindings[k] == b;
    var i := ListedBinding(inp, k);
    BindingFacts(inp, i);
    FinalBound(inp, rev, i);
    ByPathFinds(entities, inp.es[i]);
    if b.1.Struct? {
      StructChangesHash(inp, i);
    }
  }

  /** The file a move comes from: that of its old path, or the whole path if it has no file. */
  ghost predicate ComesFrom(mv: Move) {
    LiesIn(mv.oldPath, mv.oldFile) || (mv.oldFile == mv.oldPath && forall k :: !SepAt(mv.oldPath, k))
  }

  ghost predicate MovesTo(mv: Move, reg: Registry, o: Outcome, entities: seq<Entity>) {
    && mv.id in reg.byId && mv.id in o.bound && mv.id in o.registry.byId
    && reg.byId[mv.id].hash == o.registry.byId[mv.id].hash
    && reg.byId[mv.id].path == mv.oldPath && o.registry.byId[mv.id].path == mv.newPath
    && ComesFrom(mv) && exists e :: e in entities && e.path == mv.newPath && e.file == mv.newFile
  }

  /** An id is `changed` exactly when it was anchored before, is bound now and its hash
      differs; `created` are the bound ids that were not anchored; `moved` are those bound
      with the same hash to a path that was not indexed, each from its old path and file to
      its new ones. */
  lemma ClassificationIsPrecise(reg: Registry, entities: seq<Entity>, rev: Revision,
                                scope: Option<set<string>>, supply: nat -> DurableId)
    requires Reconcilable(reg, entities, supply)
    ensures var o := Reconciled(reg, entities, rev, scope, supply);
            var c := Classify(ByPath(entities), o.bindings);
            && (forall id :: id in o.bound ==> id in o.registry.byId)
            && (forall id :: id in c.changed <==>
                  id in reg.byId && id in o.bound && reg.byId[id].hash != o.registry.byId[id].hash)
            && (forall id :: id in c.created <==> id in o.bound && id !in reg.byId)
            && (forall mv :: mv in c.moved ==> MovesTo(mv, reg, o, entities))
            && (forall id :: (exists mv :: mv in c.moved && mv.id == id) <==>
                  id in reg.byId && id in o.bound && reg.byId[id].hash == o.registry.byId[id].hash
                  && o.registry.byId[id].path !in reg.byPath)
  {
    var o := Reconciled(reg, entities, rev, scope, supply);
    ReconcileBindings(reg, entities, rev, scope, supply);
    ClassMembers(ByPath(entities), o.bindings);
    forall b | b in o.bindings
      ensures b.1.id in o.registry.byId
      ensures Creates(b, b.1.id) <==> b.1.id !in reg.byId
      ensures Changes(ByPath(entities), b, b.1.id) <==>
                b.1.id in reg.byId && reg.byId[b.1.id].hash != o.registry.byId[b.1.id].hash
    {
      BindingMeans(reg, entities, rev, scope, supply, b);
    }
    forall id | id in o.bound
      ensures exists b :: b in o.bindings && b.1.id == id
    {
      var k :| 0 <= k < |o.bindings| && o.bindings[k].1.id == id;
      assert o.bindings[k] in o.bindings;
    }
    forall mv | mv in Classify(ByPath(entities), o.bindings).moved
      ensures MovesTo(mv, reg, o, entities)
    {
      MoveIsTrue(reg, entities, rev, scope, supply, mv);
    }
    ChangedIffHashDiffers(reg, o, ByPath(entities));
    forall id
      ensures (exists mv :: mv in Classify(ByPath(entities), o.bindings).moved && mv.id == id) <==>
              id in reg.byId && id in o.bound && reg.byId[id].hash == o.registry.byId[id].hash
              && o.registry.byId[id].path !in reg.byPath
    {
      MovedIff(reg, entities, rev, scope, supply, id);
    }
  }

  lemma OldFileOf(path: string)
    ensures LiesIn(path, FileOfPath(path)) || (FileOfPath(path) == path && forall k :: !SepAt(path, k))
  {
    if AnchorFile(path).Some? {
      FileOfPathIff(path, AnchorFile(path).value);
    }
  }

  lemma MoveIsTrue(reg: Registry, entities: seq<Entity>, rev: Revision, scope: Option<set<string>>,
                   supply: nat -> DurableId, mv: Move)
    requires Reconcilable(reg, entities, supply)
    requires mv in Classify(ByPath(entities), Reconciled(reg, entities, rev, scope, supply).bindings).moved
    ensures MovesTo(mv, reg, Reconciled(reg, entities, rev, scope, supply), entities)
  {
    var o := Reconciled(reg, entities, rev, scope, supply);
    ClassMembers(ByPath(entities), o.bindings);
    var b :| b in o.bindings && b.1.Moved? && mv == MoveOf(ByPath(entities), b.0, b.1);
    BindingMeans(reg, entities, rev, scope, supply, b);
    OldFileOf(mv.oldPath);
    var e := ByPath(entities)[b.0];
    assert e in entities && e.path == mv.newPath && e.file == mv.newFile;
  }

  lemma MovedIff(reg: Registry, entities: seq<Entity>, rev: Revision, scope: Option<set<string>>,
                 supply: nat -> DurableId, id: DurableId)
    requires Reconcilable(reg, entities, supply)
    ensures var o := Reconciled(reg, entities, rev, scope, supply);
            (exists mv :: mv in Classify(ByPath(entities), o.bindings).moved && mv.id == id) <==>
            id in reg.byId && id in o.bound && id in o.registry.byId && reg.byId[id].hash == o.registry.byId[id].hash
            && o.registry.byId[id].path !in reg.byPath
  {
    var o := Reconciled(reg, entities, rev, scope, supply);
    ReconcileBindings(reg, entities, rev, scope, supply);
    ClassMembers(ByPath(entities), o.bindings);
    var moved := Classify(ByPath(entities), o.bindings).moved;
    if mv :| mv in moved && mv.id == id {
      var b :| b in o.bindings && b.1.Moved? && mv == MoveOf(ByPath(entities), b.0, b.1);
      BindingMeans(reg, entities, rev, scope, supply, b);
    }
    if id in o.bound {
      var k :| 0 <= k < |o.bindings| && o.bindings[k].1.id == id;
      var b := o.bindings[k];
      BindingMeans(reg, entities, rev, scope, supply, b);
      if b.1.Moved? {
        assert MoveOf(ByPath(entities), b.0, b.1) in moved;
      }
    }
  }

  lemma ChangedIffHashDiffers(reg: Registry, o: Outcome, entities: map<string, Entity>)
    requires forall b :: b in o.bindings ==> b.1.id in o.registry.byId && b.1.id in o.bound
    requires forall b :: b in o.bindings ==> (Creates(b, b.1.id) <==> b.1.id !in reg.byId)
    requires forall b :: b in o.bindings ==>
               (Changes(entities, b, b.1.id) <==>
                 b.1.id in reg.byId && reg.byId[b.1.id].hash != o.registry.byId[b.1.id].hash)
    requires forall id :: id in o.bound ==> exists b :: b in o.bindings && b.1.id == id
    ensures forall id :: id in Classify(entities, o.bindings).changed <==>
              id in o.bound && id in reg.byId && id in o.registry.byId && reg.byId[id].hash != o.registry.byId[id].hash
    ensures forall id :: id in Classify(entities, o.bindings).created <==> id in o.bound && id !in reg.byId
  {
    ClassMembers(entities, o.bindings);
    forall id | id in o.bound
      ensures id in Classify(entities, o.bindings).changed <==>
                id in reg.byId && id in o.registry.byId && reg.byId[id].hash != o.registry.byId[id].hash
      ensures id in Classify(entities, o.bindings).created <==> id !in reg.byId
    {
      var b :| b in o.bindings && b.1.id == id;
      assert Creates(b, id) <==> id !in reg.byId;
    }
  }

  /** The four classes never overlap. */
  lemma ClassesAreDisjoint(reg: Registry, entities: seq<Entity>, rev: Revision,
                           scope: Option<set<string>>, supply: nat -> DurableId, id: DurableId)
    requires Reconcilable(reg, entities, supply)
    ensures var o := Reconciled(reg, entities, rev, scope, supply);
            var c := Classify(ByPath(entities), o.bindings);
            && !(id in c.created && id in c.changed)
            && (id in c.created || id in c.changed ==> forall mv :: mv in c.moved ==> mv.id != id)
            && (id in o.retired ==>
                  id !in c.created && id !in c.changed && forall mv :: mv in c.moved ==> mv.id != id)
  {
    ClassificationIsPrecise(reg, entities, rev, scope, supply);
    ReconcileAnchors(reg, entities, rev, scope, supply);
  }

  // ---- Read off the registries before and after -----------------------------------------------

  /** The entity's body changed: its id is in both registries, with different hashes. */
  ghost predicate Edited(before: Registry, after: Registry, id: DurableId) {
    id in before.byId && id in after.byId && before.byId[id].hash != after.byId[id].hash
  }

  /** The entity vanished: its anchor was live and is an orphan now. */
  ghost predicate Vanished(before: Registry, after: Registry, id: DurableId) {
    Live(before, id) && id in after.byId && after.byId[id].status == Orphaned
  }

  /** The entity was found at this revision. */
  ghost predicate Seen(after: Registry, id: DurableId, rev: nat) {
    Live(after, id) && after.byId[id].lastSeen == rev
  }

  /** It was found with the body it had, at a path that no anchor was indexed under. */
  ghost predicate Relocated(before: Registry, after: Registry, id: DurableId, rev: nat) {
    id in before.byId && Seen(after, id, rev) && before.byId[id].hash == after.byId[id].hash && after.byId[id].path !in before.byPath
  }

  /** No anchor was seen at a revision yet to come. */
  ghost predicate NotAhead(registry: Registry, rev: nat) {
    forall id :: id in registry.byId ==> registry.byId[id].lastSeen <= rev
  }

  /** The bound ids are those that were found. */
  lemma BoundIffSeen(reg: Registry, entities: seq<Entity>, rev: Revision, scope: Option<set<string>>,
                     supply: nat -> DurableId, id: DurableId)
    requires Reconcilable(reg, entities, supply)
    ensures var o := Reconciled(reg, entities, rev, scope, supply);
            && (id in o.bound ==> Seen(o.registry, id, rev))
            && (id !in o.bound && (id in reg.byId ==> reg.byId[id].lastSeen < rev) ==> !Seen(o.registry, id, rev))
  {
    var o := Reconciled(reg, entities, rev, scope, supply);
    ReconcileAnchors(reg, entities, rev, scope, supply);
    if id in o.bound {
      ReconcileBindings(reg, entities, rev, scope, supply);
      var k :| 0 <= k < |o.bindings| && o.bindings[k].1.id == id;
      BindingMeans(reg, entities, rev, scope, supply, o.bindings[k]);
      BoundAnchor(reg, entities, rev, scope, supply, k, ByPath(entities)[o.bindings[k].0]);
    }
  }

  lemma SeenBy(reg: Registry, entities: seq<Entity>, rev: Revision, scope: Option<set<string>>,
               supply: nat -> DurableId, id: DurableId)
    requires Reconcilable(reg, entities, supply) && id in Reconciled(reg, entities, rev, scope, supply).registry.byId
    requires id in reg.byId ==> reg.byId[id].lastSeen <= rev
    ensures Reconciled(reg, entities, rev, scope, supply).registry.byId[id].lastSeen <= rev
  {
    ReconcileAnchors(reg, entities, rev, scope, supply);
    BoundIffSeen(reg, entities, rev, scope, supply, id);
  }

  /** Changed, created and retired ids, in terms of what the two registries hold. */
  lemma ClassesShow(reg: Registry, entities: seq<Entity>, rev: Revision, scope: Option<set<string>>,
                    supply: nat -> DurableId, id: DurableId)
    requires Reconcilable(reg, entities, supply)
    ensures var o := Reconciled(reg, entities, rev, scope, supply); var c := Classify(ByPath(entities), o.bindings);
            && (id in c.changed <==> Edited(reg, o.registry, id))
            && (id in c.created <==> id in o.registry.byId && id !in reg.byId)
            && (id in o.retired <==> Vanished(reg, o.registry, id))
  {
    ClassificationIsPrecise(reg, entities, rev, scope, supply);
    ReconcileAnchors(reg, entities, rev, scope, supply);
    BoundIffSeen(reg, entities, rev, scope, supply, id);
  }

  lemma MovedShows(reg: Registry, entities: seq<Entity>, rev: Revision, scope: Option<set<string>>,
                   supply: nat -> DurableId, id: DurableId)
    requires Reconcilable(reg, entities, supply) && (id in reg.byId ==> reg.byId[id].lastSeen < rev)
    ensures var o := Reconciled(reg, entities, rev, scope, supply);
            (exists mv :: mv in Classify(ByPath(entities), o.bindings).moved && mv.id == id) <==> Relocated(reg, o.registry, id, rev)
  {
    MovedIff(reg, entities, rev, scope, supply, id);
    BoundIffSeen(reg, entities, rev, scope, supply, id);
  }
}
