/** The code layer: nodes, edges, the maintained reverse-dependency index, the affected
    closure and the minimal diff. */
module CodeLayer {
  import opened Wrappers

  /** The three populations of nodes. The program spells a module id `<module>file` and
      an external id `owner::name`; here the spelling is taken to be injective. */
  datatype NodeId = EntityId(durableId: string) | ModuleId(moduleFile: string) | ExternalId(owner: string, member: string)

  datatype EdgeKind = Defines | Contains | References | Imports | Inherits | Overrides

  predicate IsDependency(kind: EdgeKind) {
    kind.References? || kind.Imports? || kind.Inherits? || kind.Overrides?
  }

  datatype Range = Range(startLine: nat, startColumn: nat, endLine: nat, endColumn: nat)

  datatype Edge = Edge(
    source: NodeId,
    target: NodeId,
    kind: EdgeKind,
    role: Option<string>,
    file: Option<string>,
    range: Option<Range>)

  datatype Node = Node(
    name: string,
    qualifiedName: string,
    kind: string,
    file: string,
    range: Range,
    nameRange: Option<Range>,
    contentHash: Option<string>,
    contentHashes: map<string, string>,
    external: bool,
    package: Option<string>)

  datatype Layer = Layer(
    nodes: map<NodeId, Node>,
    edges: set<Edge>,
    reverseDeps: map<NodeId, set<NodeId>>,
    fileToNodes: map<string, seq<NodeId>>)

  const NO_LAYER := Layer(map[], {}, map[], map[])

  // ---- The reverse-dependency index ------------------------------------------------

  function DependencyTargets(edges: set<Edge>): set<NodeId> {
    set e | e in edges && IsDependency(e.kind) :: e.target
  }

  function DependencySources(edges: set<Edge>, target: NodeId): set<NodeId> {
    set e | e in edges && IsDependency(e.kind) && e.target == target :: e.source
  }

  /** The authoritative definition of the index: target to sources, over the
      dependency edges. */
  function DerivedReverseDeps(edges: set<Edge>): map<NodeId, set<NodeId>> {
    map t | t in DependencyTargets(edges) :: DependencySources(edges, t)
  }

  ghost predicate Coherent(layer: Layer) {
    layer.reverseDeps == DerivedReverseDeps(layer.edges)
  }

  function Lookup(index: map<NodeId, set<NodeId>>, id: NodeId): set<NodeId> {
    if id in index then index[id] else {}
  }

  /** Maintains the index when an edge is added. */
  function IndexAdd(index: map<NodeId, set<NodeId>>, edge: Edge): map<NodeId, set<NodeId>> {
    if IsDependency(edge.kind) then index[edge.target := Lookup(index, edge.target) + {edge.source}] else index
  }

  predicate StillDepends(edges: set<Edge>, source: NodeId, target: NodeId) {
    exists e :: e in edges && IsDependency(e.kind) && e.source == source && e.target == target
  }

  /** Maintains the index when `edge` has just been removed, leaving `edges`. */
  function IndexRemove(index: map<NodeId, set<NodeId>>, edges: set<Edge>, edge: Edge): map<NodeId, set<NodeId>> {
    if !IsDependency(edge.kind) || StillDepends(edges, edge.source, edge.target) || edge.target !in index then index
    else if index[edge.target] - {edge.source} == {} then index - {edge.target}
    else index[edge.target := index[edge.target] - {edge.source}]
  }

  datatype EdgeOp = AddEdge(edge: Edge) | RemoveEdge(edge: Edge)

  /** The edges and the index after one maintained operation. */
  function Maintain(edges: set<Edge>, index: map<NodeId, set<NodeId>>, op: EdgeOp): (set<Edge>, map<NodeId,
                    set<NodeId>>) {
    match op
    case AddEdge(e) => (edges + {e}, IndexAdd(index, e))
    case RemoveEdge(e) =>
      if e in edges then (edges - {e}, IndexRemove(index, edges - {e}, e)) else (edges, index)
  }

  lemma SourcesAfterAdd(edges: set<Edge>, e: Edge, t: NodeId)
    ensures DependencySources(edges + {e}, t) ==
            DependencySources(edges, t) + if IsDependency(e.kind) && e.target == t then {e.source} else {}
    ensures DependencyTargets(edges + {e}) == DependencyTargets(edges) + if IsDependency(e.kind) then {e.target} else {}
  {
  }

  lemma TargetIffSources(edges: set<Edge>, t: NodeId)
    ensures t in DependencyTargets(edges) <==> DependencySources(edges, t) != {}
  {
    if t in DependencyTargets(edges) {
      var e :| e in edges && IsDependency(e.kind) && e.target == t;
      assert e.source in DependencySources(edges, t);
    }
  }

  lemma AddKeepsIndex(edges: set<Edge>, e: Edge)
    ensures IndexAdd(DerivedReverseDeps(edges), e) == DerivedReverseDeps(edges + {e})
  {
    var i := IndexAdd(DerivedReverseDeps(edges), e);
    var d := DerivedReverseDeps(edges + {e});
    SourcesAfterAdd(edges, e, e.target);
    TargetIffSources(edges, e.target);
    assert i.Keys == d.Keys;
    forall t | t in d
      ensures i[t] == d[t]
    {
      SourcesAfterAdd(edges, e, t);
    }
  }

  lemma RemoveKeepsIndex(edges: set<Edge>, e: Edge)
    requires e in edges
    ensures IndexRemove(DerivedReverseDeps(edges), edges - {e}, e) == DerivedReverseDeps(edges - {e})
  {
    var left := edges - {e};
    var i := IndexRemove(DerivedReverseDeps(edges), left, e);
    var d := DerivedReverseDeps(left);
    assert left + {e} == edges;
    forall t
      ensures t in i <==> t in d
      ensures t in d ==> i[t] == d[t]
    {
      SourcesAfterAdd(left, e, t);
      TargetIffSources(left, t);
      TargetIffSources(edges, t);
      assert e.source in DependencySources(left, e.target) <==> StillDepends(left, e.source, e.target);
    }
  }

  ghost function MaintainAll(ops: seq<EdgeOp>): (set<Edge>, map<NodeId, set<NodeId>>) {
    if ops == [] then ({}, map[])
    else
      var s := MaintainAll(ops[..|ops| - 1]);
      Maintain(s.0, s.1, ops[|ops| - 1])
  }

  /** Over any sequence of additions and removals the maintained index is the one
      derived from the edges. */
  lemma {:induction false} IndexHoldsOverEveryRun(ops: seq<EdgeOp>)
    ensures MaintainAll(ops).1 == DerivedReverseDeps(MaintainAll(ops).0)
  {
    if ops == [] {
      assert DerivedReverseDeps({}) == map[];
    } else {
      IndexHoldsOverEveryRun(ops[..|ops| - 1]);
      var edges := MaintainAll(ops[..|ops| - 1]).0;
      match ops[|ops| - 1]
      case AddEdge(e) => AddKeepsIndex(edges, e);
      case RemoveEdge(e) =>
        if e in edges {
          RemoveKeepsIndex(edges, e);
        }
    }
  }

  // ---- The affected closure -----------------------------------------------------------

  /** Some edge from `a` to `b` is a reference, an import, an inheritance or an override. */
  ghost predicate Linked(edges: set<Edge>, a: NodeId, b: NodeId) {
    exists e :: e in edges && e.source == a && e.target == b && e.kind in {References, Imports, Inherits, Overrides}
  }

  /** `a` depends directly on `b`: by an edge of the new layer or, when `b` was deleted,
      by an edge of the layer before. */
  ghost predicate DependsOn(next: Layer, prev: Layer, deleted: set<NodeId>, a: NodeId, b: NodeId) {
    Linked(next.edges, a, b) || (b in deleted && Linked(prev.edges, a, b))
  }

  /** The index lists exactly those sources. */
  lemma LinkedIff(edges: set<Edge>, a: NodeId, b: NodeId)
    ensures a in DependencySources(edges, b) <==> Linked(edges, a, b)
  {
  }

  ghost predicate Chain(next: Layer, prev: Layer, deleted: set<NodeId>, path: seq<NodeId>) {
    path != [] && forall k :: 0 <= k < |path| - 1 ==> DependsOn(next, prev, deleted, path[k], path[k + 1])
  }

  /** A path of such edges leads from `x` to a seed. */
  ghost predicate Affected(next: Layer, prev: Layer, seeds: set<NodeId>, deleted: set<NodeId>, x: NodeId) {
    exists path :: Chain(next, prev, deleted, path) && path[0] == x && path[|path| - 1] in seeds
  }

  lemma SeedIsAffected(next: Layer, prev: Layer, seeds: set<NodeId>, deleted: set<NodeId>, x: NodeId)
    requires x in seeds
    ensures Affected(next, prev, seeds, deleted, x)
  {
    assert Chain(next, prev, deleted, [x]);
  }

  lemma DependentIsAffected(next: Layer, prev: Layer, seeds: set<NodeId>, deleted: set<NodeId>, a: NodeId, b: NodeId)
    requires DependsOn(next, prev, deleted, a, b) && Affected(next, prev, seeds, deleted, b)
    ensures Affected(next, prev, seeds, deleted, a)
  {
    var path :| Chain(next, prev, deleted, path) && path[0] == b && path[|path| - 1] in seeds;
    var longer := [a] + path;
    forall k | 0 <= k < |longer| - 1
      ensures DependsOn(next, prev, deleted, longer[k], longer[k + 1])
    {
      if k > 0 {
        assert longer[k] == path[k - 1] && longer[k + 1] == path[k - 1 + 1];
      }
    }
    assert Chain(next, prev, deleted, longer);
  }

  /** A set that holds the seeds and is closed under dependents holds every affected id. */
  lemma {:induction false} ClosedSetHoldsChain(next: Layer, prev: Layer, deleted: set<NodeId>, s: set<NodeId>,
                                               path: seq<NodeId>)
    requires forall a, b :: b in s && DependsOn(next, prev, deleted, a, b) ==> a in s
    requires Chain(next, prev, deleted, path) && path[|path| - 1] in s
    ensures path[0] in s
  {
    if |path| > 1 {
      var tail := path[1..];
      forall k | 0 <= k < |tail| - 1
        ensures DependsOn(next, prev, deleted, tail[k], tail[k + 1])
      {
        assert tail[k] == path[k + 1] && tail[k + 1] == path[k + 1 + 1];
      }
      ClosedSetHoldsChain(next, prev, deleted, s, tail);
      assert DependsOn(next, prev, deleted, path[0], path[0 + 1]);
    }
  }

  lemma LookupDerived(layer: Layer, id: NodeId)
    requires Coherent(layer)
    ensures Lookup(layer.reverseDeps, id) == DependencySources(layer.edges, id)
  {
    TargetIffSources(layer.edges, id);
  }

  method EnqueueUnvisited(queue: seq<NodeId>, sources: set<NodeId>, visited: set<NodeId>) returns (q: seq<NodeId>)
    ensures forall x :: x in q <==> x in queue || (x in sources && x !in visited)
  {
    q := queue;
    var rest := sources;
    while rest != {}
      invariant rest <= sources
      invariant forall x :: x in q <==> x in queue || (x in sources && x !in visited && x !in rest)
      decreases |rest|
    {
      var src :| src in rest;
      rest := rest - {src};
      if src !in visited {
        q := q + [src];
      }
    }
  }

  /** Queues the unvisited dependents of `id`. */
  method EnqueueDependents(next: Layer, prev: Layer, deleted: set<NodeId>, id: NodeId, visited: set<NodeId>,
                           queue: seq<NodeId>)
    returns (q: seq<NodeId>)
    requires Coherent(next) && Coherent(prev)
    ensures forall x :: x in q <==> x in queue || (DependsOn(next, prev, deleted, x, id) && x !in visited)
  {
    LookupDerived(next, id);
    LookupDerived(prev, id);
    forall x
      ensures x in DependencySources(next.edges, id) <==> Linked(next.edges, x, id)
      ensures x in DependencySources(prev.edges, id) <==> Linked(prev.edges, x, id)
    {
      LinkedIff(next.edges, x, id);
      LinkedIff(prev.edges, x, id);
    }
    q := EnqueueUnvisited(queue, Lookup(next.reverseDeps, id), visited);
    if id in deleted {
      q := EnqueueUnvisited(q, Lookup(prev.reverseDeps, id), visited);
    }
  }

  /** Every id that can enter the worklist. */
  ghost function Universe(next: Layer, prev: Layer, seeds: set<NodeId>): set<NodeId> {
    seeds + (set e | e in next.edges :: e.source) + (set e | e in prev.edges :: e.source)
  }

  lemma DependentsInUniverse(next: Layer, prev: Layer, seeds: set<NodeId>, deleted: set<NodeId>)
    ensures forall a, b :: DependsOn(next, prev, deleted, a, b) ==> a in Universe(next, prev, seeds)
  {
  }

  /** Everything visited or queued is affected; everything affected is visited or will be. */
  ghost predicate Progress(next: Layer, prev: Layer, seeds: set<NodeId>, deleted: set<NodeId>,
                           visited: set<NodeId>, queue: seq<NodeId>)
  {
    && (forall x :: x in visited || x in queue ==>
          x in Universe(next, prev, seeds) && Affected(next, prev, seeds, deleted, x))
    && (forall x :: x in seeds ==> x in visited || x in queue)
    && (forall a, b :: b in visited && DependsOn(next, prev, deleted, a, b) ==> a in visited || a in queue)
  }

  lemma VisitProgresses(next: Layer, prev: Layer, seeds: set<NodeId>, deleted: set<NodeId>,
                        visited: set<NodeId>, queue: seq<NodeId>, q: seq<NodeId>)
    requires queue != [] && Progress(next, prev, seeds, deleted, visited, queue)
    requires forall x :: x in q <==>
               x in queue[1..] || (DependsOn(next, prev, deleted, x, queue[0]) && x !in visited + {queue[0]})
    ensures queue[0] in Universe(next, prev, seeds)
    ensures Progress(next, prev, seeds, deleted, visited + {queue[0]}, q)
  {
    DependentsInUniverse(next, prev, seeds, deleted);
    var id := queue[0];
    assert forall x :: x in queue <==> x == id || x in queue[1..];
    forall a | DependsOn(next, prev, deleted, a, id)
      ensures Affected(next, prev, seeds, deleted, a)
    {
      DependentIsAffected(next, prev, seeds, deleted, a, id);
    }
  }

  lemma SkipProgresses(next: Layer, prev: Layer, seeds: set<NodeId>, deleted: set<NodeId>,
                       visited: set<NodeId>, queue: seq<NodeId>)
    requires queue != [] && queue[0] in visited && Progress(next, prev, seeds, deleted, visited, queue)
    ensures Progress(next, prev, seeds, deleted, visited, queue[1..])
  {
    assert forall x :: x in queue <==> x == queue[0] || x in queue[1..];
  }

  /** The breadth-first closure: it ends on cyclic graphs and returns exactly the ids
      that reach a seed. */
  method AffectedClosure(next: Layer, prev: Layer, seeds: set<NodeId>,
                         deleted: set<NodeId>) returns (visited: set<NodeId>)
    requires Coherent(next) && Coherent(prev)
    ensures forall x :: x in visited <==> Affected(next, prev, seeds, deleted, x)
  {
    visited := {};
    var queue := EnqueueUnvisited([], seeds, {});
    ghost var all := Universe(next, prev, seeds);
    ghost var progress := (v: set<NodeId>, q: seq<NodeId>) => Progress(next, prev, seeds, deleted, v, q);
    forall x | x in seeds
      ensures Affected(next, prev, seeds, deleted, x)
    {
      SeedIsAffected(next, prev, seeds, deleted, x);
    }
    while queue != []
      invariant progress(visited, queue)
      decreases all - visited, |queue|
    {
      var id := queue[0];
      if id in visited {
        SkipProgresses(next, prev, seeds, deleted, visited, queue);
        queue := queue[1..];
      } else {
        var q := EnqueueDependents(next, prev, deleted, id, visited + {id}, queue[1..]);
        VisitProgresses(next, prev, seeds, deleted, visited, queue, q);
        visited, queue := visited + {id}, q;
      }
    }
    ProgressComplete(next, prev, seeds, deleted, visited);
  }

  /** Definitions and containment carry nothing: where there are no other edges, nothing but
      the seeds is affected. */
  lemma ContainmentCarriesNothing(next: Layer, prev: Layer, seeds: set<NodeId>, deleted: set<NodeId>, x: NodeId)
    requires forall e :: e in next.edges + prev.edges ==> e.kind.Defines? || e.kind.Contains?
    ensures Affected(next, prev, seeds, deleted, x) <==> x in seeds
  {
    if x in seeds {
      SeedIsAffected(next, prev, seeds, deleted, x);
    }
    if Affected(next, prev, seeds, deleted, x) {
      var path :| Chain(next, prev, deleted, path) && path[0] == x && path[|path| - 1] in seeds;
      assert |path| > 1 ==> DependsOn(next, prev, deleted, path[0], path[0 + 1]);
    }
  }

  lemma ProgressComplete(next: Layer, prev: Layer, seeds: set<NodeId>, deleted: set<NodeId>, visited: set<NodeId>)
    requires Progress(next, prev, seeds, deleted, visited, [])
    ensures forall x :: x in visited <==> Affected(next, prev, seeds, deleted, x)
  {
    forall x | Affected(next, prev, seeds, deleted, x)
      ensures x in visited
    {
      var path :| Chain(next, prev, deleted, path) && path[0] == x && path[|path| - 1] in seeds;
      ClosedSetHoldsChain(next, prev, deleted, visited, path);
    }
  }

  // ---- The minimal diff --------------------------------------------------------------------

  datatype Location = Location(file: string, range: Range, nameRange: Option<Range>)

  datatype CodeDelta = CodeDelta(
    rescan: bool,
    upserted: map<NodeId, Node>,
    moved: map<NodeId, Location>,
    removed: set<NodeId>,
    edgesAdded: set<Edge>,
    edgesRemoved: set<Edge>)

  predicate StructurallySame(a: Node, b: Node) {
    && a.name == b.name
    && a.qualifiedName == b.qualifiedName
    && a.kind == b.kind
    && a.contentHash == b.contentHash
    && a.external == b.external
  }

  predicate SamePlace(a: Node, b: Node) {
    a.file == b.file && a.range == b.range
  }

  predicate Upserts(prev: Layer, id: NodeId, node: Node) {
    id !in prev.nodes || !StructurallySame(prev.nodes[id], node)
  }

  predicate Moves(prev: Layer, id: NodeId, node: Node) {
    !Upserts(prev, id, node) && !SamePlace(prev.nodes[id], node)
  }

  function UpsertedIn(next: Layer, prev: Layer, ids: set<NodeId>): map<NodeId, Node> {
    map id | id in ids && id in next.nodes && Upserts(prev, id, next.nodes[id]) :: next.nodes[id]
  }

  function MovedIn(next: Layer, prev: Layer, ids: set<NodeId>): map<NodeId, Location> {
    map id | id in ids && id in next.nodes && Moves(prev, id, next.nodes[id]) ::
      Location(next.nodes[id].file, next.nodes[id].range, next.nodes[id].nameRange)
  }

  function Diff(next: Layer, prev: Layer, rescan: bool): CodeDelta {
    CodeDelta(
      rescan,
      UpsertedIn(next, prev, next.nodes.Keys),
      MovedIn(next, prev, next.nodes.Keys),
      prev.nodes.Keys - next.nodes.Keys,
      next.edges - prev.edges,
      prev.edges - next.edges)
  }

  lemma DiffOneMore(next: Layer, prev: Layer, ids: set<NodeId>, id: NodeId)
    requires id in next.nodes
    ensures var node := next.nodes[id];
            && UpsertedIn(next, prev, ids + {id}) ==
               (if Upserts(prev, id, node) then UpsertedIn(next, prev, ids)[id := node] else UpsertedIn(next, prev, ids))
            && MovedIn(next, prev, ids + {id}) ==
               (if Moves(prev, id, node)
                then MovedIn(next, prev, ids)[id := Location(node.file, node.range, node.nameRange)]
                else MovedIn(next, prev, ids))
  {
  }

  /** The diff as the producer computes it, node by node. */
  method DiffFrom(next: Layer, prev: Layer, rescan: bool) returns (d: CodeDelta)
    ensures d == Diff(next, prev, rescan)
  {
    var upserted: map<NodeId, Node> := map[];
    var moved: map<NodeId, Location> := map[];
    ghost var done: set<NodeId> := {};
    var rest := next.nodes.Keys;
    while rest != {}
      invariant done + rest == next.nodes.Keys
      invariant upserted == UpsertedIn(next, prev, done) && moved == MovedIn(next, prev, done)
      decreases |rest|
    {
      var id :| id in rest;
      var node := next.nodes[id];
      DiffOneMore(next, prev, done, id);
      if Upserts(prev, id, node) {
        upserted := upserted[id := node];
      } else if !SamePlace(prev.nodes[id], node) {
        moved := moved[id := Location(node.file, node.range, node.nameRange)];
      }
      rest, done := rest - {id}, done + {id};
    }
    assert done == next.nodes.Keys;
    var removed := set id | id in prev.nodes && id !in next.nodes;
    assert removed == prev.nodes.Keys - next.nodes.Keys;
    d := CodeDelta(rescan, upserted, moved, removed, next.edges - prev.edges, prev.edges - next.edges);
  }

  /** A consumer's copy of a layer. */
  datatype View = View(nodes: map<NodeId, Node>, edges: set<Edge>)

  /** Applies a delta to a copy; a rescan delta replaces the copy wholesale. */
  function ApplyDelta(v: View, d: CodeDelta): View {
    var base := if d.rescan then View(map[], {}) else v;
    var kept := map id | id in base.nodes && id !in d.removed ::
      if id in d.moved
      then base.nodes[id].(file := d.moved[id].file, range := d.moved[id].range, nameRange := d.moved[id].nameRange)
      else base.nodes[id];
    View(kept + d.upserted, (base.edges - d.edgesRemoved) + d.edgesAdded)
  }

  /** One node shows another on the fields that say what it is. */
  ghost predicate SameIdentity(a: Node, b: Node) {
    (a.name, a.qualifiedName, a.kind, a.contentHash, a.external) == (b.name, b.qualifiedName, b.kind, b.contentHash, b.external)
  }

  /** The copy has the layer's edges and, on every field that says what a node is and where,
      its nodes. */
  ghost predicate Mirrors(v: View, layer: Layer) {
    && v.edges == layer.edges
    && v.nodes.Keys == layer.nodes.Keys
    && forall id :: id in layer.nodes ==>
         && SameIdentity(v.nodes[id], layer.nodes[id])
         && v.nodes[id].file == layer.nodes[id].file && v.nodes[id].range == layer.nodes[id].range
  }

  /** The role of each id in a delta: upserted if it is new or is something else now, moved if
      it is the same thing in another place, removed if it is gone. */
  lemma DiffRoles(next: Layer, prev: Layer, rescan: bool, id: NodeId)
    ensures var d := Diff(next, prev, rescan);
            && (id in d.upserted <==>
                  id in next.nodes && (id in prev.nodes ==> !SameIdentity(prev.nodes[id], next.nodes[id])))
            && (id in d.upserted ==> d.upserted[id] == next.nodes[id])
            && (id in d.moved <==>
                  && id in next.nodes && id in prev.nodes && SameIdentity(prev.nodes[id], next.nodes[id])
                  && (prev.nodes[id].file != next.nodes[id].file || prev.nodes[id].range != next.nodes[id].range))
            && (id in d.moved ==>
                  d.moved[id] == Location(next.nodes[id].file, next.nodes[id].range, next.nodes[id].nameRange))
            && (id in d.removed <==> id in prev.nodes && id !in next.nodes)
  {
  }

  lemma ApplyDiffAt(v: View, next: Layer, prev: Layer, id: NodeId)
    requires Mirrors(v, prev)
    ensures var w := ApplyDelta(v, Diff(next, prev, false));
            && (id in w.nodes <==> id in next.nodes)
            && (id in next.nodes ==> StructurallySame(w.nodes[id], next.nodes[id]) && SamePlace(w.nodes[id], next.nodes[id]))
  {
    assert id in v.nodes <==> id in prev.nodes;
  }

  lemma ApplyDiffMirrors(v: View, next: Layer, prev: Layer)
    requires Mirrors(v, prev)
    ensures Mirrors(ApplyDelta(v, Diff(next, prev, false)), next)
  {
    var w := ApplyDelta(v, Diff(next, prev, false));
    assert w.edges == next.edges;
    forall id
      ensures id in w.nodes <==> id in next.nodes
      ensures id in next.nodes ==> StructurallySame(w.nodes[id], next.nodes[id]) && SamePlace(w.nodes[id], next.nodes[id])
    {
      ApplyDiffAt(v, next, prev, id);
    }
  }

  lemma ColdStartMirrors(v: View, next: Layer)
    ensures Mirrors(ApplyDelta(v, Diff(next, NO_LAYER, true)), next)
  {
    assert Diff(next, NO_LAYER, true).upserted == next.nodes;
  }

  ghost function Replay(layers: seq<Layer>, v: View): View
    requires layers != []
  {
    if |layers| == 1 then ApplyDelta(v, Diff(layers[0], NO_LAYER, true))
    else
      var n := |layers| - 1;
      ApplyDelta(Replay(layers[..n], v), Diff(layers[n], layers[n - 1], false))
  }

  /** Starting from the cold-start delta, applying each later diff in order reproduces
      every layer: its edges exactly and its nodes on all structural fields. */
  lemma {:induction false} ReplayMirrors(layers: seq<Layer>, v: View)
    requires layers != []
    ensures Mirrors(Replay(layers, v), layers[|layers| - 1])
  {
    var n := |layers| - 1;
    if n == 0 {
      ColdStartMirrors(v, layers[0]);
    } else {
      ReplayMirrors(layers[..n], v);
      ApplyDiffMirrors(Replay(layers[..n], v), layers[n], layers[n - 1]);
    }
  }

  /** A delta names each id in at most one role, and says nothing when nothing differs. */
  lemma DiffIsMinimal(next: Layer, prev: Layer, rescan: bool)
    ensures var d := Diff(next, prev, rescan);
            && d.upserted.Keys !! d.moved.Keys && d.upserted.Keys !! d.removed && d.moved.Keys !! d.removed
            && d.edgesAdded !! d.edgesRemoved
    ensures var d := Diff(next, prev, rescan);
            (d.upserted == map[] && d.moved == map[] && d.removed == {} && d.edgesAdded == {} && d.edgesRemoved == {}) <==>
            Mirrors(View(prev.nodes, prev.edges), next)
  {
    var d := Diff(next, prev, rescan);
    if d.upserted == map[] && d.moved == map[] && d.removed == {} && d.edgesAdded == {} && d.edgesRemoved == {} {
      forall id | id in next.nodes
        ensures id in prev.nodes && StructurallySame(prev.nodes[id], next.nodes[id]) && SamePlace(prev.nodes[id], next.nodes[id])
      {
        assert id !in d.upserted && id !in d.moved;
      }
      assert forall id :: id in prev.nodes && id !in next.nodes ==> id in d.removed;
      assert prev.nodes.Keys == next.nodes.Keys;
      assert forall e :: (e in next.edges && e !in prev.edges ==> e in d.edgesAdded)
                         && (e in prev.edges && e !in next.edges ==> e in d.edgesRemoved);
    }
    if Mirrors(View(prev.nodes, prev.edges), next) {
      forall id | id in next.nodes
        ensures !Upserts(prev, id, next.nodes[id]) && !Moves(prev, id, next.nodes[id])
      {
        assert id in View(prev.nodes, prev.edges).nodes;
      }
      assert forall id :: id !in d.upserted && id !in d.moved;
      assert d.removed == {} && d.edgesAdded == {} && d.edgesRemoved == {};
    }
  }

  /** A surviving node whose cosmetic fields changed without any change the diff looks at. */
  ghost predicate LosesCosmetics(next: Layer, prev: Layer, id: NodeId) {
    && id in next.nodes && id in prev.nodes && StructurallySame(prev.nodes[id], next.nodes[id])
    && (prev.nodes[id].contentHashes != next.nodes[id].contentHashes
        || prev.nodes[id].package != next.nodes[id].package
        || (SamePlace(prev.nodes[id], next.nodes[id]) && prev.nodes[id].nameRange != next.nodes[id].nameRange))
  }

  /** One incremental step is lossless on every field if and only if no surviving node
      loses a cosmetic field. */
  lemma DiffLosslessIff(next: Layer, prev: Layer)
    ensures ApplyDelta(View(prev.nodes, prev.edges), Diff(next, prev, false)) == View(next.nodes, next.edges) <==>
            forall id :: !LosesCosmetics(next, prev, id)
  {
    var d := Diff(next, prev, false);
    var w := ApplyDelta(View(prev.nodes, prev.edges), d);
    assert w.edges == next.edges;
    forall id
      ensures id in w.nodes <==> id in next.nodes
      ensures id in next.nodes ==> (w.nodes[id] == next.nodes[id] <==> !LosesCosmetics(next, prev, id))
    {
      if id in next.nodes && !Upserts(prev, id, next.nodes[id]) {
        assert id !in d.upserted && id !in d.removed;
      }
    }
    if w.nodes == next.nodes {
      assert forall id :: id in next.nodes ==> w.nodes[id] == next.nodes[id];
    }
  }

  const PLAIN := Node("n", "n", "function", "a", Range(1, 1, 2, 1), None, None, map[], false, None)

  ghost function Lone(node: Node): Layer {
    Layer(map[EntityId("1") := node], {}, map[], map[])
  }

  /** A node whose name range alone changed is not in the diff, so replay keeps the old one. */
  lemma DiffLosesNameRange()
    ensures var prev, next := Lone(PLAIN), Lone(PLAIN.(nameRange := Some(Range(1, 5, 1, 6))));
            ApplyDelta(View(prev.nodes, prev.edges), Diff(next, prev, false)) != View(next.nodes, next.edges)
  {
    var prev, next := Lone(PLAIN), Lone(PLAIN.(nameRange := Some(Range(1, 5, 1, 6))));
    DiffLosslessIff(next, prev);
    assert LosesCosmetics(next, prev, EntityId("1"));
  }
}
