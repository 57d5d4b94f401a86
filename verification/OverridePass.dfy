/** The override pass: a breadth-first walk up the inheritance edges finds, for each method
    of a class, the method of that name in a nearest ancestor. */
module OverridePass {
  import opened Wrappers
  import opened CodeLayer
  import opened LayerSpec
  import opened NodeLists
  import opened Builder

  const METHOD_KIND := "method"
  const CONSTRUCTOR_KIND := "constructor"

  function ParentsOf(edges: set<Edge>, id: NodeId): set<NodeId> {
    set e | e in edges && e.source == id && e.kind.Inherits? :: e.target
  }

  function ChildrenOf(edges: set<Edge>, id: NodeId): set<NodeId> {
    set e | e in edges && e.source == id && (e.kind.Defines? || e.kind.Contains?) :: e.target
  }

  predicate IsMethodKind(kind: string) {
    kind == METHOD_KIND || kind == CONSTRUCTOR_KIND
  }

  predicate IsMethod(nodes: map<NodeId, Node>, x: NodeId, name: string) {
    x in nodes && nodes[x].kind in {"method", "constructor"} && nodes[x].name == name
  }

  /** `x` is a method called `name` directly inside `p`. */
  predicate Offers(nodes: map<NodeId, Node>, edges: set<Edge>, p: NodeId, name: string, x: NodeId) {
    x in ChildrenOf(edges, p) && IsMethod(nodes, x, name)
  }

  /** `p` is `n` inheritance steps above `c`. */
  ghost predicate Above(edges: set<Edge>, c: NodeId, p: NodeId, n: nat)
    decreases n
  {
    if n == 0 then p == c else exists u :: Above(edges, c, u, n - 1) && p in ParentsOf(edges, u)
  }

  /** `x` is the method called `name` of an ancestor, and no ancestor fewer steps away has one. */
  ghost predicate NearestAt(nodes: map<NodeId, Node>, edges: set<Edge>, c: NodeId, name: string, x: NodeId, n: nat) {
    && n > 0
    && (exists p :: Above(edges, c, p, n) && Offers(nodes, edges, p, name, x))
    && (forall k: nat, p, y :: 0 < k < n && Above(edges, c, p, k) ==> !Offers(nodes, edges, p, name, y))
  }

  ghost predicate Nearest(nodes: map<NodeId, Node>, edges: set<Edge>, c: NodeId, name: string, x: NodeId) {
    exists n: nat :: NearestAt(nodes, edges, c, name, x, n)
  }

  /** Exactly the names of the methods of ancestors, each with the method of a nearest one. */
  ghost predicate Resolves(nodes: map<NodeId, Node>, edges: set<Edge>, c: NodeId, found: map<string, NodeId>) {
    && (forall name :: name in found ==> Nearest(nodes, edges, c, name, found[name]))
    && (forall n: nat, p, name, x :: n > 0 && Above(edges, c, p, n) && Offers(nodes, edges, p, name, x) ==> name in found)
  }

  // ---- The walk ---------------------------------------------------------------------------

  /** All parents of `v` have been visited, at most one step further up, and their methods
      are known. */
  ghost predicate Examined(nodes: map<NodeId, Node>, edges: set<Edge>, depth: map<NodeId, nat>, found: map<string, NodeId>,
                           v: NodeId) {
    v in depth ==> forall p :: p in ParentsOf(edges, v) ==> Noted(nodes, edges, depth, found, depth[v] + 1, p)
  }

  ghost predicate Noted(nodes: map<NodeId, Node>, edges: set<Edge>, depth: map<NodeId, nat>, found: map<string, NodeId>,
                        n: nat, p: NodeId) {
    p in depth && depth[p] <= n && forall name, x :: Offers(nodes, edges, p, name, x) ==> name in found
  }

  /** The queue holds visited ids of one depth and then of the next. */
  ghost predicate Banded(queue: seq<NodeId>, depth: map<NodeId, nat>, d: nat) {
    && (forall i :: 0 <= i < |queue| ==> queue[i] in depth && d <= depth[queue[i]] <= d + 1)
    && (forall i, j :: 0 <= i < j < |queue| ==> depth[queue[i]] <= depth[queue[j]])
  }

  /** Every visited id is where its depth says, and the class itself is at depth zero. */
  ghost predicate Charted(edges: set<Edge>, c: NodeId, depth: map<NodeId, nat>) {
    c in depth && depth[c] == 0 && forall v :: v in depth ==> Above(edges, c, v, depth[v])
  }

  ghost predicate AllNearest(nodes: map<NodeId, Node>, edges: set<Edge>, c: NodeId, found: map<string, NodeId>) {
    forall name :: name in found ==> Nearest(nodes, edges, c, name, found[name])
  }

  ghost predicate Within(depth: map<NodeId, nat>, d: nat) {
    forall v :: v in depth ==> depth[v] <= d
  }

  /** Everything visited below depth `d` has been examined. */
  ghost predicate ExaminedBelow(nodes: map<NodeId, Node>, edges: set<Edge>, depth: map<NodeId, nat>,
                                found: map<string, NodeId>, d: nat) {
    forall v :: v in depth && depth[v] < d ==> Examined(nodes, edges, depth, found, v)
  }

  lemma {:induction false} AboveIsVisited(nodes: map<NodeId, Node>, edges: set<Edge>, c: NodeId, depth: map<NodeId, nat>,
                                          found: map<string, NodeId>, d: nat, p: NodeId, n: nat)
    requires Charted(edges, c, depth) && ExaminedBelow(nodes, edges, depth, found, d) && Above(edges, c, p, n) && n <= d
    ensures p in depth && depth[p] <= n
    decreases n
  {
    if n > 0 {
      var u :| Above(edges, c, u, n - 1) && p in ParentsOf(edges, u);
      AboveIsVisited(nodes, edges, c, depth, found, d, u, n - 1);
      assert Examined(nodes, edges, depth, found, u);
      assert Noted(nodes, edges, depth, found, depth[u] + 1, p);
    }
  }

  /** So the methods of all ancestors up to depth `d` are known. */
  lemma AboveIsKnown(nodes: map<NodeId, Node>, edges: set<Edge>, c: NodeId, depth: map<NodeId, nat>,
                     found: map<string, NodeId>, d: nat, p: NodeId, n: nat, name: string, x: NodeId)
    requires Charted(edges, c, depth) && ExaminedBelow(nodes, edges, depth, found, d)
    requires 0 < n <= d && Above(edges, c, p, n) && Offers(nodes, edges, p, name, x)
    ensures name in found
  {
    var u :| Above(edges, c, u, n - 1) && p in ParentsOf(edges, u);
    AboveIsVisited(nodes, edges, c, depth, found, d, u, n - 1);
    assert Examined(nodes, edges, depth, found, u);
    assert Noted(nodes, edges, depth, found, depth[u] + 1, p);
  }

  /** A name not known yet is resolved to a nearest ancestor. */
  lemma NewIsNearest(nodes: map<NodeId, Node>, edges: set<Edge>, c: NodeId, depth: map<NodeId, nat>,
                     found: map<string, NodeId>, d: nat, p: NodeId, name: string, x: NodeId)
    requires Charted(edges, c, depth) && ExaminedBelow(nodes, edges, depth, found, d)
    requires Above(edges, c, p, d + 1) && Offers(nodes, edges, p, name, x) && name !in found
    ensures Nearest(nodes, edges, c, name, x)
  {
    forall k: nat, q, y | 0 < k < d + 1 && Above(edges, c, q, k)
      ensures !Offers(nodes, edges, q, name, y)
    {
      if Offers(nodes, edges, q, name, y) {
        AboveIsKnown(nodes, edges, c, depth, found, d, q, k, name, y);
      }
    }
    assert NearestAt(nodes, edges, c, name, x, d + 1);
  }

  ghost predicate Grows<K, V>(a: map<K, V>, b: map<K, V>) {
    forall k :: k in a ==> k in b && b[k] == a[k]
  }

  /** Every method among `children` has its name known, and new names lead to one of them. */
  ghost predicate Notes(nodes: map<NodeId, Node>, children: set<NodeId>, known: map<string, NodeId>, found: map<string, NodeId>) {
    && Grows(known, found)
    && (forall name :: name in found && name !in known ==> found[name] in children && IsMethod(nodes, found[name], name))
    && (forall x, name :: x in children && IsMethod(nodes, x, name) ==> name in found)
  }

  /** Notes the methods of one parent under the names not known yet. */
  method NoteMethods(nodes: map<NodeId, Node>, children: set<NodeId>, known: map<string, NodeId>) returns (found: map<string, NodeId>)
    ensures Notes(nodes, children, known, found)
  {
    found := known;
    var rest := children;
    while rest != {}
      invariant rest <= children
      invariant Grows(known, found)
      invariant forall name :: name in found && name !in known ==> found[name] in children && IsMethod(nodes, found[name], name)
      invariant forall x, name :: x in children - rest && IsMethod(nodes, x, name) ==> name in found
      decreases |rest|
    {
      var child :| child in rest;
      rest := rest - {child};
      if child in nodes && IsMethodKind(nodes[child].kind) && nodes[child].name !in found {
        found := found[nodes[child].name := child];
      }
    }
  }

  lemma ExaminedStays(nodes: map<NodeId, Node>, edges: set<Edge>, depth: map<NodeId, nat>, found: map<string, NodeId>,
                      depth': map<NodeId, nat>, found': map<string, NodeId>, v: NodeId)
    requires v in depth && Examined(nodes, edges, depth, found, v) && Grows(depth, depth') && Grows(found, found')
    ensures Examined(nodes, edges, depth', found', v)
  {
    forall p | p in ParentsOf(edges, v)
      ensures Noted(nodes, edges, depth', found', depth'[v] + 1, p)
    {
      assert Noted(nodes, edges, depth, found, depth[v] + 1, p);
    }
  }

  /** All the facts that hold while the ids at depth `d` are being examined. */
  ghost predicate Walking(nodes: map<NodeId, Node>, edges: set<Edge>, c: NodeId, queue: seq<NodeId>, depth: map<NodeId, nat>,
                          found: map<string, NodeId>, d: nat) {
    && Charted(edges, c, depth) && Banded(queue, depth, d) && AllNearest(nodes, edges, c, found)
    && ExaminedBelow(nodes, edges, depth, found, d) && Within(depth, d + 1)
  }

  /** Everything visited is still to come or has been examined. */
  ghost predicate Settled(nodes: map<NodeId, Node>, edges: set<Edge>, toCome: set<NodeId>, depth: map<NodeId, nat>,
                          found: map<string, NodeId>) {
    forall v :: v in depth ==> v in toCome || Examined(nodes, edges, depth, found, v)
  }

  ghost function Ids(queue: seq<NodeId>): set<NodeId> {
    set id | id in queue
  }

  lemma MoreIsExamined(nodes: map<NodeId, Node>, edges: set<Edge>, toCome: set<NodeId>, toCome': set<NodeId>,
                       depth: map<NodeId, nat>, found: map<string, NodeId>,
                       depth': map<NodeId, nat>, found': map<string, NodeId>, d: nat)
    requires Settled(nodes, edges, toCome, depth, found) && ExaminedBelow(nodes, edges, depth, found, d)
    requires Grows(depth, depth') && Grows(found, found') && toCome <= toCome'
    requires forall v :: v in depth' && v !in depth ==> v in toCome' && depth'[v] >= d
    ensures Settled(nodes, edges, toCome', depth', found') && ExaminedBelow(nodes, edges, depth', found', d)
  {
    forall v | v in depth && Examined(nodes, edges, depth, found, v)
      ensures Examined(nodes, edges, depth', found', v)
    {
      ExaminedStays(nodes, edges, depth, found, depth', found', v);
    }
  }

  lemma QueueKeeps(nodes: map<NodeId, Node>, edges: set<Edge>, c: NodeId, current: NodeId, p: NodeId, queue: seq<NodeId>,
                   depth: map<NodeId, nat>, found: map<string, NodeId>, d: nat)
    requires Walking(nodes, edges, c, queue, depth, found, d) && Settled(nodes, edges, Ids(queue) + {current}, depth, found)
    requires p !in depth && Above(edges, c, p, d + 1)
    ensures Walking(nodes, edges, c, queue + [p], depth[p := d + 1], found, d)
    ensures Settled(nodes, edges, Ids(queue + [p]) + {current}, depth[p := d + 1], found)
  {
    MoreIsExamined(nodes, edges, Ids(queue) + {current}, Ids(queue + [p]) + {current}, depth, found, depth[p := d + 1], found, d);
  }

  lemma NoteKeeps(nodes: map<NodeId, Node>, edges: set<Edge>, c: NodeId, toCome: set<NodeId>, p: NodeId, queue: seq<NodeId>,
                  depth: map<NodeId, nat>, known: map<string, NodeId>, found: map<string, NodeId>, d: nat)
    requires Walking(nodes, edges, c, queue, depth, known, d) && Settled(nodes, edges, toCome, depth, known)
    requires Above(edges, c, p, d + 1) && p in depth && Notes(nodes, ChildrenOf(edges, p), known, found)
    ensures Walking(nodes, edges, c, queue, depth, found, d) && Settled(nodes, edges, toCome, depth, found)
    ensures Noted(nodes, edges, depth, found, d + 1, p)
  {
    forall name | name in found
      ensures Nearest(nodes, edges, c, name, found[name])
    {
      if name !in known {
        NewIsNearest(nodes, edges, c, depth, known, d, p, name, found[name]);
      }
    }
    MoreIsExamined(nodes, edges, toCome, toCome, depth, known, depth, found, d);
  }

  ghost predicate NotedAll(nodes: map<NodeId, Node>, edges: set<Edge>, depth: map<NodeId, nat>, found: map<string, NodeId>,
                           n: nat, ps: set<NodeId>) {
    forall p :: p in ps ==> Noted(nodes, edges, depth, found, n, p)
  }

  lemma NotedMore(nodes: map<NodeId, Node>, edges: set<Edge>, depth: map<NodeId, nat>, known: map<string, NodeId>,
                  depth': map<NodeId, nat>, found: map<string, NodeId>, n: nat, ps: set<NodeId>, p: NodeId)
    requires NotedAll(nodes, edges, depth, known, n, ps) && Grows(depth, depth') && Grows(known, found)
    requires Noted(nodes, edges, depth', found, n, p)
    ensures NotedAll(nodes, edges, depth', found, n, ps + {p})
  {
    forall q | q in ps
      ensures Noted(nodes, edges, depth', found, n, q)
    {
      assert Noted(nodes, edges, depth, known, n, q);
    }
  }

  /** Visits a parent of an id at depth `d`: queues it if it is new, and notes its methods. */
  method VisitParent(nodes: map<NodeId, Node>, edges: set<Edge>, c: NodeId, current: NodeId, p: NodeId, visited: set<NodeId>,
                     queue: seq<NodeId>, known: map<string, NodeId>, ghost depth: map<NodeId, nat>, ghost d: nat,
                     ghost seen: set<NodeId>)
    returns (visited': set<NodeId>, queue': seq<NodeId>, found: map<string, NodeId>, ghost depth': map<NodeId, nat>)
    requires visited == depth.Keys && current in depth && depth[current] == d && p in ParentsOf(edges, current)
    requires NotedAll(nodes, edges, depth, known, d + 1, seen)
    requires Walking(nodes, edges, c, queue, depth, known, d) && Settled(nodes, edges, Ids(queue) + {current}, depth, known)
    ensures visited' == depth'.Keys == visited + {p}
    ensures Walking(nodes, edges, c, queue', depth', found, d) && Settled(nodes, edges, Ids(queue') + {current}, depth', found)
    ensures depth'[current] == d && NotedAll(nodes, edges, depth', found, d + 1, seen + {p})
    ensures p in visited ==> queue' == queue
  {
    visited', queue', depth' := visited, queue, depth;
    ParentIsAbove(edges, c, current, p, depth, d);
    if p !in visited {
      QueueKeeps(nodes, edges, c, current, p, queue, depth, known, d);
      visited', queue', depth' := visited + {p}, queue + [p], depth[p := d + 1];
    }
    found := NoteMethods(nodes, ChildrenOf(edges, p), known);
    NoteKeeps(nodes, edges, c, Ids(queue') + {current}, p, queue', depth', known, found, d);
    NotedMore(nodes, edges, depth, known, depth', found, d + 1, seen, p);
  }

  /** Visits all parents of an id at depth `d`. */
  method VisitParents(nodes: map<NodeId, Node>, edges: set<Edge>, c: NodeId, current: NodeId, visited0: set<NodeId>,
                      queue0: seq<NodeId>, known: map<string, NodeId>, ghost depth0: map<NodeId, nat>, ghost d: nat)
    returns (visited: set<NodeId>, queue: seq<NodeId>, found: map<string, NodeId>, ghost depth: map<NodeId, nat>)
    requires visited0 == depth0.Keys && current in depth0 && depth0[current] == d
    requires Walking(nodes, edges, c, queue0, depth0, known, d) && Settled(nodes, edges, Ids(queue0) + {current}, depth0, known)
    ensures visited == depth.Keys == visited0 + ParentsOf(edges, current) && (visited == visited0 ==> queue == queue0)
    ensures Walking(nodes, edges, c, queue, depth, found, d) && Settled(nodes, edges, Ids(queue), depth, found)
  {
    visited, queue, found, depth := visited0, queue0, known, depth0;
    var parents := ParentsOf(edges, current);
    var rest := parents;
    while rest != {}
      invariant rest <= parents && visited == depth.Keys == visited0 + (parents - rest)
      invariant Walking(nodes, edges, c, queue, depth, found, d) && Settled(nodes, edges, Ids(queue) + {current}, depth, found)
      invariant current in depth && depth[current] == d && (visited == visited0 ==> queue == queue0)
      invariant NotedAll(nodes, edges, depth, found, d + 1, parents - rest)
      decreases |rest|
    {
      var p :| p in rest;
      visited, queue, found, depth := VisitParent(nodes, edges, c, current, p, visited, queue, found, depth, d, parents - rest);
      assert parents - (rest - {p}) == parents - rest + {p};
      rest := rest - {p};
    }
    NowExamined(nodes, edges, current, Ids(queue), depth, found, d);
  }

  lemma ParentIsAbove(edges: set<Edge>, c: NodeId, current: NodeId, p: NodeId, depth: map<NodeId, nat>, d: nat)
    requires Charted(edges, c, depth) && current in depth && depth[current] == d && p in ParentsOf(edges, current)
    ensures Above(edges, c, p, d + 1)
  {
    assert Above(edges, c, current, d);
  }

  lemma NowExamined(nodes: map<NodeId, Node>, edges: set<Edge>, current: NodeId, toCome: set<NodeId>, depth: map<NodeId, nat>,
                    found: map<string, NodeId>, d: nat)
    requires current in depth && depth[current] == d && NotedAll(nodes, edges, depth, found, d + 1, ParentsOf(edges, current))
    requires Settled(nodes, edges, toCome + {current}, depth, found)
    ensures Settled(nodes, edges, toCome, depth, found)
  {
    assert Examined(nodes, edges, depth, found, current);
  }

  /** The methods of the ancestors of `c` by name, nearest ancestors first. */
  method AncestorMethods(nodes: map<NodeId, Node>, edges: set<Edge>, c: NodeId) returns (found: map<string, NodeId>)
    ensures Resolves(nodes, edges, c, found)
  {
    found := map[];
    var visited, queue := {c}, [c];
    ghost var depth, d: nat := map[c := 0], 0;
    ghost var all := {c} + set e | e in edges :: e.target;
    while queue != []
      invariant visited == depth.Keys && visited <= all && Walking(nodes, edges, c, queue, depth, found, d)
      invariant Settled(nodes, edges, Ids(queue), depth, found)
      decreases all - visited, |queue|
    {
      visited, queue, found, depth, d := ExamineFront(nodes, edges, c, visited, queue, found, depth, d);
    }
    WalkIsComplete(nodes, edges, c, depth, found, d);
  }

  /** Takes the front of the queue and visits its parents. */
  method ExamineFront(nodes: map<NodeId, Node>, edges: set<Edge>, c: NodeId, visited0: set<NodeId>, queue0: seq<NodeId>,
                      known: map<string, NodeId>, ghost depth0: map<NodeId, nat>, ghost d0: nat)
    returns (visited: set<NodeId>, queue: seq<NodeId>, found: map<string, NodeId>, ghost depth: map<NodeId, nat>, ghost d: nat)
    requires queue0 != [] && visited0 == depth0.Keys
    requires Walking(nodes, edges, c, queue0, depth0, known, d0) && Settled(nodes, edges, Ids(queue0), depth0, known)
    ensures visited0 <= visited == depth.Keys && visited <= visited0 + set e | e in edges :: e.target
    ensures Walking(nodes, edges, c, queue, depth, found, d) && Settled(nodes, edges, Ids(queue), depth, found)
    ensures visited == visited0 ==> |queue| < |queue0|
  {
    var current := queue0[0];
    NextDepth(nodes, edges, c, queue0, depth0, known, d0);
    d := depth0[current];
    assert Ids(queue0) == Ids(queue0[1..]) + {current};
    visited, queue, found, depth := VisitParents(nodes, edges, c, current, visited0, queue0[1..], known, depth0, d);
  }

  /** When the front of the queue is deeper than the depth being examined, that depth is done. */
  lemma NextDepth(nodes: map<NodeId, Node>, edges: set<Edge>, c: NodeId, queue: seq<NodeId>, depth: map<NodeId, nat>,
                  found: map<string, NodeId>, d: nat)
    requires queue != [] && Walking(nodes, edges, c, queue, depth, found, d) && Settled(nodes, edges, Ids(queue), depth, found)
    ensures queue[0] in depth && Walking(nodes, edges, c, queue[1..], depth, found, depth[queue[0]])
  {
    forall v | v in depth && depth[v] < depth[queue[0]]
      ensures Examined(nodes, edges, depth, found, v)
    {
      assert forall i :: 0 <= i < |queue| ==> queue[i] != v;
      assert v !in Ids(queue);
    }
  }

  lemma WalkIsComplete(nodes: map<NodeId, Node>, edges: set<Edge>, c: NodeId, depth: map<NodeId, nat>,
                       found: map<string, NodeId>, d: nat)
    requires Walking(nodes, edges, c, [], depth, found, d) && Settled(nodes, edges, {}, depth, found)
    ensures Resolves(nodes, edges, c, found)
  {
    forall n: nat, p, name, x | n > 0 && Above(edges, c, p, n) && Offers(nodes, edges, p, name, x)
      ensures name in found
    {
      AboveIsKnown(nodes, edges, c, depth, found, n, p, n, name, x);
    }
  }

  // ---- The pass over a file -----------------------------------------------------------------

  /** `m` is a method with an id, inside the class `s`. */
  predicate MethodOf(s: Symbol, m: Symbol) {
    s.kind == CLASS_KIND && IsMethodKind(m.kind) && m.container == Some(s.name) && m.id.Some?
  }

  function OverrideEdge(id: string, target: NodeId): Edge {
    Edge(EntityId(id), target, EdgeKind.Overrides, None, None, None)
  }

  /** From each method among `ms` of class `s` to the one that its name was found for. */
  ghost function MethodEdges(s: Symbol, ms: seq<Symbol>, found: map<string, NodeId>): set<Edge> {
    set m | m in ms && MethodOf(s, m) && m.name in found :: OverrideEdge(m.id.value, found[m.name])
  }

  /** Each such edge comes from a method with an id, or a constructor, of the class by name. */
  lemma MethodEdgeIff(s: Symbol, ms: seq<Symbol>, found: map<string, NodeId>, e: Edge)
    ensures e in MethodEdges(s, ms, found) <==>
            exists m :: m in ms && s.kind == "class_" && m.kind in {"method", "constructor"} && m.container == Some(s.name)
              && m.id.Some? && m.name in found
              && e == Edge(EntityId(m.id.value), found[m.name], EdgeKind.Overrides, None, None, None)
  {
    assert forall kind :: IsMethodKind(kind) <==> kind in {"method", "constructor"};
  }

  /** The same for the first `n` symbols, given what was found for each of them. */
  ghost function OverrideEdges(symbols: seq<Symbol>, founds: seq<map<string, NodeId>>, n: nat): set<Edge>
    requires n <= |symbols| && n <= |founds|
  {
    if n == 0 then {} else OverrideEdges(symbols, founds, n - 1) + MethodEdges(symbols[n - 1], symbols, founds[n - 1])
  }

  /** What is found for a class that its qualified name leads to; nothing for any other symbol. */
  ghost predicate FoundFor(nodes: map<NodeId, Node>, edges: set<Edge>, t: Tables, file: string, s: Symbol,
                           found: map<string, NodeId>) {
    var c := Resolve(t, file, QualifiedName(s));
    if s.kind == CLASS_KIND && c.Some? then Resolves(nodes, edges, c.value, found) else found == map[]
  }

  ghost predicate FoundAll(nodes: map<NodeId, Node>, edges: set<Edge>, t: Tables, file: string, symbols: seq<Symbol>,
                           founds: seq<map<string, NodeId>>) {
    |founds| <= |symbols| && forall i :: 0 <= i < |founds| ==> FoundFor(nodes, edges, t, file, symbols[i], founds[i])
  }

  ghost predicate SameAt(edges: set<Edge>, edges': set<Edge>, id: NodeId) {
    ParentsOf(edges, id) == ParentsOf(edges', id) && ChildrenOf(edges, id) == ChildrenOf(edges', id)
  }

  /** The walk cannot tell the two apart. */
  ghost predicate SameWalk(edges: set<Edge>, edges': set<Edge>) {
    forall id :: SameAt(edges, edges', id)
  }

  lemma {:induction false} SameAbove(edges: set<Edge>, edges': set<Edge>, c: NodeId, p: NodeId, n: nat)
    requires SameWalk(edges, edges') && Above(edges, c, p, n)
    ensures Above(edges', c, p, n)
    decreases n
  {
    if n > 0 {
      var u :| Above(edges, c, u, n - 1) && p in ParentsOf(edges, u);
      SameAbove(edges, edges', c, u, n - 1);
      assert SameAt(edges, edges', u);
    }
  }

  lemma SameOffers(nodes: map<NodeId, Node>, edges: set<Edge>, edges': set<Edge>, p: NodeId, name: string, x: NodeId)
    requires SameWalk(edges, edges')
    ensures Offers(nodes, edges, p, name, x) <==> Offers(nodes, edges', p, name, x)
  {
    assert SameAt(edges, edges', p);
  }

  lemma SameNearest(nodes: map<NodeId, Node>, edges: set<Edge>, edges': set<Edge>, c: NodeId, name: string, x: NodeId)
    requires SameWalk(edges, edges') && SameWalk(edges', edges) && Nearest(nodes, edges, c, name, x)
    ensures Nearest(nodes, edges', c, name, x)
  {
    var n: nat :| NearestAt(nodes, edges, c, name, x, n);
    var p :| Above(edges, c, p, n) && Offers(nodes, edges, p, name, x);
    SameAbove(edges, edges', c, p, n);
    SameOffers(nodes, edges, edges', p, name, x);
    forall k: nat, q, y | 0 < k < n && Above(edges', c, q, k)
      ensures !Offers(nodes, edges', q, name, y)
    {
      SameAbove(edges', edges, c, q, k);
      SameOffers(nodes, edges, edges', q, name, y);
    }
    assert NearestAt(nodes, edges', c, name, x, n);
  }

  lemma SameResolves(nodes: map<NodeId, Node>, edges: set<Edge>, edges': set<Edge>, c: NodeId, found: map<string, NodeId>)
    requires SameWalk(edges, edges') && SameWalk(edges', edges) && Resolves(nodes, edges, c, found)
    ensures Resolves(nodes, edges', c, found)
  {
    forall name | name in found
      ensures Nearest(nodes, edges', c, name, found[name])
    {
      SameNearest(nodes, edges, edges', c, name, found[name]);
    }
    forall n: nat, p, name, x | n > 0 && Above(edges', c, p, n) && Offers(nodes, edges', p, name, x)
      ensures name in found
    {
      SameAbove(edges', edges, c, p, n);
      SameOffers(nodes, edges, edges', p, name, x);
    }
  }

  ghost predicate OnlyOverrides(added: set<Edge>) {
    forall e :: e in added ==> e.kind.Overrides?
  }

  /** Override edges are none that the walk looks at. */
  lemma AddedKeepsWalk(edges: set<Edge>, added: set<Edge>)
    requires OnlyOverrides(added)
    ensures SameWalk(edges, edges + added) && SameWalk(edges + added, edges)
  {
    forall id
      ensures SameAt(edges, edges + added, id) && SameAt(edges + added, edges, id)
    {
      assert ParentsOf(edges + added, id) == ParentsOf(edges, id);
      assert ChildrenOf(edges + added, id) == ChildrenOf(edges, id);
    }
  }

  lemma {:induction false} OverrideKinds(symbols: seq<Symbol>, founds: seq<map<string, NodeId>>, n: nat)
    requires n <= |symbols| && n <= |founds|
    ensures OnlyOverrides(OverrideEdges(symbols, founds, n))
  {
    if n > 0 {
      OverrideKinds(symbols, founds, n - 1);
    }
  }

  lemma NearestIsNode(nodes: map<NodeId, Node>, edges: set<Edge>, c: NodeId, name: string, x: NodeId)
    requires Nearest(nodes, edges, c, name, x)
    ensures x in nodes
  {
    var n: nat :| NearestAt(nodes, edges, c, name, x, n);
    var p :| Above(edges, c, p, n) && Offers(nodes, edges, p, name, x);
  }

  /** Adds the override edges of one class, whose ancestors' methods are `found`. */
  method AddOverrides(b: Builder, file: string, s: Symbol, symbols: seq<Symbol>, found: map<string, NodeId>)
    requires b.Valid() && file in b.tables && b.tables[file] == TableOf(file, symbols) && s.kind == CLASS_KIND
    requires forall name :: name in found ==> found[name] in b.nodes
    modifies b`edges, b`reverseDeps
    ensures b.Valid() && b.edges == old(b.edges) + MethodEdges(s, symbols, found)
  {
    for i := 0 to |symbols|
      invariant b.Valid() && b.edges == old(b.edges) + MethodEdges(s, symbols[..i], found)
    {
      var m := symbols[i];
      NextMethod(s, symbols, i, found);
      if IsMethodKind(m.kind) && m.container == Some(s.name) && m.name in found && m.id.Some? {
        TableCovers'(file, symbols, i);
        HeldIsNode(b.nodes, b.tables, file, EntityId(m.id.value));
        b.TryAddEdge(OverrideEdge(m.id.value, found[m.name]));
      }
    }
    assert symbols[..|symbols|] == symbols;
  }

  lemma NextMethod(s: Symbol, ms: seq<Symbol>, i: nat, found: map<string, NodeId>)
    requires i < |ms|
    ensures MethodEdges(s, ms[..i + 1], found) == MethodEdges(s, ms[..i], found) +
            if MethodOf(s, ms[i]) && ms[i].name in found then {OverrideEdge(ms[i].id.value, found[ms[i].name])} else {}
  {
    assert ms[..i + 1] == ms[..i] + [ms[i]];
    assert forall m :: m in ms[..i + 1] <==> m in ms[..i] || m == ms[i];
  }

  method OverrideClass(b: Builder, file: string, s: Symbol, symbols: seq<Symbol>) returns (ghost found: map<string, NodeId>)
    requires b.Valid() && file in b.tables && b.tables[file] == TableOf(file, symbols)
    modifies b`edges, b`reverseDeps
    ensures b.Valid() && b.edges == old(b.edges) + MethodEdges(s, symbols, found)
    ensures FoundFor(b.nodes, old(b.edges), b.tables, file, s, found)
  {
    found := map[];
    if s.kind == CLASS_KIND {
      var c := b.FindSymbol(file, QualifiedName(s));
      if c.Some? {
        var methods := AncestorMethods(b.nodes, b.edges, c.value);
        forall name | name in methods
          ensures methods[name] in b.nodes
        {
          NearestIsNode(b.nodes, b.edges, c.value, name, methods[name]);
        }
        found := methods;
        AddOverrides(b, file, s, symbols, methods);
      }
    }
  }

  /** Adds an override edge from each method of each class of the file to the method of that
      name in a nearest ancestor, exactly where some ancestor has one. */
  method OverridesPass(b: Builder, file: string, symbols: seq<Symbol>) returns (ghost founds: seq<map<string, NodeId>>)
    requires b.Valid() && file in b.tables && b.tables[file] == TableOf(file, symbols)
    modifies b`edges, b`reverseDeps
    ensures b.Valid() && |founds| == |symbols| && b.edges == old(b.edges) + OverrideEdges(symbols, founds, |symbols|)
    ensures FoundAll(b.nodes, old(b.edges), b.tables, file, symbols, founds)
  {
    founds := [];
    for i := 0 to |symbols|
      invariant b.Valid() && |founds| == i && b.edges == old(b.edges) + OverrideEdges(symbols, founds, i)
      invariant FoundAll(b.nodes, old(b.edges), b.tables, file, symbols, founds)
    {
      ghost var found := OverrideClass(b, file, symbols[i], symbols);
      OverrideKinds(symbols, founds, i);
      FoundBefore(b.nodes, old(b.edges), OverrideEdges(symbols, founds, i), b.tables, file, symbols[i], found);
      FoundOneMore(b.nodes, old(b.edges), b.tables, file, symbols, founds, found);
      OverridePrefix(symbols, founds, found, i);
      founds := founds + [found];
    }
  }

  /** What a later class finds is what it would have found first. */
  lemma FoundBefore(nodes: map<NodeId, Node>, edges: set<Edge>, added: set<Edge>, t: Tables, file: string, s: Symbol,
                    found: map<string, NodeId>)
    requires OnlyOverrides(added) && FoundFor(nodes, edges + added, t, file, s, found)
    ensures FoundFor(nodes, edges, t, file, s, found)
  {
    AddedKeepsWalk(edges, added);
    var c := Resolve(t, file, QualifiedName(s));
    if s.kind == CLASS_KIND && c.Some? {
      SameResolves(nodes, edges + added, edges, c.value, found);
    }
  }

  lemma FoundOneMore(nodes: map<NodeId, Node>, edges: set<Edge>, t: Tables, file: string, symbols: seq<Symbol>,
                     founds: seq<map<string, NodeId>>, found: map<string, NodeId>)
    requires FoundAll(nodes, edges, t, file, symbols, founds) && |founds| < |symbols|
    requires FoundFor(nodes, edges, t, file, symbols[|founds|], found)
    ensures FoundAll(nodes, edges, t, file, symbols, founds + [found])
  {
    var more := founds + [found];
    forall i | 0 <= i < |more|
      ensures FoundFor(nodes, edges, t, file, symbols[i], more[i])
    {
      assert i < |founds| ==> more[i] == founds[i];
    }
  }

  lemma {:induction false} OverridePrefix(symbols: seq<Symbol>, founds: seq<map<string, NodeId>>, found: map<string, NodeId>, n: nat)
    requires n <= |founds| && n <= |symbols|
    ensures OverrideEdges(symbols, founds + [found], n) == OverrideEdges(symbols, founds, n)
  {
    if n > 0 {
      OverridePrefix(symbols, founds, found, n - 1);
    }
  }
}
