/** The scoped rebuild: only the dirty files are evicted and derived again, and the edges of
    the others are carried over. */
module Scoped {
  import opened Wrappers
  import opened CodeLayer
  import opened LayerSpec
  import opened NodeLists
  import opened Builder
  import opened Rebuild

  // ---- The dirty set ----------------------------------------------------------------

  predicate ImportsSeed(prev: Layer, seed: set<string>, e: Edge) {
    && e.kind.Imports? && e.target.ModuleId? && e.target.moduleFile in seed
    && e.source in prev.nodes && prev.nodes[e.source].file != "" && prev.nodes[e.source].file != EXTERNAL_FILE
  }

  /** The seed and its one-hop importers. */
  function Dirty(prev: Layer, seed: set<string>): set<string> {
    seed + set e | e in prev.edges && ImportsSeed(prev, seed, e) :: prev.nodes[e.source].file
  }

  method ExpandDirty(prev: Layer, seed: set<string>) returns (dirty: set<string>)
    ensures dirty == Dirty(prev, seed)
  {
    dirty := seed;
    var rest := prev.edges;
    while rest != {}
      invariant rest <= prev.edges
      invariant dirty == seed + set e | e in prev.edges - rest && ImportsSeed(prev, seed, e) :: prev.nodes[e.source].file
      decreases |rest|
    {
      var e :| e in rest;
      rest := rest - {e};
      if ImportsSeed(prev, seed, e) {
        dirty := dirty + {prev.nodes[e.source].file};
      }
    }
  }

  // ---- What eviction carries over --------------------------------------------------------

  lemma OutsideOneMore(edges: set<Edge>, t: Tables, done: set<string>, file: string)
    ensures EdgesOutside(EdgesOutside(edges, t, done), t - done, {file}) == EdgesOutside(edges, t, done + {file})
  {
  }

  method EvictAll(b: Builder, dirty: set<string>)
    requires b.Valid()
    modifies b
    ensures b.Valid() && b.tables == old(b.tables) - dirty && Externals(b.nodes) == Externals(old(b.nodes))
    ensures b.edges == EdgesOutside(old(b.edges), old(b.tables), dirty)
  {
    ghost var t: Tables, edges := b.tables, b.edges;
    var rest := dirty;
    NothingOutside(edges, t);
    assert dirty - rest == {};
    while rest != {}
      invariant b.Valid() && rest <= dirty && Externals(b.nodes) == Externals(old(b.nodes))
      invariant b.tables == t - (dirty - rest) && b.edges == EdgesOutside(edges, t, dirty - rest)
      decreases |rest|
    {
      var file :| file in rest;
      EvictNext(edges, t, dirty, rest, file);
      b.EvictFile(file);
      rest := rest - {file};
    }
    assert dirty - rest == dirty;
  }

  lemma NothingOutside(edges: set<Edge>, t: Tables)
    ensures t - {} == t && EdgesOutside(edges, t, {}) == edges
  {
  }

  lemma EvictNext(edges: set<Edge>, t: Tables, dirty: set<string>, rest: set<string>, file: string)
    requires rest <= dirty && file in rest
    ensures t - (dirty - rest) - {file} == t - (dirty - (rest - {file}))
    ensures EdgesOutside(EdgesOutside(edges, t, dirty - rest), t - (dirty - rest), {file}) ==
            EdgesOutside(edges, t, dirty - (rest - {file}))
  {
    OutsideOneMore(edges, t, dirty - rest, file);
    assert dirty - (rest - {file}) == dirty - rest + {file};
  }

  // ---- The scoped rebuild --------------------------------------------------------------------

  ghost predicate SameSymbols(was: Engine, eng: Engine, f: string) {
    && (f in was.facts <==> f in eng.facts)
    && (f in was.facts ==> was.facts[f].symbols == eng.facts[f].symbols)
  }

  /** Every file outside `files` exists in both or in neither, with the same symbols. */
  ghost predicate SymbolsKept(was: Engine, eng: Engine, files: set<string>) {
    forall f :: f !in files ==> SameSymbols(was, eng, f)
  }

  /** What is left of the old edges after eviction, and the fresh edges of the dirty files. */
  ghost function RebuiltEdges(prev: Layer, was: Engine, eng: Engine, dirty: set<string>): set<Edge> {
    EdgesOutside(prev.edges, TablesOf(was), dirty) + Contributions(eng, dirty)
  }

  lemma KeptTables(was: Engine, eng: Engine, dirty: set<string>)
    requires SymbolsKept(was, eng, dirty)
    ensures TablesOf(was) - dirty == TablesOf(eng) - dirty
  {
    forall f | f !in dirty
      ensures f in TablesOf(was) <==> f in TablesOf(eng)
      ensures f in TablesOf(was) ==> TablesOf(was)[f] == TablesOf(eng)[f]
    {
      assert SameSymbols(was, eng, f);
    }
  }

  /** Collecting unreferenced stubs leaves exactly the stubs that edges point at. */
  lemma CollectedStubs(nodes: map<NodeId, Node>, t: GoodTables, edges: set<Edge>, kept: map<NodeId, Node>)
    requires Presents(nodes, t) && ExternalTargets(edges) <= Externals(nodes)
    requires forall id :: id in kept <==> id in nodes && !Unreferenced(nodes, edges, id)
    requires forall id :: id in kept ==> kept[id] == nodes[id]
    ensures Externals(kept) == ExternalTargets(edges)
  {
    forall x
      ensures x in Externals(kept) <==> x in ExternalTargets(edges)
    {
      if x in nodes {
        StubIsExternal(nodes, t, x);
      }
      assert x in Externals(nodes) <==> x in nodes && nodes[x].external;
    }
  }

  /** Re-derives the dirty files over a builder from which they were evicted. */
  method Rederive(b: Builder, dirty: set<string>)
    requires b.Valid() && WellFormed(b.eng) && b.tables == TablesOf(b.eng) - dirty
    requires ExternalTargets(b.edges) <= Externals(b.nodes)
    modifies b
    ensures b.Valid() && b.tables == TablesOf(b.eng) && b.edges == old(b.edges) + Contributions(b.eng, dirty)
    ensures Externals(b.nodes) == ExternalTargets(b.edges)
  {
    var files := set f | f in dirty && f in b.eng.facts && b.eng.facts[f].symbols.Some?;
    assert files == dirty * TablesOf(b.eng).Keys;
    assert TablesOf(b.eng) - dirty == TablesOf(b.eng) - files;
    UnlistedGivesNothing(b.eng, dirty);
    ExternalTargetsSplit(b.edges, Contributions(b.eng, files));
    MaterializeAll(b, files);
    DeriveEdges(b, files);
    CollectStubs(b);
  }

  method CollectStubs(b: Builder)
    requires b.Valid() && ExternalTargets(b.edges) <= Externals(b.nodes)
    modifies b`nodes
    ensures b.Valid() && Externals(b.nodes) == ExternalTargets(b.edges)
  {
    ghost var nodes := b.nodes;
    b.GcExternalStubs();
    CollectedStubs(nodes, b.tables, b.edges, b.nodes);
  }

  lemma OutsideTargets(edges: set<Edge>, t: Tables, files: set<string>)
    ensures ExternalTargets(EdgesOutside(edges, t, files)) <= ExternalTargets(edges)
  {
  }

  /** Exactly the rebuilt edges, the nodes of `eng`, and stubs for exactly the off-project
      targets of those edges. */
  ghost predicate ScopedBuilt(layer: Layer, prev: Layer, was: Engine, eng: Engine, dirty: set<string>) {
    Shows(layer, eng) && layer.edges == RebuiltEdges(prev, was, eng, dirty) && Externals(layer.nodes) == ExternalTargets(layer.edges)
  }

  /** Rebuilds over any layer with the nodes of `was`, whatever its edges, and whatever the
      files left alone have come to contribute. */
  method BuildScoped(eng: Project, prev: Layer, seed: set<string>, ghost was: Project) returns (layer: Layer)
    requires Shows(prev, was) && SymbolsKept(was, eng, Dirty(prev, seed))
    ensures ScopedBuilt(layer, prev, was, eng, Dirty(prev, seed))
  {
    WellFormedTables(was);
    var b := new Builder.Seeded(eng, prev, TablesOf(was));
    var dirty := ExpandDirty(prev, seed);
    OutsideTargets(prev.edges, TablesOf(was), dirty);
    EvictAll(b, dirty);
    KeptTables(was, eng, dirty);
    Rederive(b, dirty);
    layer := Layer(b.nodes, b.edges, b.reverseDeps, b.fileToNodes);
  }
}
