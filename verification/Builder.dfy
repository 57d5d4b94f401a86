/** The code-layer producer: the passes that a full build and a scoped rebuild share. */
module Builder {
  import opened Wrappers
  import opened Orders
  import opened CodeLayer
  import opened LayerSpec
  import opened NodeLists

  class Builder {
    const eng: Engine
    const env: Env
    var nodes: map<NodeId, Node>
    var edges: set<Edge>
    var reverseDeps: map<NodeId, set<NodeId>>
    var fileToNodes: map<string, seq<NodeId>>
    var names: map<string, map<string, Option<NodeId>>>
    var ranges: map<string, seq<Span>>
    /** The node lists that the fields above present. */
    ghost var tables: GoodTables

    /** The reverse-dependency index is the one derived from the edges. */
    ghost predicate Indexed()
      reads this`edges, this`reverseDeps
    {
      reverseDeps == DerivedReverseDeps(edges)
    }

    /** Nodes, file lists, names and ranges present the same node lists. */
    ghost predicate Tabled()
      reads this`nodes, this`fileToNodes, this`names, this`ranges, this`tables
    {
      && fileToNodes == IdTables(tables) && names == NameTables(tables)
      && Presents(nodes, tables) && AllBuilt(tables)
      && RangesAgree(tables, ranges)
    }

    ghost predicate Valid()
      reads this
    {
      env == EnvOf(eng) && Indexed() && Tabled()
    }

    constructor Empty(eng: Engine)
      ensures Valid() && this.eng == eng && nodes == map[] && edges == {} && tables == map[]
    {
      this.eng, env := eng, EnvOf(eng);
      nodes, edges, reverseDeps, fileToNodes, names, ranges := map[], {}, map[], map[], map[], map[];
      tables := map[];
    }

    /** Seeds the indexes from `prev`, whose node lists are `t`. */
    constructor Seeded(eng: Engine, prev: Layer, ghost t: GoodTables)
      requires Coherent(prev) && Presents(prev.nodes, t) && AllBuilt(t) && prev.fileToNodes == IdTables(t)
      ensures Valid() && this.eng == eng && nodes == prev.nodes && edges == prev.edges && tables == t
    {
      var n, r := SeedIndexes(prev.nodes, prev.fileToNodes, t);
      this.eng, env := eng, EnvOf(eng);
      nodes, edges, reverseDeps, fileToNodes := prev.nodes, prev.edges, prev.reverseDeps, prev.fileToNodes;
      names, ranges, tables := n, r, t;
    }

    /** Replays name registration and range sorting in stored order, file by file,
        without asking the engine. */
    static method SeedIndexes(nodes: map<NodeId, Node>, fileToNodes: map<string, seq<NodeId>>, ghost t: GoodTables)
      returns (names: map<string, map<string, Option<NodeId>>>, ranges: map<string, seq<Span>>)
      requires Presents(nodes, t) && AllBuilt(t) && fileToNodes == IdTables(t)
      ensures names == NameTables(t) && RangesAgree(t, ranges)
    {
      names, ranges := map[], map[];
      var rest := fileToNodes.Keys;
      while rest != {}
        invariant rest <= t.Keys && names == NameTables(t - rest) && RangesAgree(t, ranges)
        decreases |rest|
      {
        var file :| file in rest;
        var index := ReplayNames(nodes, fileToNodes[file]);
        var cache := SortRanges(nodes, fileToNodes[file]);
        ListedAgree(nodes, t, file);
        IndexReadsListed(t[file].ids, t[file].nodes, nodes);
        RangeAdded(t, ranges, file, cache);
        assert NameTables(t - (rest - {file})) == NameTables(t - rest)[file := index];
        names, ranges, rest := names[file := index], ranges[file := cache], rest - {file};
      }
      assert t - rest == t;
    }

    static method ReplayNames(nodes: map<NodeId, Node>, ids: seq<NodeId>) returns (index: map<string, Option<NodeId>>)
      ensures index == NameIndex(ids, nodes)
    {
      index := map[];
      for i := 0 to |ids|
        invariant index == NameIndex(ids[..i], nodes)
      {
        assert ids[..i + 1][..i] == ids[..i];
        if ids[i] in nodes {
          var node := nodes[ids[i]];
          if node.qualifiedName == MODULE_NAME {
            index := index[MODULE_NAME := Some(ids[i])];
          } else {
            index := Register(Register(index, node.name, ids[i]), node.qualifiedName, ids[i]);
          }
        }
      }
      assert ids[..|ids|] == ids;
    }

    static method SortRanges(nodes: map<NodeId, Node>, ids: seq<NodeId>) returns (cache: seq<Span>)
      ensures cache == RangeCache(ids, nodes)
    {
      cache := [];
      for i := 0 to |ids|
        invariant cache == Spans(ids[..i], nodes)
      {
        assert ids[..i + 1][..i] == ids[..i];
        if ids[i] in nodes && nodes[ids[i]].kind != MODULE_KIND {
          cache := cache + [Span(nodes[ids[i]].range, ids[i])];
        }
      }
      assert ids[..|ids|] == ids;
      cache := Sort(cache, SpanBefore);
    }

    method BuildRangeCache(file: string)
      requires Valid() && file in tables
      modifies this`ranges
      ensures Valid() && ranges.Keys == old(ranges.Keys) + {file}
    {
      var cache := SortRanges(nodes, fileToNodes[file]);
      ListedAgree(nodes, tables, file);
      IndexReadsListed(tables[file].ids, tables[file].nodes, nodes);
      RangeAdded(tables, ranges, file, cache);
      ranges := ranges[file := cache];
    }

    /** Creates the file's module and symbol nodes and registers their names; a symbol whose
        id is a node already, of this file or of another, is skipped. */
    method MaterializeFile(file: string, symbols: seq<Symbol>)
      requires Valid() && PlainNames(symbols) && file !in tables
      modifies this`nodes, this`names, this`fileToNodes, this`tables
      ensures Valid() && Externals(nodes) == Externals(old(nodes))
      ensures tables == old(tables)[file := TableOf(file, Unclaimed(symbols, old(nodes.Keys)))]
    {
      ghost var t := UnclaimedJoins(nodes, tables, file, symbols, ranges);
      var ids, index;
      ids, index := MaterializeNodes(file, symbols);
      fileToNodes, names := fileToNodes[file := ids], names[file := index];
      tables := t;
    }

    method MaterializeNodes(file: string, symbols: seq<Symbol>) returns (ids: seq<NodeId>, index: map<string, Option<NodeId>>)
      requires PlainNames(symbols) && ModuleId(file) !in nodes
      modifies this`nodes
      ensures var ft := TableOf(file, Unclaimed(symbols, old(nodes.Keys)));
              nodes == old(nodes) + ft.nodes && ids == ft.ids && index == NameIndex(ft.ids, ft.nodes)
    {
      ghost var taken, kept := nodes.Keys, [];
      var moduleId := ModuleId(file);
      nodes := nodes[moduleId := ModuleNode(file)];
      index := map[MODULE_NAME := Some(moduleId)];
      ids := [moduleId];
      ModuleIndex(file);
      for i := 0 to |symbols|
        invariant kept == Unclaimed(symbols[..i], taken) && nodes == old(nodes) + TableOf(file, kept).nodes
        invariant ids == TableOf(file, kept).ids && index == NameIndex(TableOf(file, kept).ids, TableOf(file, kept).nodes)
      {
        assert symbols[..i + 1][..i] == symbols[..i];
        ids, index := MaterializeSymbol(file, symbols[i], ids, index, kept, old(nodes));
        kept := Unclaimed(symbols[..i + 1], taken);
      }
      assert symbols[..|symbols|] == symbols;
    }

    method MaterializeSymbol(file: string, s: Symbol, ids0: seq<NodeId>, index0: map<string, Option<NodeId>>,
                             ghost kept: seq<Symbol>, ghost nodes0: map<NodeId, Node>)
      returns (ids: seq<NodeId>, index: map<string, Option<NodeId>>)
      requires QualifiedName(s) != MODULE_NAME && nodes == nodes0 + TableOf(file, kept).nodes
      requires var ft := TableOf(file, kept); ids0 == ft.ids && index0 == NameIndex(ft.ids, ft.nodes)
      modifies this`nodes
      ensures var ft := TableOf(file, kept + UnlessTaken(s, nodes0.Keys));
              nodes == nodes0 + ft.nodes && ids == ft.ids && index == NameIndex(ft.ids, ft.nodes)
    {
      ids, index := ids0, index0;
      TableOneMore(file, kept, s);
      assert kept + [] == kept;
      if s.id.Some? && EntityId(s.id.value) !in nodes {
        var id := EntityId(s.id.value);
        RegisterNext(file, kept, s);
        nodes := nodes[id := SymbolNode(file, s)];
        index := Register(Register(index, s.name, id), QualifiedName(s), id);
        ids := ids + [id];
      }
    }

    /** The cached lookup, falling back to the ordered scan. */
    method FindSymbol(file: string, name: string) returns (r: Option<NodeId>)
      requires Valid()
      ensures r == Resolve(tables, file, name)
    {
      if file in names && name in names[file] && names[file][name].Some? {
        return names[file][name];
      }
      r := None;
      if file in fileToNodes {
        r := ScanIds(nodes, fileToNodes[file], name);
        ListedAgree(nodes, tables, file);
        ScanReadsListed(tables[file].ids, tables[file].nodes, nodes, name);
      }
    }

    static method ScanIds(nodes: map<NodeId, Node>, ids: seq<NodeId>, name: string) returns (r: Option<NodeId>)
      ensures r == Scan(ids, nodes, name)
    {
      for i := 0 to |ids|
        invariant Scan(ids, nodes, name) == Scan(ids[i..], nodes, name)
      {
        assert ids[i..][1..] == ids[i + 1..];
        if ids[i] in nodes && (nodes[ids[i]].name == name || nodes[ids[i]].qualifiedName == name) {
          return Some(ids[i]);
        }
      }
      r := None;
    }

    method FindEnclosing(file: string, range: Range) returns (id: NodeId)
      requires Valid() && file in tables && file in ranges
      ensures id == Enclosing(file, tables[file], range) && id in nodes
    {
      assert RangeAt(tables, ranges, file);
      EnclosingIsHeld(tables, file, range);
      HeldIsNode(nodes, tables, file, Enclosing(file, tables[file], range));
      var found := ScanCache(ranges[file], range);
      id := if found.Some? then found.value else ModuleId(file);
    }

    static method ScanCache(cache: seq<Span>, range: Range) returns (r: Option<NodeId>)
      ensures r == FirstEnclosing(cache, range)
    {
      for i := 0 to |cache|
        invariant FirstEnclosing(cache, range) == FirstEnclosing(cache[i..], range)
      {
        assert cache[i..][1..] == cache[i + 1..];
        if Encloses(cache[i].range, range) {
          return Some(cache[i].id);
        }
      }
      r := None;
    }

    method AddEdge(edge: Edge) returns (added: bool)
      requires Indexed()
      modifies this`edges, this`reverseDeps
      ensures Indexed() && edges == old(edges) + {edge} && added == (edge !in old(edges))
    {
      AddKeepsIndex(edges, edge);
      if IsDependency(edge.kind) {
        reverseDeps := reverseDeps[edge.target := Lookup(reverseDeps, edge.target) + {edge.source}];
      }
      added := edge !in edges;
      edges := edges + {edge};
    }

    method RemoveEdge(edge: Edge) returns (removed: bool)
      requires Indexed()
      modifies this`edges, this`reverseDeps
      ensures Indexed() && edges == old(edges) - {edge} && removed == (edge in old(edges))
    {
      removed := edge in edges;
      if removed {
        RemoveKeepsIndex(edges, edge);
      } else {
        assert edges - {edge} == edges;
      }
      edges := edges - {edge};
      if removed && IsDependency(edge.kind) {
        if !StillDepends(edges, edge.source, edge.target) && edge.target in reverseDeps {
          var sources := reverseDeps[edge.target] - {edge.source};
          reverseDeps := if sources == {} then reverseDeps - {edge.target} else reverseDeps[edge.target := sources];
        }
      }
    }

    /** Adds an edge if both its ends are nodes. */
    method TryAddEdge(edge: Edge)
      requires Indexed()
      modifies this`edges, this`reverseDeps
      ensures Indexed()
      ensures edges == old(edges) + if edge.source in nodes && edge.target in nodes then {edge} else {}
    {
      if edge.source in nodes && edge.target in nodes {
        var _ := AddEdge(edge);
      }
    }

    /** Adds an external stub unless the id is already a node. */
    method AddStub(id: NodeId, name: string, qualifiedName: string, kind: string, package: string)
      requires Tabled() && id.ExternalId?
      modifies this`nodes
      ensures StubFits(id, StubNode(name, qualifiedName, kind, package)) ==> Tabled()
      ensures nodes.Keys == old(nodes.Keys) + {id} && Externals(nodes) == Externals(old(nodes)) + {id}
      ensures nodes == if id in old(nodes) then old(nodes) else old(nodes)[id := StubNode(name, qualifiedName, kind, package)]
    {
      if id in nodes {
        StubIsExternal(nodes, tables, id);
      } else {
        var stub := StubNode(name, qualifiedName, kind, package);
        if StubFits(id, stub) {
          AddStubPresents(nodes, tables, id, stub);
        }
        nodes := nodes[id := stub];
      }
    }

    // ---- Edge passes ---------------------------------------------------------------------

    method AddContainmentEdges(file: string, symbols: seq<Symbol>)
      requires Valid() && file in tables && tables[file] == TableOf(file, symbols)
      modifies this`edges, this`reverseDeps
      ensures Valid() && edges == old(edges) + ContainmentEdges(file, tables[file], symbols)
    {
      for i := 0 to |symbols|
        invariant Valid() && edges == old(edges) + ContainmentEdges(file, tables[file], symbols[..i])
      {
        assert symbols[..i + 1][..i] == symbols[..i];
        TableCovers'(file, symbols, i);
        AddContainmentEdge(file, symbols[i]);
      }
      assert symbols[..|symbols|] == symbols;
    }

    method AddContainmentEdge(file: string, s: Symbol)
      requires Valid() && file in tables && (s.id.Some? ==> EntityId(s.id.value) in tables[file].nodes)
      modifies this`edges, this`reverseDeps
      ensures Valid() && edges == old(edges) + ContainmentEdge(file, tables[file], s)
    {
      if s.id.Some? {
        var parent := ModuleId(file);
        if s.container.Some? {
          var found := FindSymbol(file, s.container.value);
          if found.Some? {
            parent := found.value;
          }
        }
        ParentIsHeld(tables, file, s);
        HeldIsNode(nodes, tables, file, parent);
        HeldIsNode(nodes, tables, file, EntityId(s.id.value));
        var kind := if parent == ModuleId(file) then Defines else Contains;
        TryAddEdge(Edge(parent, EntityId(s.id.value), kind, None, None, None));
      }
    }

    method AddImportEdge(file: string, target: string, range: Range)
      requires Valid() && file in tables && target != file
      modifies this`nodes, this`edges, this`reverseDeps
      ensures Valid() && nodes.Keys >= old(nodes.Keys)
      ensures edges == old(edges) + ImportEdges(env, tables, file, target, range)
      ensures Externals(nodes) == Externals(old(nodes)) + ExternalTargets(ImportEdges(env, tables, file, target, range))
    {
      ModuleNodeIffListed(nodes, tables, file);
      ModuleNodeIffListed(nodes, tables, target);
      var targetModule := ModuleId(target);
      if targetModule !in nodes {
        if target in env.project {
          return;
        }
        var package := PackageOr(env, target, UNKNOWN);
        targetModule := ExternalId(package, MODULE_NAME);
        AddStub(targetModule, package, MODULE_NAME, MODULE_KIND, package);
      }
      TryAddEdge(Edge(ModuleId(file), targetModule, Imports, None, Some(file), Some(range)));
    }

    /** The node an occurrence refers to, creating a stub for an off-project target. */
    method FindTarget(target: string, name: string, qualified: Option<string>) returns (id: Option<NodeId>)
      requires Valid()
      modifies this`nodes
      ensures Valid() && id == OccurrenceTarget(env, tables, target, name, qualified)
      ensures id.Some? ==> id.value in nodes
      ensures Externals(nodes) == Externals(old(nodes)) + if id.Some? && id.value.ExternalId? then {id.value} else {}
    {
      id := None;
      if qualified.Some? {
        id := FindNode(target, qualified.value);
      }
      if id.None? {
        id := FindNode(target, name);
      }
      if id.None? && target !in env.project {
        var stub := ExternalId(PackageOr(env, target, target), name);
        AddStub(stub, name, name, UNKNOWN, PackageOr(env, target, UNKNOWN));
        id := Some(stub);
      }
    }

    method FindNode(file: string, name: string) returns (id: Option<NodeId>)
      requires Valid()
      ensures id == Resolve(tables, file, name) && (id.Some? ==> id.value in nodes && !id.value.ExternalId?)
    {
      id := FindSymbol(file, name);
      if id.Some? {
        FoundIsHeld(tables, file, name);
        HeldIsNode(nodes, tables, file, id.value);
      }
    }

    method ResolveOccurrence(file: string, occ: Occurrence)
      requires Valid() && file in tables && file in ranges
      modifies this`nodes, this`edges, this`reverseDeps
      ensures Valid() && edges == old(edges) + OccurrenceEdges(env, tables, file, occ)
      ensures Externals(nodes) ==
              Externals(old(nodes)) + ExternalTargets(OccurrenceEdges(env, tables, file, occ)) + ImportNamed(env, tables, occ)
    {
      if occ.role == IMPORT_ROLE && occ.targetFile.None? {
        if occ.definition.Some? {
          var target := Normalize(env, occ.definition.value);
          if target != file {
            AddImportEdge(file, target, occ.range);
          }
        }
      } else if occ.targetFile.Some? && occ.targetName.Some? {
        var target := Normalize(env, occ.targetFile.value);
        var id := FindTarget(target, occ.targetName.value, occ.targetQualified);
        if id.Some? {
          ReferenceNamesStub(env, tables, file, occ, target, id.value);
          AddReference(file, occ, target, id.value);
        }
      }
    }

    method AddReference(file: string, occ: Occurrence, target: string, id: NodeId)
      requires Valid() && file in tables && file in ranges && id in nodes
      modifies this`nodes, this`edges, this`reverseDeps
      ensures Valid()
      ensures edges == old(edges) + ReferenceTo(env, tables, file, occ, target, id)
      ensures Externals(nodes) == Externals(old(nodes)) + ExternalTargets(ReferenceTo(env, tables, file, occ, target, id))
    {
      if id.ExternalId? {
        StubIsExternal(nodes, tables, id);
      }
      var from := FindEnclosing(file, occ.range);
      if from == id {
        return;
      }
      if occ.role != IMPORT_ROLE {
        TryAddEdge(Edge(from, id, References, Some(occ.role), Some(file), Some(occ.range)));
      }
      if target != file {
        AddImportEdge(file, target, occ.range);
      }
    }

    method ResolveReferences(file: string, occs: seq<Occurrence>)
      requires Valid() && file in tables && file in ranges
      modifies this`nodes, this`edges, this`reverseDeps
      ensures Valid() && edges == old(edges) + ReferenceEdges(env, tables, file, occs)
      ensures Externals(nodes) ==
              Externals(old(nodes)) + ExternalTargets(ReferenceEdges(env, tables, file, occs)) + ImportNames(env, tables, occs)
    {
      for i := 0 to |occs|
        invariant Valid() && edges == old(edges) + ReferenceEdges(env, tables, file, occs[..i])
        invariant Externals(nodes) == Externals(old(nodes)) +
                  ExternalTargets(ReferenceEdges(env, tables, file, occs[..i])) + ImportNames(env, tables, occs[..i])
      {
        assert occs[..i + 1][..i] == occs[..i];
        ExternalTargetsSplit(ReferenceEdges(env, tables, file, occs[..i]), OccurrenceEdges(env, tables, file, occs[i]));
        ResolveOccurrence(file, occs[i]);
      }
      assert occs[..|occs|] == occs;
    }

    method AddSuperEdge(id: NodeId, sup: Supertype)
      requires Valid() && id in nodes
      modifies this`nodes, this`edges, this`reverseDeps
      ensures Valid() && id in nodes && edges == old(edges) + SuperEdge(env, tables, id, sup)
      ensures Externals(nodes) == Externals(old(nodes)) + ExternalTargets(SuperEdge(env, tables, id, sup))
    {
      var file := Normalize(env, sup.path);
      var target := FindNode(file, sup.name);
      if target.None? {
        var package := env.package(file);
        if package.None? && file !in fileToNodes {
          package := Some(UNKNOWN);
        }
        if package.None? {
          return;
        }
        target := Some(ExternalId(package.value, sup.name));
        AddStub(target.value, sup.name, package.value + "." + sup.name, CLASS_KIND, package.value);
      }
      TryAddEdge(Edge(id, target.value, Inherits, None, None, None));
    }

    method AddSuperEdges(id: NodeId, sups: seq<Supertype>)
      requires Valid() && id in nodes
      modifies this`nodes, this`edges, this`reverseDeps
      ensures Valid() && edges == old(edges) + SuperEdges(env, tables, id, sups)
      ensures Externals(nodes) == Externals(old(nodes)) + ExternalTargets(SuperEdges(env, tables, id, sups))
    {
      for i := 0 to |sups|
        invariant Valid() && id in nodes && edges == old(edges) + SuperEdges(env, tables, id, sups[..i])
        invariant Externals(nodes) == Externals(old(nodes)) + ExternalTargets(SuperEdges(env, tables, id, sups[..i]))
      {
        assert sups[..i + 1][..i] == sups[..i];
        StubsMore(Externals(old(nodes)), SuperEdges(env, tables, id, sups[..i]), SuperEdge(env, tables, id, sups[i]));
        AddSuperEdge(id, sups[i]);
      }
      assert sups[..|sups|] == sups;
    }

    method InheritsPass(file: string, facts: Facts, symbols: seq<Symbol>)
      requires Valid() && file in tables && tables[file] == TableOf(file, symbols)
      modifies this`nodes, this`edges, this`reverseDeps
      ensures Valid() && edges == old(edges) + InheritanceEdges(env, tables, facts, symbols)
      ensures Externals(nodes) == Externals(old(nodes)) + ExternalTargets(InheritanceEdges(env, tables, facts, symbols))
    {
      for i := 0 to |symbols|
        invariant Valid() && edges == old(edges) + InheritanceEdges(env, tables, facts, symbols[..i])
        invariant Externals(nodes) ==
                  Externals(old(nodes)) + ExternalTargets(InheritanceEdges(env, tables, facts, symbols[..i]))
      {
        assert symbols[..i + 1][..i] == symbols[..i];
        TableCovers'(file, symbols, i);
        StubsMore(Externals(old(nodes)), InheritanceEdges(env, tables, facts, symbols[..i]),
                  BaseEdges(env, tables, facts, symbols[i]));
        AddBases(file, facts, symbols[i]);
      }
      assert symbols[..|symbols|] == symbols;
    }

    method AddBases(file: string, facts: Facts, s: Symbol)
      requires Valid() && file in tables && (s.id.Some? ==> EntityId(s.id.value) in tables[file].nodes)
      modifies this`nodes, this`edges, this`reverseDeps
      ensures Valid() && edges == old(edges) + BaseEdges(env, tables, facts, s)
      ensures Externals(nodes) == Externals(old(nodes)) + ExternalTargets(BaseEdges(env, tables, facts, s))
    {
      if s.id.Some? {
        HeldIsNode(nodes, tables, file, EntityId(s.id.value));
        AddSuperEdges(EntityId(s.id.value), SupersOf(facts, s));
      }
    }

    // ---- Removal ---------------------------------------------------------------------------

    /** Removes a file's nodes and every edge that starts at one of them. */
    method EvictFile(file: string)
      requires Valid()
      modifies this
      ensures Valid() && tables == old(tables) - {file} && Externals(nodes) == Externals(old(nodes))
      ensures edges == EdgesOutside(old(edges), old(tables), {file})
    {
      if file !in fileToNodes {
        assert tables - {file} == tables;
        assert edges == EdgesOutside(edges, tables, {file});
        return;
      }
      var ids := fileToNodes[file];
      EvictedIds(tables, file);
      RemoveOutgoing(set e | e in edges && e.source in ids);
      assert edges == EdgesOutside(old(edges), tables, {file});
      DropNodes(file, ids);
    }

    method DropNodes(file: string, ids: seq<NodeId>)
      requires Valid() && file in tables && ids == tables[file].ids
      modifies this`nodes, this`fileToNodes, this`names, this`ranges, this`tables
      ensures Valid() && tables == old(tables) - {file} && Externals(nodes) == Externals(old(nodes))
    {
      EvictedIds(tables, file);
      DropFileIsGood(tables, {file});
      DropFileKeeps(tables, file, tables - {file}, ranges);
      DropFilePresents(nodes, tables, file, tables - {file});
      DropFileKeepsStubs(nodes, tables, file);
      nodes := nodes - (set id | id in ids);
      fileToNodes, names, ranges := fileToNodes - {file}, names - {file}, ranges - {file};
      tables := tables - {file};
    }

    method RemoveOutgoing(outgoing: set<Edge>)
      requires Indexed() && outgoing <= edges
      modifies this`edges, this`reverseDeps
      ensures Indexed() && edges == old(edges) - outgoing
    {
      var rest := outgoing;
      while rest != {}
        invariant Indexed() && rest <= outgoing && rest <= edges && edges == old(edges) - (outgoing - rest)
        decreases |rest|
      {
        var edge :| edge in rest;
        rest := rest - {edge};
        var _ := RemoveEdge(edge);
      }
    }

    /** Drops exactly the external stubs that no edge points at. */
    method GcExternalStubs()
      requires Valid()
      modifies this`nodes
      ensures Valid()
      ensures forall id :: id in nodes <==> id in old(nodes) && !Unreferenced(old(nodes), edges, id)
      ensures forall id :: id in nodes ==> nodes[id] == old(nodes)[id]
    {
      var doomed := set id | id in nodes && Unreferenced(nodes, edges, id);
      DropStubsPresents(nodes, tables, doomed);
      nodes := nodes - doomed;
    }
  }

  function StubNode(name: string, qualifiedName: string, kind: string, package: string): Node {
    Node(name, qualifiedName, kind, EXTERNAL_FILE, MODULE_RANGE, None, None, map[], true, Some(package))
  }

  predicate Unreferenced(nodes: map<NodeId, Node>, edges: set<Edge>, id: NodeId) {
    id in nodes && nodes[id].external && !(exists e :: e in edges && e.target == id)
  }

  /** A reference to an off-project symbol is an edge to its stub. */
  lemma ReferenceNamesStub(env: Env, t: GoodTables, file: string, occ: Occurrence, target: string, id: NodeId)
    requires AllBuilt(t) && file in t
    ensures id.ExternalId? && occ.role != IMPORT_ROLE ==> id in ExternalTargets(ReferenceTo(env, t, file, occ, target, id))
  {
    EnclosingIsHeld(t, file, occ.range);
    assert ShapedAt(t, file);
    var e := Edge(Enclosing(file, t[file], occ.range), id, References, Some(occ.role), Some(file), Some(occ.range));
    assert id.ExternalId? && occ.role != IMPORT_ROLE ==> e in ReferenceTo(env, t, file, occ, target, id);
  }

  lemma TableCovers'(file: string, symbols: seq<Symbol>, i: nat)
    requires i < |symbols|
    ensures symbols[i].id.Some? ==> EntityId(symbols[i].id.value) in TableOf(file, symbols).nodes
  {
    if symbols[i].id.Some? {
      TableCovers(file, symbols, |symbols|, i);
    }
  }

  lemma ModuleIndex(file: string)
    ensures var ft := FileTable([ModuleId(file)], map[ModuleId(file) := ModuleNode(file)]);
            NameIndex(ft.ids, ft.nodes) == map[MODULE_NAME := Some(ModuleId(file))]
  {
    var ids := [ModuleId(file)];
    assert ids[..0] == [];
  }

  function UnlessTaken(s: Symbol, taken: set<NodeId>): seq<Symbol> {
    if s.id.Some? && EntityId(s.id.value) in taken then [] else [s]
  }

  /** The symbols whose ids are not nodes already. */
  function Unclaimed(symbols: seq<Symbol>, taken: set<NodeId>): seq<Symbol> {
    if symbols == [] then []
    else Unclaimed(symbols[..|symbols| - 1], taken) + UnlessTaken(symbols[|symbols| - 1], taken)
  }

  lemma {:induction false} UnclaimedMeans(symbols: seq<Symbol>, taken: set<NodeId>, s: Symbol)
    ensures s in Unclaimed(symbols, taken) <==> s in symbols && (s.id.Some? ==> EntityId(s.id.value) !in taken)
  {
    if symbols != [] {
      UnclaimedMeans(symbols[..|symbols| - 1], taken, s);
    }
  }

  /** Where no id is taken, no symbol is skipped. */
  lemma {:induction false} NothingClaimed(symbols: seq<Symbol>, taken: set<NodeId>)
    requires forall i :: 0 <= i < |symbols| && symbols[i].id.Some? ==> EntityId(symbols[i].id.value) !in taken
    ensures Unclaimed(symbols, taken) == symbols
  {
    if symbols != [] {
      NothingClaimed(symbols[..|symbols| - 1], taken);
    }
  }

  /** Skipping what is taken keeps every id in one file. */
  lemma UnclaimedIsGood(nodes: map<NodeId, Node>, t: GoodTables, file: string, symbols: seq<Symbol>) returns (t': GoodTables)
    requires Presents(nodes, t) && AllBuilt(t) && PlainNames(symbols) && file !in t
    ensures t' == t[file := TableOf(file, Unclaimed(symbols, nodes.Keys))] && Adds(t, file, t') && Built(file, t'[file])
  {
    var kept := Unclaimed(symbols, nodes.Keys);
    var all: Tables := t[file := TableOf(file, kept)];
    forall s | s in kept
      ensures QualifiedName(s) != MODULE_NAME
    {
      UnclaimedMeans(symbols, nodes.Keys, s);
    }
    TableIsListed(file, kept);
    forall f
      ensures ShapedAt(all, f)
    {
      assert ShapedAt(t, f);
    }
    forall f, g, id
      ensures SeparateAt(all, f, g, id)
    {
      UnclaimedIsSeparate(nodes, t, file, symbols, f, g, id);
    }
    t' := all;
  }

  /** The node map, the lists and the caches once the unclaimed symbols are added. */
  lemma UnclaimedJoins(nodes: map<NodeId, Node>, t: GoodTables, file: string, symbols: seq<Symbol>,
                       ranges: map<string, seq<Span>>) returns (t': GoodTables)
    requires Presents(nodes, t) && AllBuilt(t) && RangesAgree(t, ranges) && PlainNames(symbols) && file !in t
    ensures t' == t[file := TableOf(file, Unclaimed(symbols, nodes.Keys))] && ModuleId(file) !in nodes
    ensures Presents(nodes + t'[file].nodes, t') && Externals(nodes + t'[file].nodes) == Externals(nodes)
    ensures AllBuilt(t') && RangesAgree(t', ranges) && IdTables(t') == IdTables(t)[file := t'[file].ids]
    ensures NameTables(t') == NameTables(t)[file := NameIndex(t'[file].ids, t'[file].nodes)]
  {
    t' := UnclaimedIsGood(nodes, t, file, symbols);
    AddFileKeepsStubs(nodes, t, file, t');
    AddFilePresents(nodes, t, file, t');
    AddFileKeeps(t, file, t', ranges);
    ModuleNodeIffListed(nodes, t, file);
  }

  lemma UnclaimedIsSeparate(nodes: map<NodeId, Node>, t: GoodTables, file: string, symbols: seq<Symbol>,
                            f: string, g: string, id: NodeId)
    requires Presents(nodes, t) && AllBuilt(t) && file !in t
    ensures SeparateAt(t[file := TableOf(file, Unclaimed(symbols, nodes.Keys))], f, g, id)
  {
    assert SeparateAt(t, f, g, id) && ShowsAt(nodes, t, f, id) && ShowsAt(nodes, t, g, id);
    if id in TableOf(file, Unclaimed(symbols, nodes.Keys)).nodes {
      UnclaimedIsNew(nodes, t, file, symbols, id);
    }
  }

  lemma UnclaimedIsNew(nodes: map<NodeId, Node>, t: GoodTables, file: string, symbols: seq<Symbol>, id: NodeId)
    requires Presents(nodes, t) && AllBuilt(t) && file !in t && id in TableOf(file, Unclaimed(symbols, nodes.Keys)).nodes
    ensures id !in nodes
  {
    var kept := Unclaimed(symbols, nodes.Keys);
    if id == ModuleId(file) {
      ModuleNodeIffListed(nodes, t, file);
    } else {
      TableDescribes(file, kept, |kept|, id);
      var i :| 0 <= i < |kept| && kept[i].id.Some? && EntityId(kept[i].id.value) == id;
      UnclaimedMeans(symbols, nodes.Keys, kept[i]);
    }
  }

  lemma NextIsFresh(nodes: map<NodeId, Node>, t: GoodTables, file: string, symbols: seq<Symbol>, t': GoodTables, i: nat)
    requires Presents(nodes, t) && Adds(t, file, t') && t'[file] == TableOf(file, symbols) && i < |symbols|
    ensures symbols[i].id.Some? ==> EntityId(symbols[i].id.value) !in nodes
  {
    if symbols[i].id.Some? {
      TableCovers(file, symbols, |symbols|, i);
      NewIdIsFresh(nodes, t, file, t', EntityId(symbols[i].id.value));
    }
  }

  lemma {:induction false} TablePrefix(file: string, symbols: seq<Symbol>, s: Symbol, n: nat)
    requires n <= |symbols|
    ensures TableUpTo(file, symbols + [s], n) == TableUpTo(file, symbols, n)
  {
    if n > 0 {
      TablePrefix(file, symbols, s, n - 1);
    }
  }

  lemma TableOneMore(file: string, symbols: seq<Symbol>, s: Symbol)
    ensures var ft := TableOf(file, symbols);
            TableOf(file, symbols + [s]) ==
            if s.id.None? || EntityId(s.id.value) in ft.nodes then ft
            else FileTable(ft.ids + [EntityId(s.id.value)], ft.nodes[EntityId(s.id.value) := SymbolNode(file, s)])
  {
    TablePrefix(file, symbols, s, |symbols|);
  }

  /** Registering the next symbol's node at the end of the list. */
  lemma RegisterNext(file: string, symbols: seq<Symbol>, s: Symbol)
    requires QualifiedName(s) != MODULE_NAME && s.id.Some? && EntityId(s.id.value) !in TableOf(file, symbols).nodes
    ensures var id := EntityId(s.id.value); var ft, ft' := TableOf(file, symbols), TableOf(file, symbols + [s]);
            NameIndex(ft'.ids, ft'.nodes) == Register(Register(NameIndex(ft.ids, ft.nodes), s.name, id), QualifiedName(s), id)
  {
    var id := EntityId(s.id.value);
    var ft := TableOf(file, symbols);
    var ids := ft.ids + [id];
    TableOneMore(file, symbols, s);
    assert ids[..|ft.ids|] == ft.ids;
    forall k | 0 <= k < |ft.ids|
      ensures ft.ids[k] != id && ft.ids[k] in ft.nodes
    {
      assert ft.ids[k] in ft.ids;
      TableLists(file, symbols, |symbols|, ft.ids[k]);
    }
    IndexReadsListed(ft.ids, ft.nodes, ft.nodes[id := SymbolNode(file, s)]);
  }

  /** The edges that start at no node of the given files. */
  ghost function EdgesOutside(edges: set<Edge>, t: Tables, files: set<string>): set<Edge> {
    set e | e in edges && forall f :: f in files && f in t ==> e.source !in t[f].nodes
  }

  lemma EvictedIds(t: Tables, file: string)
    requires AllBuilt(t) && file in t
    ensures (set id | id in t[file].ids) == t[file].nodes.Keys
  {
    assert BuiltAt(t, file);
    BuiltIsListed(file, t[file]);
  }
}
