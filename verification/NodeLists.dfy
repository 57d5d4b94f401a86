/** Facts about the per-file node lists of a well-formed project, and how a flat node
    map presents them. */
module NodeLists {
  import opened Wrappers
  import opened Orders
  import opened CodeLayer
  import opened LayerSpec

  /** No node but the file's own module and project entities. */
  ghost predicate Shaped(file: string, ft: FileTable) {
    forall id :: id in ft.nodes ==> (id == ModuleId(file) || id.EntityId?) && !ft.nodes[id].external
  }

  /** The list names exactly the file's nodes, its module first. */
  ghost predicate Listed(file: string, ft: FileTable) {
    ModuleFirst(ft) && ft.ids[0] == ModuleId(file) && forall id :: id in ft.ids <==> id in ft.nodes
  }

  ghost predicate PlainNames(symbols: seq<Symbol>) {
    forall s :: s in symbols ==> QualifiedName(s) != MODULE_NAME
  }

  /** The table was materialised from some list of symbols. */
  ghost predicate Built(file: string, ft: FileTable) {
    exists symbols :: PlainNames(symbols) && ft == TableOf(file, symbols)
  }

  ghost predicate BuiltAt(t: Tables, f: string) {
    f in t ==> Built(f, t[f])
  }

  ghost predicate AllBuilt(t: Tables) {
    forall f :: BuiltAt(t, f)
  }

  ghost predicate ShapedAt(t: Tables, f: string) {
    f in t ==> Shaped(f, t[f])
  }

  ghost predicate SeparateAt(t: Tables, f: string, g: string, id: NodeId) {
    f in t && g in t && id in t[f].nodes && id in t[g].nodes ==> f == g
  }

  ghost predicate Good(t: Tables) {
    (forall f :: ShapedAt(t, f)) && (forall f, g, id :: SeparateAt(t, f, g, id))
  }

  /** Node lists in which no id belongs to two files. */
  type GoodTables = t: Tables | Good(t) witness map[]

  /** A project whose engine answers are well formed. */
  type Project = e: Engine | WellFormed(e) ghost witness Engine("", p => None, map[])

  // ---- The node map ------------------------------------------------------------------------

  ghost predicate Owned(t: Tables, id: NodeId) {
    exists f :: f in t && id in t[f].nodes
  }

  ghost predicate ShowsAt(nodes: map<NodeId, Node>, t: Tables, f: string, id: NodeId) {
    f in t && id in t[f].nodes ==> id in nodes && nodes[id] == t[f].nodes[id]
  }

  /** A stub says what its id says: the name of a symbol of unknown kind, a whole package, or a
      class that something inherits from. */
  ghost predicate StubFits(id: NodeId, stub: Node) {
    && id.ExternalId? && stub.external && stub.file == "<external>" && stub.contentHash.None? && stub.package.Some?
    && var package := stub.package.value;
       || (stub.kind == "unknown" && stub.name == stub.qualifiedName == id.member && (package == id.owner || package == "unknown"))
       || (stub.kind == "module" && stub.qualifiedName == id.member == "<module>" && stub.name == package == id.owner)
       || (stub.kind == "class_" && stub.name == id.member && stub.qualifiedName == id.owner + "." + id.member && package == id.owner)
  }

  ghost predicate PlacedAt(nodes: map<NodeId, Node>, t: Tables, id: NodeId) {
    id in nodes ==> if nodes[id].external then StubFits(id, nodes[id]) else Owned(t, id)
  }

  /** The nodes are exactly the listed ones plus external stubs. */
  ghost predicate Presents(nodes: map<NodeId, Node>, t: Tables) {
    (forall f, id :: ShowsAt(nodes, t, f, id)) && (forall id :: PlacedAt(nodes, t, id))
  }

  function NonExternal(nodes: map<NodeId, Node>): map<NodeId, Node> {
    map id | id in nodes && !nodes[id].external :: nodes[id]
  }

  /** The ids of the external stubs. */
  ghost function Externals(nodes: map<NodeId, Node>): set<NodeId> {
    set id | id in nodes && nodes[id].external
  }

  lemma StubIsExternal(nodes: map<NodeId, Node>, t: GoodTables, id: NodeId)
    requires Presents(nodes, t) && id in nodes
    ensures id.ExternalId? <==> nodes[id].external
  {
    assert PlacedAt(nodes, t, id);
    if !nodes[id].external {
      var f := OwnedBy(nodes, t, id);
      assert ShapedAt(t, f);
    }
  }

  lemma AddFileKeepsStubs(nodes: map<NodeId, Node>, t: GoodTables, f: string, t': GoodTables)
    requires Presents(nodes, t) && Adds(t, f, t')
    ensures Externals(nodes + t'[f].nodes) == Externals(nodes)
  {
    forall id | id in t'[f].nodes
      ensures id !in nodes && !t'[f].nodes[id].external
    {
      NewIdIsFresh(nodes, t, f, t', id);
    }
  }

  lemma DropFileKeepsStubs(nodes: map<NodeId, Node>, t: GoodTables, f: string)
    requires Presents(nodes, t) && f in t
    ensures Externals(nodes - t[f].nodes.Keys) == Externals(nodes)
  {
    forall id | id in t[f].nodes
      ensures id in nodes && !nodes[id].external
    {
      HeldIsNode(nodes, t, f, id);
    }
  }

  /** Two node maps that present the same lists differ only in their stubs. */
  lemma PresentsUnique(a: map<NodeId, Node>, b: map<NodeId, Node>, t: GoodTables)
    requires Presents(a, t) && Presents(b, t)
    ensures NonExternal(a) == NonExternal(b)
  {
    forall id
      ensures id in NonExternal(a) <==> id in NonExternal(b)
      ensures id in NonExternal(a) && id in NonExternal(b) ==> NonExternal(a)[id] == NonExternal(b)[id]
    {
      PresentedNode(a, b, t, id);
      PresentedNode(b, a, t, id);
    }
  }

  lemma PresentedNode(a: map<NodeId, Node>, b: map<NodeId, Node>, t: GoodTables, id: NodeId)
    requires Presents(a, t) && Presents(b, t)
    ensures id in NonExternal(a) ==> id in NonExternal(b) && a[id] == b[id]
  {
    if id in NonExternal(a) {
      var f := OwnedBy(a, t, id);
      HeldIsNode(b, t, f, id);
    }
  }

  lemma OwnedBy(nodes: map<NodeId, Node>, t: GoodTables, id: NodeId) returns (f: string)
    requires Presents(nodes, t) && id in nodes && !nodes[id].external
    ensures f in t && id in t[f].nodes && nodes[id] == t[f].nodes[id]
  {
    assert PlacedAt(nodes, t, id);
    f :| f in t && id in t[f].nodes;
    assert ShowsAt(nodes, t, f, id);
  }

  lemma OnlyOwner(t: GoodTables, f: string, g: string, id: NodeId)
    requires f in t && g in t && id in t[f].nodes && id in t[g].nodes
    ensures f == g
  {
    assert SeparateAt(t, f, g, id);
  }

  lemma HeldIsNode(nodes: map<NodeId, Node>, t: GoodTables, f: string, id: NodeId)
    requires Presents(nodes, t) && f in t && id in t[f].nodes
    ensures id in nodes && nodes[id] == t[f].nodes[id] && !nodes[id].external && !id.ExternalId?
  {
    assert ShowsAt(nodes, t, f, id) && ShapedAt(t, f);
  }

  /** None of a new file's ids is a node yet. */
  lemma NewIdIsFresh(nodes: map<NodeId, Node>, t: GoodTables, f: string, t': GoodTables, id: NodeId)
    requires Presents(nodes, t) && Adds(t, f, t') && id in t'[f].nodes
    ensures id !in nodes && !t'[f].nodes[id].external
  {
    assert ShapedAt(t', f) && PlacedAt(nodes, t, id);
    if id in nodes && !nodes[id].external {
      var g := OwnedBy(nodes, t, id);
      OnlyOwner(t', f, g, id);
    }
  }

  /** `t'` is `t` with one more file. */
  ghost predicate Adds(t: Tables, f: string, t': Tables) {
    f !in t && f in t' && t' == t[f := t'[f]]
  }

  lemma AddedIsNode(nodes: map<NodeId, Node>, t: GoodTables, f: string, t': GoodTables, g: string, id: NodeId)
    requires Presents(nodes, t) && Adds(t, f, t')
    ensures ShowsAt(nodes + t'[f].nodes, t', g, id)
  {
    if g in t' && id in t'[g].nodes && g != f {
      HeldIsNode(nodes, t, g, id);
      if id in t'[f].nodes {
        OnlyOwner(t', f, g, id);
      }
    }
  }

  lemma AddedIsOwned(nodes: map<NodeId, Node>, t: GoodTables, f: string, t': GoodTables, id: NodeId)
    requires Presents(nodes, t) && Adds(t, f, t')
    ensures PlacedAt(nodes + t'[f].nodes, t', id)
  {
    assert PlacedAt(nodes, t, id);
    if id in t'[f].nodes {
      NewIdIsFresh(nodes, t, f, t', id);
    } else if id in nodes && !nodes[id].external {
      var g := OwnedBy(nodes, t, id);
      assert g in t' && id in t'[g].nodes;
    }
  }

  lemma AddFilePresents(nodes: map<NodeId, Node>, t: GoodTables, f: string, t': GoodTables)
    requires Presents(nodes, t) && Adds(t, f, t')
    ensures Presents(nodes + t'[f].nodes, t')
  {
    forall g, id
      ensures ShowsAt(nodes + t'[f].nodes, t', g, id)
    {
      AddedIsNode(nodes, t, f, t', g, id);
    }
    forall id
      ensures PlacedAt(nodes + t'[f].nodes, t', id)
    {
      AddedIsOwned(nodes, t, f, t', id);
    }
  }

  lemma DropFileIsGood(t: GoodTables, files: set<string>)
    ensures Good(t - files)
  {
    var t': Tables := t - files;
    forall f
      ensures ShapedAt(t', f)
    {
      assert ShapedAt(t, f);
    }
    forall f, g, id
      ensures SeparateAt(t', f, g, id)
    {
      assert SeparateAt(t, f, g, id);
    }
  }

  lemma DropFilePresents(nodes: map<NodeId, Node>, t: GoodTables, f: string, t': Tables)
    requires Presents(nodes, t) && f in t && t' == t - {f}
    ensures Presents(nodes - t[f].nodes.Keys, t')
  {
    forall g, id
      ensures ShowsAt(nodes - t[f].nodes.Keys, t', g, id)
    {
      assert ShowsAt(nodes, t, g, id) && SeparateAt(t, f, g, id);
    }
    forall id
      ensures PlacedAt(nodes - t[f].nodes.Keys, t', id)
    {
      assert PlacedAt(nodes, t, id);
      if id in nodes && id !in t[f].nodes && !nodes[id].external {
        var g := OwnedBy(nodes, t, id);
        assert g in t' && id in t'[g].nodes;
      }
    }
  }

  lemma AddStubPresents(nodes: map<NodeId, Node>, t: GoodTables, id: NodeId, stub: Node)
    requires Presents(nodes, t) && id !in nodes && StubFits(id, stub)
    ensures Presents(nodes[id := stub], t)
  {
    var nodes' := nodes[id := stub];
    forall f, x
      ensures ShowsAt(nodes', t, f, x)
    {
      assert ShowsAt(nodes, t, f, x);
    }
    forall x
      ensures PlacedAt(nodes', t, x)
    {
      assert PlacedAt(nodes, t, x);
    }
  }

  lemma DropStubsPresents(nodes: map<NodeId, Node>, t: GoodTables, doomed: set<NodeId>)
    requires Presents(nodes, t)
    requires forall id :: id in doomed ==> id in nodes && nodes[id].external
    ensures Presents(nodes - doomed, t)
  {
    forall f, id
      ensures ShowsAt(nodes - doomed, t, f, id)
    {
      assert ShowsAt(nodes, t, f, id) && ShapedAt(t, f);
    }
    forall id
      ensures PlacedAt(nodes - doomed, t, id)
    {
      assert PlacedAt(nodes, t, id);
    }
  }

  /** A module node exists exactly for a listed file. */
  lemma ModuleNodeIffListed(nodes: map<NodeId, Node>, t: GoodTables, file: string)
    requires Presents(nodes, t) && AllBuilt(t)
    ensures ModuleId(file) in nodes <==> file in t
  {
    if file in t {
      assert BuiltAt(t, file);
      BuiltIsListed(file, t[file]);
      HeldIsNode(nodes, t, file, ModuleId(file));
    }
    if ModuleId(file) in nodes {
      assert PlacedAt(nodes, t, ModuleId(file));
      var g := OwnedBy(nodes, t, ModuleId(file));
      assert ShapedAt(t, g);
    }
  }

  // ---- Whatever is found is listed ---------------------------------------------------------

  lemma FoundIsHeld(t: Tables, file: string, name: string)
    requires AllBuilt(t) && Resolve(t, file, name).Some?
    ensures file in t && Resolve(t, file, name).value in t[file].nodes
  {
    var ft := t[file];
    assert BuiltAt(t, file);
    BuiltIsListed(file, ft);
    IndexMeans(ft.ids, ft.nodes, name);
    ScanFinds(ft.ids, ft.nodes, name);
  }

  lemma ModuleIsHeld(t: Tables, file: string)
    requires AllBuilt(t) && file in t
    ensures ModuleId(file) in t[file].nodes
  {
    assert BuiltAt(t, file);
    BuiltIsListed(file, t[file]);
  }

  lemma ParentIsHeld(t: GoodTables, file: string, s: Symbol)
    requires AllBuilt(t) && file in t
    ensures ParentOf(file, t[file], s) in t[file].nodes
  {
    ModuleIsHeld(t, file);
    if s.container.Some? && Find(t[file], s.container.value).Some? {
      FoundIsHeld(t, file, s.container.value);
    }
  }

  lemma {:induction false} SpansAreListed(ids: seq<NodeId>, nodes: map<NodeId, Node>, e: Span)
    requires e in Spans(ids, nodes)
    ensures e.id in ids
  {
    var n := |ids| - 1;
    if e in Spans(ids[..n], nodes) {
      SpansAreListed(ids[..n], nodes, e);
    }
  }

  lemma {:induction false} FirstEnclosingIsCached(cache: seq<Span>, range: Range)
    requires FirstEnclosing(cache, range).Some?
    ensures exists e :: e in cache && e.id == FirstEnclosing(cache, range).value
  {
    if Encloses(cache[0].range, range) {
      assert cache[0] in cache;
    } else {
      FirstEnclosingIsCached(cache[1..], range);
    }
  }

  lemma EnclosingIsHeld(t: GoodTables, file: string, range: Range)
    requires AllBuilt(t) && file in t
    ensures Enclosing(file, t[file], range) in t[file].nodes
  {
    var ft := t[file];
    ModuleIsHeld(t, file);
    var cache := RangeCache(ft.ids, ft.nodes);
    if FirstEnclosing(cache, range).Some? {
      FirstEnclosingIsCached(cache, range);
      var e :| e in cache && e.id == FirstEnclosing(cache, range).value;
      SortKeepsMembership(Spans(ft.ids, ft.nodes), SpanBefore);
      SpansAreListed(ft.ids, ft.nodes, e);
      assert BuiltAt(t, file);
      BuiltIsListed(file, ft);
    }
  }

  // ---- The lists of a well-formed project -----------------------------------------------------

  lemma {:induction false} LaterIdsAreSymbols(file: string, symbols: seq<Symbol>, n: nat, k: nat)
    requires n <= |symbols| && 0 < k < |TableUpTo(file, symbols, n).ids|
    ensures TableUpTo(file, symbols, n).ids[k] != ModuleId(file)
  {
    var p := TableUpTo(file, symbols, n - 1);
    if k < |p.ids| {
      LaterIdsAreSymbols(file, symbols, n - 1, k);
    } else {
      TableStartsWithModule(file, symbols, n - 1);
    }
  }

  lemma TableIsListed(file: string, symbols: seq<Symbol>)
    requires PlainNames(symbols)
    ensures Listed(file, TableOf(file, symbols)) && Shaped(file, TableOf(file, symbols))
  {
    var ft := TableOf(file, symbols);
    TableStartsWithModule(file, symbols, |symbols|);
    forall id
      ensures id in ft.ids <==> id in ft.nodes
      ensures id in ft.nodes && id != ModuleId(file) ==>
                id.EntityId? && ft.nodes[id].qualifiedName != MODULE_NAME && !ft.nodes[id].external
    {
      TableLists(file, symbols, |symbols|, id);
      if id in ft.nodes && id != ModuleId(file) {
        TableDescribes(file, symbols, |symbols|, id);
      }
    }
    forall k | 0 < k < |ft.ids|
      ensures ft.ids[k] in ft.nodes && ft.nodes[ft.ids[k]].qualifiedName != MODULE_NAME
    {
      LaterIdsAreSymbols(file, symbols, |symbols|, k);
      assert ft.ids[k] in ft.ids;
    }
  }

  lemma BuiltIsListed(file: string, ft: FileTable)
    requires Built(file, ft)
    ensures Listed(file, ft)
  {
    var symbols :| PlainNames(symbols) && ft == TableOf(file, symbols);
    TableIsListed(file, symbols);
  }

  lemma WellFormedTable(eng: Engine, f: string)
    requires WellFormed(eng) && f in TablesOf(eng)
    ensures Shaped(f, TablesOf(eng)[f]) && Built(f, TablesOf(eng)[f])
  {
    var ss := eng.facts[f].symbols.value;
    forall s | s in ss
      ensures QualifiedName(s) != MODULE_NAME
    {
      assert HasSymbol(eng, f, s);
    }
    TableIsListed(f, ss);
  }

  /** An id past the module is the id of a symbol of the file. */
  lemma HeldSymbol(eng: Engine, f: string, id: NodeId) returns (s: Symbol)
    requires f in TablesOf(eng) && id in TablesOf(eng)[f].nodes && id != ModuleId(f)
    ensures HasSymbol(eng, f, s) && s.id.Some? && EntityId(s.id.value) == id
  {
    var ss := eng.facts[f].symbols.value;
    TableDescribes(f, ss, |ss|, id);
    var i :| 0 <= i < |ss| && ss[i].id.Some? && EntityId(ss[i].id.value) == id;
    s := ss[i];
  }

  lemma SharedIdSharedFile(eng: Engine, f: string, g: string, id: NodeId)
    requires WellFormed(eng) && f in TablesOf(eng) && g in TablesOf(eng)
    requires id in TablesOf(eng)[f].nodes && id in TablesOf(eng)[g].nodes
    ensures f == g
  {
    if id != ModuleId(f) {
      var s := HeldSymbol(eng, f, id);
      if id != ModuleId(g) {
        var s' := HeldSymbol(eng, g, id);
      }
    } else if id != ModuleId(g) {
      var s' := HeldSymbol(eng, g, id);
    }
  }

  lemma WellFormedTables(eng: Engine)
    requires WellFormed(eng)
    ensures Good(TablesOf(eng)) && AllBuilt(TablesOf(eng))
  {
    var t := TablesOf(eng);
    forall f
      ensures ShapedAt(t, f) && BuiltAt(t, f)
    {
      if f in t {
        WellFormedTable(eng, f);
      }
    }
    forall f, g, id
      ensures SeparateAt(t, f, g, id)
    {
      if f in t && g in t && id in t[f].nodes && id in t[g].nodes {
        SharedIdSharedFile(eng, f, g, id);
      }
    }
  }

  // ---- The indexes kept beside the node map ------------------------------------------------------

  ghost function IdTables(t: Tables): map<string, seq<NodeId>> {
    map f | f in t :: t[f].ids
  }

  ghost function NameTables(t: Tables): map<string, map<string, Option<NodeId>>> {
    map f | f in t :: NameIndex(t[f].ids, t[f].nodes)
  }

  ghost predicate RangeAt(t: Tables, ranges: map<string, seq<Span>>, f: string) {
    f in ranges ==> f in t && ranges[f] == RangeCache(t[f].ids, t[f].nodes)
  }

  ghost predicate RangesAgree(t: Tables, ranges: map<string, seq<Span>>) {
    forall f :: RangeAt(t, ranges, f)
  }

  lemma AddFileKeeps(t: Tables, f: string, t': Tables, ranges: map<string, seq<Span>>)
    requires AllBuilt(t) && RangesAgree(t, ranges) && Adds(t, f, t') && Built(f, t'[f])
    ensures AllBuilt(t') && RangesAgree(t', ranges)
    ensures IdTables(t') == IdTables(t)[f := t'[f].ids]
    ensures NameTables(t') == NameTables(t)[f := NameIndex(t'[f].ids, t'[f].nodes)]
  {
    forall g
      ensures BuiltAt(t', g) && RangeAt(t', ranges, g)
    {
      assert BuiltAt(t, g) && RangeAt(t, ranges, g);
    }
  }

  lemma DropFileKeeps(t: Tables, f: string, t': Tables, ranges: map<string, seq<Span>>)
    requires AllBuilt(t) && RangesAgree(t, ranges) && t' == t - {f}
    ensures AllBuilt(t') && RangesAgree(t', ranges - {f})
    ensures IdTables(t') == IdTables(t) - {f} && NameTables(t') == NameTables(t) - {f}
  {
    forall g
      ensures BuiltAt(t', g) && RangeAt(t', ranges - {f}, g)
    {
      assert BuiltAt(t, g) && RangeAt(t, ranges, g);
    }
  }

  lemma RangeAdded(t: Tables, ranges: map<string, seq<Span>>, f: string, cache: seq<Span>)
    requires RangesAgree(t, ranges) && f in t && cache == RangeCache(t[f].ids, t[f].nodes)
    ensures RangesAgree(t, ranges[f := cache])
  {
    var ranges' := ranges[f := cache];
    forall g
      ensures RangeAt(t, ranges', g)
    {
      assert RangeAt(t, ranges, g);
    }
  }

  /** Reading a file's listed nodes from the node map gives the file's own nodes. */
  lemma ListedAgree(nodes: map<NodeId, Node>, t: GoodTables, f: string)
    requires Presents(nodes, t) && AllBuilt(t) && f in t
    ensures AgreeOn(t[f].ids, t[f].nodes, nodes)
  {
    assert BuiltAt(t, f);
    BuiltIsListed(f, t[f]);
    forall k | 0 <= k < |t[f].ids|
      ensures t[f].ids[k] in t[f].nodes && t[f].ids[k] in nodes && t[f].nodes[t[f].ids[k]] == nodes[t[f].ids[k]]
    {
      assert t[f].ids[k] in t[f].ids;
      HeldIsNode(nodes, t, f, t[f].ids[k]);
    }
  }
}
