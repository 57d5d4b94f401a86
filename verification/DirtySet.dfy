/** Which files the one-hop dirty set reaches, and concrete projects where it reaches too
    few. */
module DirtySet {
  import opened Wrappers
  import opened CodeLayer
  import opened LayerSpec
  import opened NodeLists
  import opened Builder
  import opened Rebuild
  import opened Scoped
  import opened Exactness
  import opened Stubs

  // ---- A file is dirty when it imports a seed module ------------------------------------

  lemma ModuleOf(prev: Layer, was: Project, f: string)
    requires Agrees(prev, was) && f in TablesOf(was)
    ensures ModuleId(f) in prev.nodes && prev.nodes[ModuleId(f)].file == f
  {
    WellFormedTables(was);
    ModuleIsHeld(TablesOf(was), f);
    HeldIsNode(prev.nodes, TablesOf(was), f, ModuleId(f));
    ModuleFileIs(f, was.facts[f].symbols.value, |was.facts[f].symbols.value|);
  }

  lemma {:induction false} ModuleFileIs(f: string, symbols: seq<Symbol>, n: nat)
    requires n <= |symbols|
    ensures ModuleId(f) in TableUpTo(f, symbols, n).nodes && TableUpTo(f, symbols, n).nodes[ModuleId(f)].file == f
  {
    if n > 0 {
      ModuleFileIs(f, symbols, n - 1);
    }
  }

  ghost predicate ImportsModule(was: Engine, f: string, s: string) {
    exists e :: e in Given(was, f) && e.kind.Imports? && e.target == ModuleId(s)
  }

  /** A file other than the seeds is dirty if and only if it imports a seed module. */
  lemma DirtyIff(prev: Layer, was: Project, seed: set<string>, f: string)
    requires Agrees(prev, was) && f !in seed && f != "" && f != EXTERNAL_FILE
    ensures f in Dirty(prev, seed) <==> exists s :: s in seed && ImportsModule(was, f, s)
  {
    FullIsContributions(was);
    if f in Dirty(prev, seed) {
      var e :| e in prev.edges && ImportsSeed(prev, seed, e) && prev.nodes[e.source].file == f;
      var g := Contributor(was, was.facts.Keys, e);
      SourceIsHeld(was, g, e);
      ModuleOf(prev, was, g);
      assert ImportsModule(was, f, e.target.moduleFile);
    }
    if s :| s in seed && ImportsModule(was, f, s) {
      var e :| e in Given(was, f) && e.kind.Imports? && e.target == ModuleId(s);
      ImporterIsDirty(prev, was, seed, f, e);
    }
  }

  lemma ImporterIsDirty(prev: Layer, was: Project, seed: set<string>, f: string, e: Edge)
    requires Agrees(prev, was) && f != "" && f != EXTERNAL_FILE
    requires e in Given(was, f) && e.kind.Imports? && e.target.ModuleId? && e.target.moduleFile in seed
    ensures f in Dirty(prev, seed)
  {
    FullIsContributions(was);
    Contributed(was, was.facts.Keys, f, e);
    SourceIsHeld(was, f, e);
    ModuleOf(prev, was, f);
    assert ImportsSeed(prev, seed, e) && prev.nodes[e.source].file == f;
  }

  // ---- Edges across files -----------------------------------------------------------------

  /** What is found in a file's table under any name belongs to that file. */
  lemma TargetFile(env: Env, t: GoodTables, target: string, name: string, qualified: Option<string>, s: string, x: NodeId)
    requires AllBuilt(t) && s in t && x in t[s].nodes && OccurrenceTarget(env, t, target, name, qualified) == Some(x)
    ensures target == s
  {
    assert ShapedAt(t, s);
    if qualified.Some? && Resolve(t, target, qualified.value).Some? {
      FoundIsHeld(t, target, qualified.value);
    } else if Resolve(t, target, name).Some? {
      FoundIsHeld(t, target, name);
    }
    OnlyOwner(t, target, s, x);
  }

  /** A reference into another file comes with an import of that file's module. */
  lemma ReferenceImports(was: Project, f: string, s: string, e: Edge)
    requires e in Given(was, f) && e.kind.References? && s in TablesOf(was) && e.target in TablesOf(was)[s].nodes && s != f
    ensures ImportsModule(was, f, s)
  {
    WellFormedTables(was);
    var env, t: GoodTables := EnvOf(was), TablesOf(was);
    PartByKind(was, f, e);
    var occs := was.facts[f].occurrences.value;
    var o := ReferenceEdgeShape(env, t, f, occs, e);
    TargetFile(env, t, Normalize(env, o.targetFile.value), o.targetName.value, o.targetQualified, s, e.target);
    ImportEdgeIff(env, t, f, occs, o.range, ModuleId(s));
    GivenIsThreeParts(was, f);
    assert ImportEdge(f, ModuleId(s), o.range) in Given(was, f);
  }

  lemma ImportIsOfModule(was: Project, f: string, s: string, e: Edge)
    requires e in Given(was, f) && e.kind.Imports? && s in TablesOf(was) && e.target in TablesOf(was)[s].nodes
    ensures e.target == ModuleId(s)
  {
    WellFormedTables(was);
    PartByKind(was, f, e);
    var o := ReferenceEdgeShape(EnvOf(was), TablesOf(was), f, was.facts[f].occurrences.value, e);
    assert ShapedAt(TablesOf(was), s);
  }

  lemma ContainmentStaysInFile(was: Project, f: string, s: string, e: Edge)
    requires e in Given(was, f) && (e.kind.Defines? || e.kind.Contains?)
    requires s in TablesOf(was) && e.target in TablesOf(was)[s].nodes
    ensures s == f
  {
    WellFormedTables(was);
    PartByKind(was, f, e);
    var symbols := was.facts[f].symbols.value;
    var i := ContainmentTarget(f, TablesOf(was)[f], symbols, e);
    TableCovers'(f, symbols, i);
    OnlyOwner(TablesOf(was), f, s, e.target);
  }

  /** Of the edges into a seed file each reference and each import makes its own file dirty,
      since it comes with an import of that file's module; an inheritance edge need not. */
  lemma CrossEdgeIsDirty(prev: Layer, was: Project, seed: set<string>, f: string, s: string, e: Edge)
    requires Agrees(prev, was) && f !in seed && f != "" && f != EXTERNAL_FILE
    requires e in Given(was, f) && s in seed && s in TablesOf(was) && e.target in TablesOf(was)[s].nodes
    ensures !e.kind.Inherits? ==> ImportsModule(was, f, s) && f in Dirty(prev, seed)
  {
    PartByKind(was, f, e);
    GivenIsThreeParts(was, f);
    DirtyIff(prev, was, seed, f);
    if e.kind.References? {
      ReferenceImports(was, f, s, e);
    } else if e.kind.Imports? {
      ImportIsOfModule(was, f, s, e);
    } else if !e.kind.Inherits? {
      ContainmentStaysInFile(was, f, s, e);
    }
  }

  // ---- An inheritance edge into a seed file --------------------------------------------------

  /** The class with this id has `x` among its supertypes. */
  ghost predicate HasBase(eng: Engine, f: string, id: string, x: NodeId) {
    f in TablesOf(eng) && x in Bases(EnvOf(eng), TablesOf(eng), eng.facts[f], eng.facts[f].symbols.value, id)
  }

  lemma InheritsFrom(eng: Engine, f: string, id: string, x: NodeId)
    ensures InheritEdge(id, x) in Given(eng, f) <==> HasBase(eng, f, id, x)
  {
    var e := InheritEdge(id, x);
    GivenIsThreeParts(eng, f);
    if e in Given(eng, f) {
      PartByKind(eng, f, e);
    }
    if f in TablesOf(eng) {
      InheritEdgeIff(EnvOf(eng), TablesOf(eng), eng.facts[f], eng.facts[f].symbols.value, id, x);
    }
  }

  /** A class of a file left alone inherits, in a full build, what its own file says. */
  lemma FullInheritsIff(was: Project, eng: Project, dirty: set<string>, f: string, id: string, x: NodeId)
    requires SymbolsKept(was, eng, dirty) && f !in dirty && HasBase(was, f, id, x)
    ensures InheritEdge(id, x) in FullEdges(eng) <==> HasBase(eng, f, id, x)
  {
    var e := InheritEdge(id, x);
    FullIsContributions(eng);
    InheritsFrom(was, f, id, x);
    InheritsFrom(eng, f, id, x);
    SourceIsHeld(was, f, e);
    assert SameSymbols(was, eng, f);
    if e in FullEdges(eng) {
      var g := Contributor(eng, eng.facts.Keys, e);
      SourceIsHeld(eng, g, e);
      WellFormedTables(eng);
      OnlyOwner(TablesOf(eng), f, g, e.source);
    }
    if e in Given(eng, f) {
      Contributed(eng, eng.facts.Keys, f, e);
    }
  }

  /** What the rebuild keeps of a file that it derives anew is current. */
  lemma DirtyIsCurrent(was: Project, eng: Project, dirty: set<string>, f: string, e: Edge)
    requires f in dirty && e in Given(was, f) && e in ScopedEdges(was, eng, dirty)
    ensures e in FullEdges(eng)
  {
    FullIsContributions(eng);
    SourceIsHeld(was, f, e);
    if e in Contributions(was, was.facts.Keys - dirty) {
      var g := Contributor(was, was.facts.Keys - dirty, e);
      SourceIsHeld(was, g, e);
      WellFormedTables(was);
      OnlyOwner(TablesOf(was), f, g, e.source);
    } else {
      var g := Contributor(eng, dirty, e);
      Contributed(eng, eng.facts.Keys, g, e);
    }
  }

  /** The rebuild keeps an inheritance edge that a full build does not have if and only if
      the class no longer has that base and its file imports no seed module. */
  lemma InheritanceStaleIff(prev: Layer, was: Project, eng: Project, seed: set<string>, f: string, id: string, x: NodeId)
    requires Agrees(prev, was) && SymbolsKept(was, eng, Dirty(prev, seed))
    requires f !in seed && f != "" && f != EXTERNAL_FILE && HasBase(was, f, id, x)
    ensures InheritEdge(id, x) in RebuiltEdges(prev, was, eng, Dirty(prev, seed)) - FullEdges(eng) <==>
            !HasBase(eng, f, id, x) && forall s :: s in seed ==> !ImportsModule(was, f, s)
  {
    var e, dirty := InheritEdge(id, x), Dirty(prev, seed);
    DirtyIff(prev, was, seed, f);
    RebuiltIsScoped(prev, was, eng, dirty);
    InheritsFrom(was, f, id, x);
    if f in dirty {
      if e in ScopedEdges(was, eng, dirty) {
        DirtyIsCurrent(was, eng, dirty, f, e);
      }
    } else {
      Contributed(was, was.facts.Keys - dirty, f, e);
      FullInheritsIff(was, eng, dirty, f, id, x);
    }
  }

  // ---- A reference that only now resolves is missed ----------------------------------------

  const NOWHERE := Range(1, 1, 1, 1)
  /** In file "a": a read of the name "y" of file "b". */
  const READ_Y := Occurrence("read", Some("/b"), Some("y"), None, NOWHERE, None)
  const SYMBOL_Y := Symbol("y", None, "variable", None, Some("2"), NOWHERE, None, None, map[])
  const FACTS_A := Facts(Some([]), Some([READ_Y]), map[])

  ghost function Reader(symbols: seq<Symbol>): Engine {
    Engine("/", p => None, map["a" := FACTS_A, "b" := Facts(Some(symbols), Some([]), map[])])
  }

  lemma EmptyTable(f: string, name: string)
    requires name != MODULE_NAME && name != Stem(f)
    ensures TableOf(f, []) == FileTable([ModuleId(f)], map[ModuleId(f) := ModuleNode(f)])
    ensures Find(TableOf(f, []), name) == None
  {
    ModuleIndex(f);
    var ft := TableOf(f, []);
    assert ft.ids[1..] == [];
    assert !Answers(ft.nodes[ft.ids[0]], name);
    assert Scan(ft.ids, ft.nodes, name) == Scan([], ft.nodes, name);
  }

  lemma OneSymbolTable()
    ensures Find(TableOf("b", [SYMBOL_Y]), "y") == Some(EntityId("2"))
  {
    ModuleIndex("b");
    var ft := TableOf("b", [SYMBOL_Y]);
    var ids := [ModuleId("b"), EntityId("2")];
    assert TableUpTo("b", [SYMBOL_Y], 0) == FileTable([ModuleId("b")], map[ModuleId("b") := ModuleNode("b")]);
    assert ft.ids == ids;
    assert ids[..1] == [ModuleId("b")];
    IndexReadsListed([ModuleId("b")], ft.nodes, map[ModuleId("b") := ModuleNode("b")]);
    assert ft.nodes[EntityId("2")] == SymbolNode("b", SYMBOL_Y);
    assert NameIndex(ids, ft.nodes) ==
           RegisterNode(map[MODULE_NAME := Some(ModuleId("b"))], EntityId("2"), SymbolNode("b", SYMBOL_Y));
  }

  lemma SingleOccurrence(env: Env, t: Tables, f: string, occ: Occurrence)
    requires f in t
    ensures ReferenceEdges(env, t, f, [occ]) == OccurrenceEdges(env, t, f, occ)
  {
    assert [occ][..0] == [];
  }

  lemma ReaderIsProject(symbols: seq<Symbol>)
    requires symbols == [] || symbols == [SYMBOL_Y]
    ensures WellFormed(Reader(symbols))
  {
    var eng := Reader(symbols);
    forall f, s | HasSymbol(eng, f, s)
      ensures f == "b" && s == SYMBOL_Y
    {
    }
  }

  lemma ReadTarget(symbols: seq<Symbol>)
    requires symbols == [] || symbols == [SYMBOL_Y]
    ensures var eng := Reader(symbols);
            && Normalize(EnvOf(eng), "/b") == "b"
            && OccurrenceTarget(EnvOf(eng), TablesOf(eng), "b", "y", None) == if symbols == [] then None else Some(EntityId("2"))
  {
    var native := "/b";
    assert native[1..] == "b";
    assert Stem("b") == "b" by {
      assert BaseFrom("b", 1) == BaseFrom("b", 0);
      assert CutExtension("b", 1) == CutExtension("b", 0);
    }
    EmptyTable("b", "y");
    OneSymbolTable();
  }

  lemma ReaderReferences(symbols: seq<Symbol>)
    requires symbols == [] || symbols == [SYMBOL_Y]
    ensures Referrals(Reader(symbols), "a") == {} <==> symbols == []
  {
    var eng := Reader(symbols);
    var t := TablesOf(eng);
    ReadTarget(symbols);
    assert "a" in t && eng.facts["a"] == FACTS_A;
    SingleOccurrence(EnvOf(eng), t, "a", READ_Y);
    assert Referrals(eng, "a") == OccurrenceEdges(EnvOf(eng), t, "a", READ_Y);
    if symbols != [] {
      var e := Edge(ModuleId("a"), ModuleId("b"), Imports, None, Some("a"), Some(NOWHERE));
      ReaderIsModule(symbols);
      assert e in OccurrenceEdges(EnvOf(eng), t, "a", READ_Y);
    }
  }

  lemma ReaderIsModule(symbols: seq<Symbol>)
    ensures var t := TablesOf(Reader(symbols)); "a" in t && Enclosing("a", t["a"], NOWHERE) == ModuleId("a")
  {
    var t := TablesOf(Reader(symbols));
    EmptyTable("a", "y");
    var ids := [ModuleId("a")];
    assert ids[..0] == [];
    assert Spans(ids, t["a"].nodes) == [];
  }

  lemma BareFileGives(symbols: seq<Symbol>, f: string)
    requires symbols == [] || (symbols == [SYMBOL_Y] && f == "a")
    ensures Given(Reader(symbols), f) == if f == "a" then Referrals(Reader(symbols), f) else {}
  {
    var eng := Reader(symbols);
    GivenIsThreeParts(eng, f);
    if f in eng.facts {
      assert f == "a" || f == "b";
      assert Containments(eng, f) == {} && Inheritances(eng, f) == {};
      assert f == "b" ==> Referrals(eng, f) == {};
    }
  }

  /** File "a" reads a name that "b" does not define yet. When "b" comes to define it, the
      dirty set is "b" alone, and the rebuild misses the edges of "a". */
  lemma UnresolvedReferenceIsMissed()
    ensures WellFormed(Reader([])) && WellFormed(Reader([SYMBOL_Y]))
    ensures forall f :: f != "b" ==> (f in Reader([]).facts <==> f in Reader([SYMBOL_Y]).facts)
    ensures Reader([]).facts["a"] == Reader([SYMBOL_Y]).facts["a"]
    ensures forall prev :: Agrees(prev, Reader([])) ==> Dirty(prev, {"b"}) == {"b"}
    ensures ScopedEdges(Reader([]), Reader([SYMBOL_Y]), {"b"}) != FullEdges(Reader([SYMBOL_Y]))
  {
    var was, eng := Reader([]), Reader([SYMBOL_Y]);
    ReaderIsProject([]);
    ReaderIsProject([SYMBOL_Y]);
    assert SymbolsKept(was, eng, {"b"});
    BareFileGives([], "a");
    BareFileGives([SYMBOL_Y], "a");
    ReaderReferences([]);
    ReaderReferences([SYMBOL_Y]);
    if ScopedEdges(was, eng, {"b"}) == FullEdges(eng) {
      ScopedExactIff(was, eng, {"b"});
      GivenSameIff(was, eng, "a");
    }
    FullIsContributions(was);
    forall e | e in Contributions(was, was.facts.Keys)
      ensures false
    {
      var f := Contributor(was, was.facts.Keys, e);
      BareFileGives([], f);
    }
    assert FullEdges(was) == {};
  }

  // ---- An inheritance edge goes stale ---------------------------------------------------------

  const CLASS_A := Symbol("A", None, CLASS_KIND, None, Some("1"), NOWHERE, None, None, map[])
  const CLASS_B := Symbol("B", None, CLASS_KIND, None, Some("2"), NOWHERE, None, None, map[])
  /** The same class once it has lost its durable id. */
  const UNBOUND_B := CLASS_B.(id := None)
  /** Class "A" of file "a" has the supertype "B" of file "b"; nothing in "a" names "b". */
  const FACTS_HEIR := Facts(Some([CLASS_A]), Some([]), map[(1, 1) := [Supertype("/b", "B")]])

  ghost function Heir(symbols: seq<Symbol>): Engine {
    Engine("/", p => None, map["a" := FACTS_HEIR, "b" := Facts(Some(symbols), Some([]), map[])])
  }

  lemma HeirIsProject(symbols: seq<Symbol>)
    requires symbols == [UNBOUND_B] || symbols == [CLASS_B]
    ensures WellFormed(Heir(symbols))
  {
    var eng := Heir(symbols);
    forall f, s | HasSymbol(eng, f, s)
      ensures (f == "a" && s == CLASS_A) || (f == "b" && s in symbols)
    {
    }
  }

  lemma OneClassTable()
    ensures Find(TableOf("b", [CLASS_B]), "B") == Some(EntityId("2"))
  {
    ModuleIndex("b");
    var ft := TableOf("b", [CLASS_B]);
    var ids := [ModuleId("b"), EntityId("2")];
    assert TableUpTo("b", [CLASS_B], 0) == FileTable([ModuleId("b")], map[ModuleId("b") := ModuleNode("b")]);
    assert ft.ids == ids;
    assert ids[..1] == [ModuleId("b")];
    IndexReadsListed([ModuleId("b")], ft.nodes, map[ModuleId("b") := ModuleNode("b")]);
    assert ft.nodes[EntityId("2")] == SymbolNode("b", CLASS_B);
    assert NameIndex(ids, ft.nodes) ==
           RegisterNode(map[MODULE_NAME := Some(ModuleId("b"))], EntityId("2"), SymbolNode("b", CLASS_B));
  }

  lemma BaseOfA(symbols: seq<Symbol>)
    requires symbols == [UNBOUND_B] || symbols == [CLASS_B]
    ensures var eng := Heir(symbols);
            SuperTarget(EnvOf(eng), TablesOf(eng), Supertype("/b", "B")) == if symbols == [UNBOUND_B] then None else Some(EntityId("2"))
  {
    var native := "/b";
    assert native[1..] == "b";
    assert Stem("b") == "b" by {
      assert BaseFrom("b", 1) == BaseFrom("b", 0);
      assert CutExtension("b", 1) == CutExtension("b", 0);
    }
    assert TableUpTo("b", [UNBOUND_B], 0) == TableOf("b", []);
    EmptyTable("b", "B");
    OneClassTable();
  }

  lemma HeirInherits(symbols: seq<Symbol>)
    requires symbols == [UNBOUND_B] || symbols == [CLASS_B]
    ensures InheritEdge("1", EntityId("2")) in Given(Heir(symbols), "a") <==> symbols == [CLASS_B]
    ensures Referrals(Heir(symbols), "a") == {} && Referrals(Heir(symbols), "b") == {}
  {
    var eng := Heir(symbols);
    BaseOfA(symbols);
    GivenIsThreeParts(eng, "a");
    InheritEdgeIff(EnvOf(eng), TablesOf(eng), FACTS_HEIR, [CLASS_A], "1", EntityId("2"));
    assert SupersOf(FACTS_HEIR, CLASS_A) == [Supertype("/b", "B")];
    var e := InheritEdge("1", EntityId("2"));
    if e in Given(eng, "a") {
      PartByKind(eng, "a", e);
    }
  }

  /** The class "B" of "b" loses its durable id. The dirty set is "b" alone, so the rebuild keeps the
      inheritance edge of "a", although its target is no node any more and a full build does
      not have it. */
  lemma InheritanceEdgeGoesStale()
    ensures WellFormed(Heir([CLASS_B])) && WellFormed(Heir([UNBOUND_B])) && Heir([CLASS_B]).facts["a"] == Heir([UNBOUND_B]).facts["a"]
    ensures forall prev :: Agrees(prev, Heir([CLASS_B])) ==> Dirty(prev, {"b"}) == {"b"}
    ensures var e := InheritEdge("1", EntityId("2"));
            && e in ScopedEdges(Heir([CLASS_B]), Heir([UNBOUND_B]), {"b"}) && e !in FullEdges(Heir([UNBOUND_B]))
            && forall f :: f in TablesOf(Heir([UNBOUND_B])) ==> e.target !in TablesOf(Heir([UNBOUND_B]))[f].nodes
  {
    var was := Heir([CLASS_B]);
    HeirIsProject([CLASS_B]);
    HeirIsProject([UNBOUND_B]);
    HeirInherits([CLASS_B]);
    Contributed(was, was.facts.Keys - {"b"}, "a", InheritEdge("1", EntityId("2")));
    HeirImportsNothing();
    HeirlessEdge();
  }

  lemma HeirImportsNothing()
    ensures forall e :: e in FullEdges(Heir([CLASS_B])) ==> !e.kind.Imports?
  {
    var was := Heir([CLASS_B]);
    FullIsContributions(was);
    HeirInherits([CLASS_B]);
    forall e | e in FullEdges(was)
      ensures !e.kind.Imports?
    {
      var f := Contributor(was, was.facts.Keys, e);
      PartByKind(was, f, e);
    }
  }

  lemma HeirlessEdge()
    ensures InheritEdge("1", EntityId("2")) !in FullEdges(Heir([UNBOUND_B]))
    ensures forall f :: f in TablesOf(Heir([UNBOUND_B])) ==> EntityId("2") !in TablesOf(Heir([UNBOUND_B]))[f].nodes
  {
    var eng, e := Heir([UNBOUND_B]), InheritEdge("1", EntityId("2"));
    FullIsContributions(eng);
    HeirInherits([UNBOUND_B]);
    if e in FullEdges(eng) {
      var f := Contributor(eng, eng.facts.Keys, e);
      InheritsOwnClass(eng, f, e);
    }
    forall f | f in TablesOf(eng)
      ensures EntityId("2") !in TablesOf(eng)[f].nodes
    {
      if EntityId("2") in TablesOf(eng)[f].nodes {
        var s := HeldSymbol(eng, f, EntityId("2"));
      }
    }
  }

  /** Only file "a" has the class with id "1". */
  lemma InheritsOwnClass(eng: Engine, f: string, e: Edge)
    requires eng == Heir([UNBOUND_B]) && e in Given(eng, f) && e == InheritEdge("1", EntityId("2"))
    ensures f == "a"
  {
    PartByKind(eng, f, e);
    var s := InheritEdgeShape(EnvOf(eng), TablesOf(eng), eng.facts[f], eng.facts[f].symbols.value, e);
  }

  // ---- A full build leaves an unreferenced stub ---------------------------------------------------

  /** `from x import n`, with `x` outside the project. */
  const IMPORT_N := Occurrence(IMPORT_ROLE, Some("/x"), Some("n"), None, NOWHERE, None)

  ghost function Importer(): Engine {
    Engine("/", p => None, map["a" := Facts(Some([]), Some([IMPORT_N]), map[])])
  }

  /** The import creates a stub for the symbol and an edge to the module only. */
  lemma ImportLeavesStub(layer: Layer)
    requires FullyBuilt(layer, Importer())
    ensures WellFormed(Importer()) && Unreferenced(layer.nodes, layer.edges, ExternalId("/x", "n"))
  {
    var eng := Importer();
    assert forall f, s :: !HasSymbol(eng, f, s);
    var native := "/x";
    assert native[1..] == "x";
    assert Normalize(EnvOf(eng), "/x") == "/x";
    assert "a" in TablesOf(eng) && NamesIn(eng, IMPORT_N, ExternalId("/x", "n"));
    UnreferencedIff(layer, eng, ExternalId("/x", "n"));
    NothingLeadsToN();
  }

  lemma NothingLeadsToN()
    ensures !LedTo(Importer(), ExternalId("/x", "n"))
  {
    var eng, x := Importer(), ExternalId("/x", "n");
    forall f, o | f in TablesOf(eng) && o in OccurrencesOf(eng.facts[f])
      ensures !OccurrenceLeads(eng, f, o, x)
    {
      assert f == "a" && o == IMPORT_N;
    }
  }
}
