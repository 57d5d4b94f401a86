/** The passes of the producer over a set of files, the full build, and the stubs it makes. */
module Rebuild {
  import opened Wrappers
  import opened CodeLayer
  import opened LayerSpec
  import opened NodeLists
  import opened Builder

  // ---- Gathering the contributions of many files ------------------------------------

  ghost function Gather<T>(files: set<string>, part: string -> set<T>): set<T> {
    set f, e | f in files && e in part(f) :: e
  }

  /** Gathering one more of the files that are left. */
  lemma GatherNext<T>(base: set<T>, files: set<string>, rest: set<string>, f: string, part: string -> set<T>)
    requires rest <= files && f in rest
    ensures base + Gather(files - rest, part) + part(f) == base + Gather(files - (rest - {f}), part)
    ensures Gather(files - rest, part) + part(f) == Gather(files - (rest - {f}), part)
  {
    assert files - (rest - {f}) == files - rest + {f};
    assert Gather(files - rest + {f}, part) == Gather(files - rest, part) + part(f);
  }

  lemma EdgeStubsNext(base: set<NodeId>, files: set<string>, rest: set<string>, f: string, part: string -> set<Edge>)
    requires rest <= files && f in rest
    ensures base + ExternalTargets(Gather(files - rest, part)) + ExternalTargets(part(f)) ==
            base + ExternalTargets(Gather(files - (rest - {f}), part))
  {
    GatherNext({}, files, rest, f, part);
    ExternalTargetsSplit(Gather(files - rest, part), part(f));
  }

  /** The same for the stubs that the edges and the named imports of a file bring. */
  lemma StubsNext(base: set<NodeId>, files: set<string>, rest: set<string>, f: string,
                  part: string -> set<Edge>, named: string -> set<NodeId>)
    requires rest <= files && f in rest
    ensures base + ExternalTargets(Gather(files - rest, part)) + Gather(files - rest, named) + ExternalTargets(part(f)) + named(f) ==
            base + ExternalTargets(Gather(files - (rest - {f}), part)) + Gather(files - (rest - {f}), named)
  {
    GatherNext({}, files, rest, f, part);
    GatherNext({}, files, rest, f, named);
    ExternalTargetsSplit(Gather(files - rest, part), part(f));
  }

  ghost function Containments(eng: Engine, f: string): set<Edge> {
    if f in TablesOf(eng) then ContainmentEdges(f, TablesOf(eng)[f], eng.facts[f].symbols.value) else {}
  }

  ghost function Referrals(eng: Engine, f: string): set<Edge> {
    if f in TablesOf(eng) && eng.facts[f].occurrences.Some?
    then ReferenceEdges(EnvOf(eng), TablesOf(eng), f, eng.facts[f].occurrences.value)
    else {}
  }

  ghost function Inheritances(eng: Engine, f: string): set<Edge> {
    if f in TablesOf(eng)
    then InheritanceEdges(EnvOf(eng), TablesOf(eng), eng.facts[f], eng.facts[f].symbols.value)
    else {}
  }

  /** The off-project symbols that the file's imports name. */
  ghost function Named(eng: Engine, f: string): set<NodeId> {
    if f in TablesOf(eng) && eng.facts[f].occurrences.Some?
    then ImportNames(EnvOf(eng), TablesOf(eng), eng.facts[f].occurrences.value)
    else {}
  }

  ghost function NamedBy(eng: Engine, files: set<string>): set<NodeId> {
    Gather(files, f => Named(eng, f))
  }

  ghost function Given(eng: Engine, f: string): set<Edge> {
    if f in eng.facts then Contributes(eng, f) else {}
  }

  /** What the given files contribute together. */
  ghost function Contributions(eng: Engine, files: set<string>): set<Edge> {
    Gather(files, f => Given(eng, f))
  }

  lemma Contributed(eng: Engine, files: set<string>, f: string, e: Edge)
    requires f in files && e in Given(eng, f)
    ensures e in Contributions(eng, files)
  {
    var part := f => Given(eng, f);
    assert e in part(f);
  }

  lemma Contributor(eng: Engine, files: set<string>, e: Edge) returns (f: string)
    requires e in Contributions(eng, files)
    ensures f in files && f in eng.facts && e in Given(eng, f)
  {
    f :| f in files && e in Given(eng, f);
  }

  lemma GivenIsThreeParts(eng: Engine, f: string)
    ensures Given(eng, f) == Containments(eng, f) + Referrals(eng, f) + Inheritances(eng, f)
  {
  }

  lemma GatherSplits(files: set<string>, whole: string -> set<Edge>,
                     a: string -> set<Edge>, b: string -> set<Edge>, c: string -> set<Edge>)
    requires forall f :: whole(f) == a(f) + b(f) + c(f)
    ensures Gather(files, whole) == Gather(files, a) + Gather(files, b) + Gather(files, c)
  {
    forall e | e in Gather(files, whole)
      ensures e in Gather(files, a) + Gather(files, b) + Gather(files, c)
    {
      var f :| f in files && e in whole(f);
      assert e in a(f) || e in b(f) || e in c(f);
    }
    forall e | e in Gather(files, a) + Gather(files, b) + Gather(files, c)
      ensures e in Gather(files, whole)
    {
      var f :| f in files && (e in a(f) || e in b(f) || e in c(f));
      assert e in whole(f);
    }
  }

  lemma PartsMakeContributions(eng: Engine, files: set<string>)
    ensures Contributions(eng, files) ==
            Gather(files, f => Containments(eng, f)) + Gather(files, f => Referrals(eng, f)) +
            Gather(files, f => Inheritances(eng, f))
  {
    forall f
      ensures Given(eng, f) == Containments(eng, f) + Referrals(eng, f) + Inheritances(eng, f)
    {
      GivenIsThreeParts(eng, f);
    }
    GatherSplits(files, f => Given(eng, f), f => Containments(eng, f), f => Referrals(eng, f), f => Inheritances(eng, f));
  }

  lemma FullIsContributions(eng: Engine)
    ensures FullEdges(eng) == Contributions(eng, eng.facts.Keys)
  {
    forall e | e in FullEdges(eng)
      ensures e in Contributions(eng, eng.facts.Keys)
    {
      var f :| f in eng.facts && e in Contributes(eng, f);
      Contributed(eng, eng.facts.Keys, f, e);
    }
    forall e | e in Contributions(eng, eng.facts.Keys)
      ensures e in FullEdges(eng)
    {
      var f := Contributor(eng, eng.facts.Keys, e);
    }
  }

  /** A file the engine cannot read contributes nothing. */
  lemma UnlistedGivesNothing(eng: Engine, files: set<string>)
    ensures Contributions(eng, files) == Contributions(eng, files * TablesOf(eng).Keys)
  {
    forall f | f !in TablesOf(eng)
      ensures Given(eng, f) == {}
    {
      GivenIsThreeParts(eng, f);
      assert Containments(eng, f) + Referrals(eng, f) + Inheritances(eng, f) == {};
    }
    forall e | e in Contributions(eng, files)
      ensures e in Contributions(eng, files * TablesOf(eng).Keys)
    {
      var f :| f in files && e in Given(eng, f);
      assert f in TablesOf(eng);
    }
  }

  // ---- The passes over a set of files --------------------------------------------------

  /** Materialises the nodes of the files still missing. */
  method MaterializeAll(b: Builder, files: set<string>)
    requires b.Valid() && WellFormed(b.eng) && files <= TablesOf(b.eng).Keys && b.tables == TablesOf(b.eng) - files
    modifies b`nodes, b`names, b`fileToNodes, b`tables
    ensures b.Valid() && b.tables == TablesOf(b.eng) && Externals(b.nodes) == Externals(old(b.nodes))
  {
    var rest := files;
    while rest != {}
      invariant b.Valid() && rest <= files && b.tables == TablesOf(b.eng) - rest
      invariant Externals(b.nodes) == Externals(old(b.nodes))
      decreases |rest|
    {
      var file :| file in rest;
      MaterializeNext(b, rest, file);
      rest := rest - {file};
    }
    assert TablesOf(b.eng) - rest == TablesOf(b.eng);
  }

  method MaterializeNext(b: Builder, ghost rest: set<string>, file: string)
    requires b.Valid() && WellFormed(b.eng) && rest <= TablesOf(b.eng).Keys && b.tables == TablesOf(b.eng) - rest
    requires file in rest && file in b.eng.facts && b.eng.facts[file].symbols.Some?
    modifies b`nodes, b`names, b`fileToNodes, b`tables
    ensures b.Valid() && b.tables == TablesOf(b.eng) - (rest - {file}) && Externals(b.nodes) == Externals(old(b.nodes))
  {
    ghost var full, left := TablesOf(b.eng), rest - {file};
    WellFormedTables(b.eng);
    DropFileIsGood(full, left);
    PlainProjectNames(b.eng, file);
    var symbols := b.eng.facts[file].symbols.value;
    assert full - left == b.tables[file := TableOf(file, symbols)];
    NothingSkipped(b.nodes, b.tables, file, symbols, full - left);
    b.MaterializeFile(file, symbols);
  }

  /** In a well-formed project no symbol of a new file is skipped. */
  lemma NothingSkipped(nodes: map<NodeId, Node>, t: GoodTables, file: string, symbols: seq<Symbol>, t': GoodTables)
    requires Presents(nodes, t) && Adds(t, file, t') && t'[file] == TableOf(file, symbols)
    ensures Unclaimed(symbols, nodes.Keys) == symbols
  {
    forall i | 0 <= i < |symbols| && symbols[i].id.Some?
      ensures EntityId(symbols[i].id.value) !in nodes.Keys
    {
      NextIsFresh(nodes, t, file, symbols, t', i);
    }
    NothingClaimed(symbols, nodes.Keys);
  }

  lemma PlainProjectNames(eng: Engine, file: string)
    requires WellFormed(eng) && file in TablesOf(eng)
    ensures PlainNames(eng.facts[file].symbols.value)
  {
    forall s | s in eng.facts[file].symbols.value
      ensures QualifiedName(s) != MODULE_NAME
    {
      assert HasSymbol(eng, file, s);
    }
  }

  method ContainmentPass(b: Builder, files: set<string>)
    requires b.Valid() && b.tables == TablesOf(b.eng) && files <= b.tables.Keys
    modifies b`edges, b`reverseDeps, b`ranges
    ensures b.Valid() && files <= b.ranges.Keys
    ensures b.edges == old(b.edges) + Gather(files, f => Containments(b.eng, f))
  {
    ghost var part := f => Containments(b.eng, f);
    var rest := files;
    while rest != {}
      invariant b.Valid() && rest <= files && files - rest <= b.ranges.Keys
      invariant b.edges == old(b.edges) + Gather(files - rest, part)
      decreases |rest|
    {
      var file :| file in rest;
      GatherNext(old(b.edges), files, rest, file, part);
      ContainmentStep(b, file);
      rest := rest - {file};
    }
    assert files - rest == files;
  }

  method ContainmentStep(b: Builder, file: string)
    requires b.Valid() && b.tables == TablesOf(b.eng) && file in b.tables
    modifies b`edges, b`reverseDeps, b`ranges
    ensures b.Valid() && b.ranges.Keys == old(b.ranges.Keys) + {file}
    ensures b.edges == old(b.edges) + Containments(b.eng, file)
  {
    b.AddContainmentEdges(file, b.eng.facts[file].symbols.value);
    b.BuildRangeCache(file);
  }

  method ReferencePass(b: Builder, files: set<string>)
    requires b.Valid() && b.tables == TablesOf(b.eng) && files <= b.tables.Keys && files <= b.ranges.Keys
    modifies b`nodes, b`edges, b`reverseDeps
    ensures b.Valid() && b.edges == old(b.edges) + Gather(files, f => Referrals(b.eng, f))
    ensures Externals(b.nodes) ==
            Externals(old(b.nodes)) + ExternalTargets(Gather(files, f => Referrals(b.eng, f))) + NamedBy(b.eng, files)
  {
    ghost var part, named := f => Referrals(b.eng, f), f => Named(b.eng, f);
    var rest := files;
    while rest != {}
      invariant b.Valid() && rest <= files && b.edges == old(b.edges) + Gather(files - rest, part)
      invariant Externals(b.nodes) ==
                Externals(old(b.nodes)) + ExternalTargets(Gather(files - rest, part)) + Gather(files - rest, named)
      decreases |rest|
    {
      var file :| file in rest;
      GatherNext(old(b.edges), files, rest, file, part);
      StubsNext(Externals(old(b.nodes)), files, rest, file, part, named);
      ReferenceStep(b, file);
      rest := rest - {file};
    }
    assert files - rest == files;
  }

  method ReferenceStep(b: Builder, file: string)
    requires b.Valid() && b.tables == TablesOf(b.eng) && file in b.tables && file in b.ranges
    modifies b`nodes, b`edges, b`reverseDeps
    ensures b.Valid() && b.edges == old(b.edges) + Referrals(b.eng, file)
    ensures Externals(b.nodes) == Externals(old(b.nodes)) + ExternalTargets(Referrals(b.eng, file)) + Named(b.eng, file)
  {
    if b.eng.facts[file].occurrences.Some? {
      b.ResolveReferences(file, b.eng.facts[file].occurrences.value);
    }
  }

  method InheritancePass(b: Builder, files: set<string>)
    requires b.Valid() && b.tables == TablesOf(b.eng) && files <= b.tables.Keys
    modifies b`nodes, b`edges, b`reverseDeps
    ensures b.Valid() && b.edges == old(b.edges) + Gather(files, f => Inheritances(b.eng, f))
    ensures Externals(b.nodes) == Externals(old(b.nodes)) + ExternalTargets(Gather(files, f => Inheritances(b.eng, f)))
  {
    ghost var part := f => Inheritances(b.eng, f);
    var rest := files;
    while rest != {}
      invariant b.Valid() && rest <= files && b.edges == old(b.edges) + Gather(files - rest, part)
      invariant Externals(b.nodes) == Externals(old(b.nodes)) + ExternalTargets(Gather(files - rest, part))
      decreases |rest|
    {
      var file :| file in rest;
      GatherNext(old(b.edges), files, rest, file, part);
      EdgeStubsNext(Externals(old(b.nodes)), files, rest, file, part);
      InheritanceStep(b, file);
      rest := rest - {file};
    }
    assert files - rest == files;
  }

  method InheritanceStep(b: Builder, file: string)
    requires b.Valid() && b.tables == TablesOf(b.eng) && file in b.tables
    modifies b`nodes, b`edges, b`reverseDeps
    ensures b.Valid() && b.edges == old(b.edges) + Inheritances(b.eng, file)
    ensures Externals(b.nodes) == Externals(old(b.nodes)) + ExternalTargets(Inheritances(b.eng, file))
  {
    b.InheritsPass(file, b.eng.facts[file], b.eng.facts[file].symbols.value);
  }

  lemma {:induction false} ContainmentsStayInside(file: string, ft: FileTable, symbols: seq<Symbol>)
    ensures ExternalTargets(ContainmentEdges(file, ft, symbols)) == {}
  {
    if symbols != [] {
      var n := |symbols| - 1;
      ContainmentsStayInside(file, ft, symbols[..n]);
      ExternalTargetsSplit(ContainmentEdges(file, ft, symbols[..n]), ContainmentEdge(file, ft, symbols[n]));
    }
  }

  /** Containment edges bring no stub, so the three parts bring those of all edges. */
  lemma PartsBringStubs(eng: Engine, files: set<string>)
    ensures ExternalTargets(Contributions(eng, files)) ==
            ExternalTargets(Gather(files, f => Referrals(eng, f))) + ExternalTargets(Gather(files, f => Inheritances(eng, f)))
  {
    var a, b, c := Gather(files, f => Containments(eng, f)), Gather(files, f => Referrals(eng, f)),
      Gather(files, f => Inheritances(eng, f));
    PartsMakeContributions(eng, files);
    forall e | e in a
      ensures !e.target.ExternalId?
    {
      var f :| f in files && e in Containments(eng, f);
      ContainmentsStayInside(f, TablesOf(eng)[f], eng.facts[f].symbols.value);
      assert e.target.ExternalId? ==> e.target in ExternalTargets(Containments(eng, f));
    }
    ExternalTargetsSplit(a + b, c);
    ExternalTargetsSplit(a, b);
    assert ExternalTargets(a) == {};
  }

  lemma AddUp<T>(base: set<T>, a: set<T>, b: set<T>, c: set<T>)
    ensures base + a + b + c == base + (a + b + c)
    ensures base + a + b + c == base + (a + c) + b
  {
  }

  /** Containment and ranges, then references and imports, then inheritance. */
  method DeriveEdges(b: Builder, files: set<string>)
    requires b.Valid() && b.tables == TablesOf(b.eng) && files <= b.tables.Keys
    modifies b
    ensures b.Valid() && b.tables == old(b.tables) && b.edges == old(b.edges) + Contributions(b.eng, files)
    ensures Externals(b.nodes) ==
            Externals(old(b.nodes)) + ExternalTargets(Contributions(b.eng, files)) + NamedBy(b.eng, files)
  {
    ghost var p, q, r := Gather(files, f => Containments(b.eng, f)), Gather(files, f => Referrals(b.eng, f)),
      Gather(files, f => Inheritances(b.eng, f));
    PartsMakeContributions(b.eng, files);
    PartsBringStubs(b.eng, files);
    AddUp(b.edges, p, q, r);
    AddUp(Externals(b.nodes), ExternalTargets(q), NamedBy(b.eng, files), ExternalTargets(r));
    ContainmentPass(b, files);
    ReferencePass(b, files);
    InheritancePass(b, files);
  }

  // ---- The full build -----------------------------------------------------------------

  /** Nodes, file lists and index are those of `eng`, and no off-project edge target is
      missing; nothing is said of which edges there are. */
  ghost predicate Shows(layer: Layer, eng: Engine) {
    && Coherent(layer)
    && Presents(layer.nodes, TablesOf(eng))
    && layer.fileToNodes == IdTables(TablesOf(eng))
    && ExternalTargets(layer.edges) <= Externals(layer.nodes)
  }

  /** The layer is what a full build over `eng` produces, up to stubs that no edge needs. */
  ghost predicate Agrees(layer: Layer, eng: Engine) {
    Shows(layer, eng) && layer.edges == FullEdges(eng)
  }

  /** The off-project symbols that any import of the project names. */
  ghost function FullNames(eng: Engine): set<NodeId> {
    NamedBy(eng, eng.facts.Keys)
  }

  /** The contributed edges, the listed nodes, and a stub for every off-project edge target
      and for every off-project symbol that an import names. */
  ghost predicate FullyBuilt(layer: Layer, eng: Engine) {
    Agrees(layer, eng) && Externals(layer.nodes) == ExternalTargets(FullEdges(eng)) + FullNames(eng)
  }

  method FullBuild(eng: Project) returns (layer: Layer)
    ensures FullyBuilt(layer, eng)
  {
    var b := new Builder.Empty(eng);
    var files := set f | f in eng.facts && eng.facts[f].symbols.Some?;
    assert files == TablesOf(eng).Keys;
    assert TablesOf(eng) - files == map[];
    MaterializeAll(b, files);
    DeriveEdges(b, files);
    FullIsContributions(eng);
    UnlistedGivesNothing(eng, eng.facts.Keys);
    UnlistedNamesNothing(eng, eng.facts.Keys);
    assert eng.facts.Keys * TablesOf(eng).Keys == files;
    layer := Layer(b.nodes, b.edges, b.reverseDeps, b.fileToNodes);
  }

  lemma NamedIn(eng: Engine, files: set<string>, f: string, x: NodeId)
    requires f in files && x in Named(eng, f)
    ensures x in NamedBy(eng, files)
  {
    var part := f => Named(eng, f);
    assert x in part(f);
  }

  lemma UnlistedNamesNothing(eng: Engine, files: set<string>)
    ensures NamedBy(eng, files) == NamedBy(eng, files * TablesOf(eng).Keys)
  {
    forall x | x in NamedBy(eng, files)
      ensures x in NamedBy(eng, files * TablesOf(eng).Keys)
    {
      var f :| f in files && x in Named(eng, f);
      assert f in files * TablesOf(eng).Keys;
    }
  }

  /** Layers that agree with the same engine have the same edges and differ in no node
      but external stubs. */
  lemma AgreementIsUnique(a: Layer, b: Layer, eng: Project)
    requires Agrees(a, eng) && Agrees(b, eng)
    ensures a.edges == b.edges && a.reverseDeps == b.reverseDeps && a.fileToNodes == b.fileToNodes
    ensures NonExternal(a.nodes) == NonExternal(b.nodes)
  {
    WellFormedTables(eng);
    PresentsUnique(a.nodes, b.nodes, TablesOf(eng));
  }

  // ---- Every contributed edge starts at a node of its file --------------------------------

  lemma {:induction false} ContainmentStarts(t: GoodTables, f: string, symbols: seq<Symbol>, e: Edge)
    requires AllBuilt(t) && f in t && e in ContainmentEdges(f, t[f], symbols)
    ensures e.source in t[f].nodes && !e.kind.Imports?
  {
    var n := |symbols| - 1;
    if e in ContainmentEdges(f, t[f], symbols[..n]) {
      ContainmentStarts(t, f, symbols[..n], e);
    } else {
      ParentIsHeld(t, f, symbols[n]);
    }
  }

  lemma OccurrenceStarts(env: Env, t: GoodTables, f: string, occ: Occurrence, e: Edge)
    requires AllBuilt(t) && f in t && e in OccurrenceEdges(env, t, f, occ)
    ensures e.source in t[f].nodes && (e.kind.Imports? ==> e.source == ModuleId(f))
  {
    EnclosingIsHeld(t, f, occ.range);
    ModuleIsHeld(t, f);
  }

  lemma {:induction false} ReferenceStarts(env: Env, t: GoodTables, f: string, occs: seq<Occurrence>, e: Edge)
    requires AllBuilt(t) && f in t && e in ReferenceEdges(env, t, f, occs)
    ensures e.source in t[f].nodes && (e.kind.Imports? ==> e.source == ModuleId(f))
  {
    var n := |occs| - 1;
    if e in ReferenceEdges(env, t, f, occs[..n]) {
      ReferenceStarts(env, t, f, occs[..n], e);
    } else {
      OccurrenceStarts(env, t, f, occs[n], e);
    }
  }

  lemma {:induction false} SuperStarts(env: Env, t: Tables, id: NodeId, sups: seq<Supertype>, e: Edge)
    requires e in SuperEdges(env, t, id, sups)
    ensures e.source == id && e.kind.Inherits?
  {
    var n := |sups| - 1;
    if e in SuperEdges(env, t, id, sups[..n]) {
      SuperStarts(env, t, id, sups[..n], e);
    }
  }

  lemma {:induction false} InheritanceStarts(env: Env, t: Tables, facts: Facts, symbols: seq<Symbol>,
                                             e: Edge) returns (s: Symbol)
    requires e in InheritanceEdges(env, t, facts, symbols)
    ensures s in symbols && s.id.Some? && e.source == EntityId(s.id.value) && e.kind.Inherits?
  {
    var n := |symbols| - 1;
    if e in InheritanceEdges(env, t, facts, symbols[..n]) {
      s := InheritanceStarts(env, t, facts, symbols[..n], e);
    } else {
      s := symbols[n];
      SuperStarts(env, t, EntityId(s.id.value), SupersOf(facts, s), e);
    }
  }

  lemma SourceIsHeld(eng: Project, f: string, e: Edge)
    requires e in Given(eng, f)
    ensures f in TablesOf(eng) && e.source in TablesOf(eng)[f].nodes
    ensures e.kind.Imports? ==> e.source == ModuleId(f)
  {
    GivenIsThreeParts(eng, f);
    WellFormedTables(eng);
    var t: GoodTables := TablesOf(eng);
    var facts := eng.facts[f];
    var symbols := facts.symbols.value;
    if e in Containments(eng, f) {
      ContainmentStarts(t, f, symbols, e);
    } else if e in Referrals(eng, f) {
      ReferenceStarts(EnvOf(eng), t, f, facts.occurrences.value, e);
    } else {
      var s := InheritanceStarts(EnvOf(eng), t, facts, symbols, e);
      var i :| 0 <= i < |symbols| && symbols[i] == s;
      TableCovers'(f, symbols, i);
    }
  }
}
