/** What the edges of a full build mean: each kind of edge in terms of symbols, occurrences
    and supertypes, without the functions that the passes compute with. */
module EdgeMeaning {
  import opened Wrappers
  import opened CodeLayer
  import opened LayerSpec
  import opened NodeLists
  import opened Rebuild
  import opened Exactness
  import opened Enclosure
  import opened Names

  /** The engine has read the file. */
  ghost predicate Readable(eng: Engine, f: string) {
    f in eng.facts && eng.facts[f].symbols.Some?
  }

  ghost function NodesOf(eng: Engine, f: string): FileTable
    requires Readable(eng, f)
  {
    TableOf(f, eng.facts[f].symbols.value)
  }

  /** In the file `g`, the name denotes the node `x`. */
  ghost predicate Called(eng: Engine, g: string, name: string, x: NodeId) {
    Readable(eng, g) && Denotes(NodesOf(eng, g), name, x)
  }

  /** The native path denotes the file `g`, of the project or not. */
  ghost predicate Designates(eng: Engine, native: string, g: string) {
    if exists h :: h in eng.facts && PathOf(eng.root, native, h) then g in eng.facts && PathOf(eng.root, native, g)
    else g == native
  }

  /** The symbol that an occurrence means: the one with the qualified name, else the one with
      the name, else, outside the project, a stub owned by the package or the file. */
  ghost predicate Means(eng: Engine, g: string, name: string, qualified: Option<string>, x: NodeId) {
    if qualified.Some? && exists y :: Called(eng, g, qualified.value, y) then Called(eng, g, qualified.value, x)
    else if exists y :: Called(eng, g, name, y) then Called(eng, g, name, x)
    else g !in eng.facts && x == ExternalId(match eng.package(g) case Some(p) => p case None => g, name)
  }

  /** The module that importing the file leads to, or the stub of its package. */
  ghost predicate ImportsAs(eng: Engine, g: string, x: NodeId) {
    if Readable(eng, g) then x == ModuleId(g)
    else g !in eng.facts && x == ExternalId(match eng.package(g) case Some(p) => p case None => "unknown", "<module>")
  }

  /** The class that a supertype means. */
  ghost predicate SuperMeans(eng: Engine, g: string, name: string, x: NodeId) {
    if exists y :: Called(eng, g, name, y) then Called(eng, g, name, x)
    else match eng.package(g)
      case Some(p) => x == ExternalId(p, name)
      case None => !Readable(eng, g) && x == ExternalId("unknown", name)
  }

  // ---- The lookups mean this ----------------------------------------------------------------------

  lemma ResolveIff(eng: Project, g: string, name: string, x: NodeId)
    ensures Resolve(TablesOf(eng), g, name) == Some(x) <==> Called(eng, g, name, x)
  {
    if Readable(eng, g) {
      PlainProjectNames(eng, g);
      TableIsWellListed(g, eng.facts[g].symbols.value);
      FindIff(NodesOf(eng, g), name, x);
    }
  }

  lemma ResolveNone(eng: Project, g: string, name: string)
    ensures Resolve(TablesOf(eng), g, name).None? <==> forall y :: !Called(eng, g, name, y)
  {
    if Resolve(TablesOf(eng), g, name).Some? {
      ResolveIff(eng, g, name, Resolve(TablesOf(eng), g, name).value);
    }
    forall y
      ensures Resolve(TablesOf(eng), g, name) == Some(y) <==> Called(eng, g, name, y)
    {
      ResolveIff(eng, g, name, y);
    }
  }

  lemma TargetIff(eng: Project, g: string, name: string, qualified: Option<string>, x: NodeId)
    ensures OccurrenceTarget(EnvOf(eng), TablesOf(eng), g, name, qualified) == Some(x) <==> Means(eng, g, name, qualified, x)
  {
    ResolveNone(eng, g, name);
    ResolveIff(eng, g, name, x);
    if qualified.Some? {
      ResolveNone(eng, g, qualified.value);
      ResolveIff(eng, g, qualified.value, x);
    }
  }

  lemma ImportIff(eng: Project, g: string, x: NodeId)
    ensures ImportTarget(EnvOf(eng), TablesOf(eng), g) == Some(x) <==> ImportsAs(eng, g, x)
  {
  }

  lemma SuperIff(eng: Project, sup: Supertype, g: string, x: NodeId)
    requires Designates(eng, sup.path, g)
    ensures SuperTarget(EnvOf(eng), TablesOf(eng), sup) == Some(x) <==> SuperMeans(eng, g, sup.name, x)
  {
    DesignatesIff(eng, sup.path, g);
    ResolveNone(eng, g, sup.name);
    ResolveIff(eng, g, sup.name, x);
  }

  lemma DesignatesIff(eng: Engine, native: string, g: string)
    ensures Designates(eng, native, g) <==> g == Normalize(EnvOf(eng), native)
  {
    NormalizeMeans(EnvOf(eng), native);
  }

  lemma {:induction false} EnclosingIff(eng: Project, f: string, range: Range, x: NodeId)
    requires Readable(eng, f)
    ensures Enclosing(f, NodesOf(eng, f), range) == x <==> Innermost(f, NodesOf(eng, f), range, x)
  {
    EnclosingMeans(f, NodesOf(eng, f), range);
    if Innermost(f, NodesOf(eng, f), range, x) {
      InnermostIsOne(f, NodesOf(eng, f), range, x, Enclosing(f, NodesOf(eng, f), range));
    }
  }

  lemma InnermostIsOne(file: string, ft: FileTable, range: Range, x: NodeId, y: NodeId)
    requires Innermost(file, ft, range, x) && Innermost(file, ft, range, y)
    ensures x == y
  {
    if exists k: nat :: Around(ft, range, k) {
      var j: nat :| InnermostAt(ft, range, j) && ft.ids[j] == x;
      var k: nat :| InnermostAt(ft, range, k) && ft.ids[k] == y;
      assert Around(ft, range, j) && Around(ft, range, k);
      assert j == k;
    }
  }

  // ---- The edges ---------------------------------------------------------------------------------------

  /** An occurrence in `f` names a symbol `x` of the file `g`, and does so somewhere else than
      in the symbol itself, inside `from`. */
  ghost predicate Mentions(eng: Engine, f: string, o: Occurrence, g: string, from: NodeId, x: NodeId)
    requires Readable(eng, f)
  {
    && o.targetFile.Some? && o.targetName.Some? && Designates(eng, o.targetFile.value, g)
    && Means(eng, g, o.targetName.value, o.targetQualified, x)
    && Innermost(f, NodesOf(eng, f), o.range, from) && from != x
  }

  /** The file that an occurrence makes its own file import. */
  ghost predicate Brings(eng: Engine, f: string, o: Occurrence, g: string)
    requires Readable(eng, f)
  {
    && g != f
    && if o.role == "import" && o.targetFile.None? then o.definition.Some? && Designates(eng, o.definition.value, g)
       else exists from, x :: Mentions(eng, f, o, g, from, x)
  }

  /** One occurrence gives the edge as a reference. */
  ghost predicate RefersBy(eng: Engine, f: string, o: Occurrence, e: Edge)
    requires Readable(eng, f)
  {
    exists g :: o.role != "import" && Mentions(eng, f, o, g, e.source, e.target)
      && e == Edge(e.source, e.target, References, Some(o.role), Some(f), Some(o.range))
  }

  /** One occurrence gives the edge as an import. */
  ghost predicate ImportsBy(eng: Engine, f: string, o: Occurrence, e: Edge)
    requires Readable(eng, f)
  {
    exists g :: Brings(eng, f, o, g) && ImportsAs(eng, g, e.target)
      && e == Edge(ModuleId(f), e.target, Imports, None, Some(f), Some(o.range))
  }

  ghost predicate IsReference(eng: Engine, f: string, e: Edge)
    requires Readable(eng, f)
  {
    exists o :: o in OccurrencesOf(eng.facts[f]) && RefersBy(eng, f, o, e)
  }

  ghost predicate IsImport(eng: Engine, f: string, e: Edge)
    requires Readable(eng, f)
  {
    exists o :: o in OccurrencesOf(eng.facts[f]) && ImportsBy(eng, f, o, e)
  }

  /** The cursor for a class: the start of its name, or of the class if the name's place is unknown. */
  ghost predicate CursorOf(s: Symbol, line: nat, column: nat) {
    match s.selection
    case Some(r) => line == r.startLine && column == r.startColumn
    case None => line == s.range.startLine && column == s.range.startColumn
  }

  ghost predicate IsInheritance(eng: Engine, f: string, e: Edge)
    requires Readable(eng, f)
  {
    exists s, sup, g :: HasSuper(eng, f, s, sup) && Designates(eng, sup.path, g) && SuperMeans(eng, g, sup.name, e.target)
      && s.id.Some? && e == Edge(EntityId(s.id.value), e.target, Inherits, None, None, None)
  }

  ghost predicate HasSuper(eng: Engine, f: string, s: Symbol, sup: Supertype)
    requires Readable(eng, f)
  {
    && s in eng.facts[f].symbols.value && s.kind == "class_" && s.id.Some?
    && exists line: nat, column: nat :: CursorOf(s, line, column) && (line, column) in eng.facts[f].supertypes
         && sup in eng.facts[f].supertypes[(line, column)]
  }

  /** A symbol belongs to the node its container's name denotes in the file, else to the module. */
  ghost predicate BelongsTo(eng: Engine, f: string, s: Symbol, p: NodeId)
    requires Readable(eng, f)
  {
    if s.container.Some? && exists y :: Denotes(NodesOf(eng, f), s.container.value, y)
    then Denotes(NodesOf(eng, f), s.container.value, p)
    else p == ModuleId(f)
  }

  ghost predicate IsContainment(eng: Engine, f: string, e: Edge)
    requires Readable(eng, f)
  {
    exists s :: s in eng.facts[f].symbols.value && s.id.Some? && BelongsTo(eng, f, s, e.source)
      && e == Edge(e.source, EntityId(s.id.value), if e.source == ModuleId(f) then Defines else Contains, None, None, None)
  }

  // ---- Each part of a file's contribution is what it should be ------------------------------------------

  lemma RefersByIff(eng: Project, f: string, o: Occurrence, e: Edge)
    requires Readable(eng, f)
    ensures var lead := LeadOf(EnvOf(eng), TablesOf(eng), f, o);
            RefersBy(eng, f, o, e) <==>
            lead.refers.Some? && e == ReferenceEdge(f, NodesOf(eng, f), lead.refers.value, o.role, o.range)
  {
    LeadMeans(eng, f, o);
    var lead := LeadOf(EnvOf(eng), TablesOf(eng), f, o);
    if RefersBy(eng, f, o, e) {
      var g :| o.role != "import" && Mentions(eng, f, o, g, e.source, e.target)
        && e == Edge(e.source, e.target, References, Some(o.role), Some(f), Some(o.range));
      assert lead.refers == Some(e.target);
    }
    if lead.refers.Some? && e == ReferenceEdge(f, NodesOf(eng, f), lead.refers.value, o.role, o.range) {
      var g :| Mentions(eng, f, o, g, Enclosing(f, NodesOf(eng, f), o.range), lead.refers.value);
    }
  }

  lemma ImportsByIff(eng: Project, f: string, o: Occurrence, e: Edge)
    requires Readable(eng, f)
    ensures var lead := LeadOf(EnvOf(eng), TablesOf(eng), f, o);
            ImportsBy(eng, f, o, e) <==> lead.imports.Some? && e == ImportEdge(f, lead.imports.value, o.range)
  {
    LeadMeans(eng, f, o);
    var lead := LeadOf(EnvOf(eng), TablesOf(eng), f, o);
    if ImportsBy(eng, f, o, e) {
      assert lead.imports == Some(e.target);
    }
    if lead.imports.Some? && e == ImportEdge(f, lead.imports.value, o.range) {
      var g :| Brings(eng, f, o, g) && ImportsAs(eng, g, lead.imports.value);
    }
  }

  lemma OccurrenceMeans(eng: Project, f: string, o: Occurrence, e: Edge)
    requires Readable(eng, f)
    ensures e in OccurrenceEdges(EnvOf(eng), TablesOf(eng), f, o) <==> RefersBy(eng, f, o, e) || ImportsBy(eng, f, o, e)
  {
    OccurrenceEdgeIff(EnvOf(eng), TablesOf(eng), f, o, e);
    RefersByIff(eng, f, o, e);
    ImportsByIff(eng, f, o, e);
  }

  ghost predicate LeadsTo(eng: Engine, f: string, o: Occurrence, lead: Lead)
    requires Readable(eng, f)
  {
    && (forall x :: lead.imports == Some(x) <==> exists g :: Brings(eng, f, o, g) && ImportsAs(eng, g, x))
    && (forall x :: lead.refers == Some(x) <==>
          o.role != "import" && exists g :: Mentions(eng, f, o, g, Enclosing(f, NodesOf(eng, f), o.range), x))
    && (forall g, from, x :: Mentions(eng, f, o, g, from, x) ==> from == Enclosing(f, NodesOf(eng, f), o.range))
  }

  lemma LeadMeans(eng: Project, f: string, o: Occurrence)
    requires Readable(eng, f)
    ensures LeadsTo(eng, f, o, LeadOf(EnvOf(eng), TablesOf(eng), f, o))
  {
    var env, t := EnvOf(eng), TablesOf(eng);
    var from := Enclosing(f, NodesOf(eng, f), o.range);
    forall x
      ensures Innermost(f, NodesOf(eng, f), o.range, x) <==> x == from
    {
      EnclosingIff(eng, f, o.range, x);
    }
    if o.role == IMPORT_ROLE && o.targetFile.None? {
      DefinitionLeads(eng, f, o);
    } else if o.targetFile.Some? && o.targetName.Some? {
      TargetLeads(eng, f, o, from);
    }
  }

  lemma DefinitionLeads(eng: Project, f: string, o: Occurrence)
    requires Readable(eng, f) && o.role == IMPORT_ROLE && o.targetFile.None?
    ensures LeadsTo(eng, f, o, LeadOf(EnvOf(eng), TablesOf(eng), f, o))
  {
    if o.definition.Some? {
      var g := Normalize(EnvOf(eng), o.definition.value);
      forall h
        ensures Designates(eng, o.definition.value, h) <==> h == g
      {
        DesignatesIff(eng, o.definition.value, h);
      }
      forall x
        ensures ImportTarget(EnvOf(eng), TablesOf(eng), g) == Some(x) <==> ImportsAs(eng, g, x)
      {
        ImportIff(eng, g, x);
      }
      assert Brings(eng, f, o, g) <==> g != f;
    }
  }

  lemma TargetLeads(eng: Project, f: string, o: Occurrence, from: NodeId)
    requires Readable(eng, f) && o.targetFile.Some? && o.targetName.Some? && from == Enclosing(f, NodesOf(eng, f), o.range)
    requires forall x :: Innermost(f, NodesOf(eng, f), o.range, x) <==> x == from
    ensures LeadsTo(eng, f, o, LeadOf(EnvOf(eng), TablesOf(eng), f, o))
  {
    var env, t := EnvOf(eng), TablesOf(eng);
    var g := Normalize(env, o.targetFile.value);
    var id := OccurrenceTarget(env, t, g, o.targetName.value, o.targetQualified);
    forall h
      ensures Designates(eng, o.targetFile.value, h) <==> h == g
    {
      DesignatesIff(eng, o.targetFile.value, h);
    }
    forall x
      ensures id == Some(x) <==> Means(eng, g, o.targetName.value, o.targetQualified, x)
      ensures ImportTarget(env, t, g) == Some(x) <==> ImportsAs(eng, g, x)
    {
      TargetIff(eng, g, o.targetName.value, o.targetQualified, x);
      ImportIff(eng, g, x);
    }
    forall h, a, x
      ensures Mentions(eng, f, o, h, a, x) <==> h == g && a == from && id == Some(x) && from != x
    {
    }
    if id.Some? && id.value != from {
      assert Mentions(eng, f, o, g, from, id.value);
      assert Brings(eng, f, o, g) <==> g != f;
    }
  }

  lemma ReferralMeans(eng: Project, f: string, e: Edge)
    requires Readable(eng, f)
    ensures e in Referrals(eng, f) <==> IsReference(eng, f, e) || IsImport(eng, f, e)
  {
    ReferralsAre(eng, f);
    ReferenceEdgeFrom(EnvOf(eng), TablesOf(eng), f, OccurrencesOf(eng.facts[f]), e);
    forall o | o in OccurrencesOf(eng.facts[f])
      ensures e in OccurrenceEdges(EnvOf(eng), TablesOf(eng), f, o) <==> RefersBy(eng, f, o, e) || ImportsBy(eng, f, o, e)
    {
      OccurrenceMeans(eng, f, o, e);
    }
  }

  lemma SupersMeans(eng: Project, f: string, s: Symbol, sup: Supertype)
    requires Readable(eng, f) && s in eng.facts[f].symbols.value && s.id.Some?
    ensures sup in SupersOf(eng.facts[f], s) <==> HasSuper(eng, f, s, sup)
  {
    var (line, column) := Cursor(s);
    assert CursorOf(s, line, column);
    assert forall l, c :: CursorOf(s, l, c) ==> l == line && c == column;
  }

  lemma InheritanceMeans(eng: Project, f: string, e: Edge)
    requires Readable(eng, f)
    ensures e in Inheritances(eng, f) <==> IsInheritance(eng, f, e)
  {
    var env, t, symbols := EnvOf(eng), TablesOf(eng), eng.facts[f].symbols.value;
    if e in Inheritances(eng, f) {
      var s := InheritEdgeShape(env, t, eng.facts[f], symbols, e);
      InheritEdgeIff(env, t, eng.facts[f], symbols, s.id.value, e.target);
      var s', sup :| s' in symbols && s'.id == Some(s.id.value) && sup in SupersOf(eng.facts[f], s')
        && SuperTarget(env, t, sup) == Some(e.target);
      SupersMeans(eng, f, s', sup);
      DesignatesIff(eng, sup.path, Normalize(env, sup.path));
      SuperIff(eng, sup, Normalize(env, sup.path), e.target);
    }
    if IsInheritance(eng, f, e) {
      var s, sup, g :| HasSuper(eng, f, s, sup) && Designates(eng, sup.path, g) && SuperMeans(eng, g, sup.name, e.target)
        && s.id.Some? && e == Edge(EntityId(s.id.value), e.target, Inherits, None, None, None);
      SupersMeans(eng, f, s, sup);
      SuperIff(eng, sup, g, e.target);
      InheritEdgeIff(env, t, eng.facts[f], symbols, s.id.value, e.target);
    }
  }

  lemma {:induction false} ContainmentFrom(f: string, ft: FileTable, symbols: seq<Symbol>, e: Edge)
    ensures e in ContainmentEdges(f, ft, symbols) <==> exists s :: s in symbols && e in ContainmentEdge(f, ft, s)
  {
    if symbols != [] {
      ContainmentFrom(f, ft, symbols[..|symbols| - 1], e);
      SplitLast(symbols);
    }
  }

  lemma ParentMeans(eng: Project, f: string, s: Symbol, p: NodeId)
    requires Readable(eng, f)
    ensures ParentOf(f, NodesOf(eng, f), s) == p <==> BelongsTo(eng, f, s, p)
  {
    if s.container.Some? {
      ResolveNone(eng, f, s.container.value);
      ResolveIff(eng, f, s.container.value, p);
      assert Resolve(TablesOf(eng), f, s.container.value) == Find(NodesOf(eng, f), s.container.value);
      assert forall y :: Called(eng, f, s.container.value, y) <==> Denotes(NodesOf(eng, f), s.container.value, y);
    }
  }

  lemma ContainmentMeans(eng: Project, f: string, e: Edge)
    requires Readable(eng, f)
    ensures e in Containments(eng, f) <==> IsContainment(eng, f, e)
  {
    var symbols := eng.facts[f].symbols.value;
    ContainmentFrom(f, NodesOf(eng, f), symbols, e);
    forall s | s in symbols
      ensures e in ContainmentEdge(f, NodesOf(eng, f), s) <==>
              s.id.Some? && BelongsTo(eng, f, s, e.source)
              && e == Edge(e.source, EntityId(s.id.value), if e.source == ModuleId(f) then Defines else Contains, None, None, None)
    {
      ParentMeans(eng, f, s, e.source);
    }
  }

  ghost predicate IsEdgeOf(eng: Engine, f: string, e: Edge) {
    Readable(eng, f) && (IsContainment(eng, f, e) || IsReference(eng, f, e) || IsImport(eng, f, e) || IsInheritance(eng, f, e))
  }

  /** The edges of a full build are exactly these: from the parent of each symbol to it, from
      the innermost symbol around each occurrence to what it means, from each module to the
      modules its occurrences bring, and from each class to its supertypes. */
  lemma FullEdgesMean(eng: Project, e: Edge)
    ensures e in FullEdges(eng) <==> exists f :: IsEdgeOf(eng, f, e)
  {
    FullIsContributions(eng);
    forall f | Readable(eng, f)
      ensures e in Given(eng, f) <==> IsEdgeOf(eng, f, e)
    {
      GivenIsThreeParts(eng, f);
      ContainmentMeans(eng, f, e);
      ReferralMeans(eng, f, e);
      InheritanceMeans(eng, f, e);
    }
    if e in FullEdges(eng) {
      var f := Contributor(eng, eng.facts.Keys, e);
      UnreadableGivesNothing(eng, f, e);
    }
    if f :| IsEdgeOf(eng, f, e) {
      Contributed(eng, eng.facts.Keys, f, e);
    }
  }

  lemma UnreadableGivesNothing(eng: Project, f: string, e: Edge)
    requires e in Given(eng, f)
    ensures Readable(eng, f)
  {
    GivenIsThreeParts(eng, f);
  }

  // ---- The nodes -----------------------------------------------------------------------------------------

  /** A layer that shows an engine state has, for each file, its module and the first symbol
      with each id, depicted as the engine reports them. */
  lemma ShownNodes(layer: Layer, eng: Project, f: string)
    requires Shows(layer, eng) && Readable(eng, f)
    ensures ModuleId(f) in layer.nodes &&
            var m := layer.nodes[ModuleId(f)];
            m.file == f && m.kind == "module" && m.name == Stem(f) && m.qualifiedName == "<module>" && !m.external
    ensures forall i: nat, id :: FirstWith(eng.facts[f].symbols.value, i, id) ==>
              EntityId(id) in layer.nodes && Depicts(layer.nodes[EntityId(id)], f, eng.facts[f].symbols.value[i])
  {
    WellFormedTables(eng);
    var symbols := eng.facts[f].symbols.value;
    ModuleDepicts(f, symbols, |symbols|);
    HeldIsNode(layer.nodes, TablesOf(eng), f, ModuleId(f));
    forall i: nat, id | FirstWith(symbols, i, id)
      ensures EntityId(id) in layer.nodes && Depicts(layer.nodes[EntityId(id)], f, symbols[i])
    {
      TableDepicts(f, symbols, |symbols|, id);
      HeldIsNode(layer.nodes, TablesOf(eng), f, EntityId(id));
    }
  }

  /** And it has no other nodes but stubs for what is off the project. */
  lemma NoOtherNodes(layer: Layer, eng: Project, x: NodeId)
    requires Shows(layer, eng) && x in layer.nodes
    ensures match x
            case ExternalId(_, _) => StubFits(x, layer.nodes[x])
            case ModuleId(f) => Readable(eng, f)
            case EntityId(id) => exists f, i: nat :: Readable(eng, f) && FirstWith(eng.facts[f].symbols.value, i, id)
  {
    WellFormedTables(eng);
    StubIsExternal(layer.nodes, TablesOf(eng), x);
    assert PlacedAt(layer.nodes, TablesOf(eng), x);
    if !x.ExternalId? {
      var f := OwnedBy(layer.nodes, TablesOf(eng), x);
      assert ShapedAt(TablesOf(eng), f);
      if x.EntityId? {
        TableDepicts(f, eng.facts[f].symbols.value, |eng.facts[f].symbols.value|, x.durableId);
      }
    }
  }
}
