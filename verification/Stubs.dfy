/** Which off-project stubs a build leaves: a condition on what imports name and on where
    occurrences and supertypes lead. */
module Stubs {
  import opened Wrappers
  import opened CodeLayer
  import opened LayerSpec
  import opened NodeLists
  import opened Builder
  import opened Rebuild
  import opened Scoped
  import opened Exactness

  /** Some import occurrence of the project names the off-project symbol `x`. */
  ghost predicate NamedByImport(eng: Engine, x: NodeId) {
    exists f, o :: f in TablesOf(eng) && o in OccurrencesOf(eng.facts[f]) && NamesIn(eng, o, x)
  }

  ghost predicate NamesIn(eng: Engine, o: Occurrence, x: NodeId) {
    && x.ExternalId? && o.role == IMPORT_ROLE && o.targetFile.Some? && o.targetName.Some?
    && OccurrenceTarget(EnvOf(eng), TablesOf(eng), Normalize(EnvOf(eng), o.targetFile.value), o.targetName.value,
                        o.targetQualified) == Some(x)
  }

  ghost predicate OccurrenceLeads(eng: Engine, f: string, o: Occurrence, x: NodeId)
    requires f in TablesOf(eng)
  {
    var lead := LeadOf(EnvOf(eng), TablesOf(eng), f, o);
    lead.imports == Some(x) || lead.refers == Some(x)
  }

  ghost predicate ClassInherits(eng: Engine, f: string, id: string, x: NodeId)
    requires f in TablesOf(eng)
  {
    x in Bases(EnvOf(eng), TablesOf(eng), eng.facts[f], eng.facts[f].symbols.value, id)
  }

  /** Some occurrence imports or refers to `x`, or some class has it as a supertype. */
  ghost predicate LedTo(eng: Engine, x: NodeId) {
    || (exists f, o :: f in TablesOf(eng) && o in OccurrencesOf(eng.facts[f]) && OccurrenceLeads(eng, f, o, x))
    || (exists f, id :: f in TablesOf(eng) && ClassInherits(eng, f, id, x))
  }

  // ---- Names of imports ---------------------------------------------------------------------

  lemma {:induction false} NamedFrom(env: Env, t: Tables, occs: seq<Occurrence>, x: NodeId)
    ensures x in ImportNames(env, t, occs) <==> exists o :: o in occs && x in ImportNamed(env, t, o)
  {
    if occs != [] {
      NamedFrom(env, t, occs[..|occs| - 1], x);
      SplitLast(occs);
    }
  }

  lemma NamedIff(eng: Engine, f: string, x: NodeId)
    requires f in TablesOf(eng)
    ensures x in Named(eng, f) <==> exists o :: o in OccurrencesOf(eng.facts[f]) && NamesIn(eng, o, x)
  {
    NamedFrom(EnvOf(eng), TablesOf(eng), OccurrencesOf(eng.facts[f]), x);
    forall o
      ensures x in ImportNamed(EnvOf(eng), TablesOf(eng), o) <==> NamesIn(eng, o, x)
    {
    }
  }

  lemma FullNamesIff(eng: Engine, x: NodeId)
    ensures x in FullNames(eng) <==> NamedByImport(eng, x)
  {
    if x in FullNames(eng) {
      var f :| f in eng.facts && x in Named(eng, f);
      NamedIff(eng, f, x);
    }
    if NamedByImport(eng, x) {
      var f, o :| f in TablesOf(eng) && o in OccurrencesOf(eng.facts[f]) && NamesIn(eng, o, x);
      NamedIff(eng, f, x);
      NamedIn(eng, eng.facts.Keys, f, x);
    }
  }

  // ---- Targets of edges ------------------------------------------------------------------------

  lemma TargetIsLedTo(eng: Project, f: string, e: Edge)
    requires e in Given(eng, f) && e.target.ExternalId?
    ensures LedTo(eng, e.target)
  {
    PartByKind(eng, f, e);
    var symbols := eng.facts[f].symbols.value;
    if e.kind.Imports? || e.kind.References? {
      var o := ReferenceEdgeShape(EnvOf(eng), TablesOf(eng), f, eng.facts[f].occurrences.value, e);
      assert OccurrenceLeads(eng, f, o, e.target);
    } else if e.kind.Inherits? {
      var s := InheritEdgeShape(EnvOf(eng), TablesOf(eng), eng.facts[f], symbols, e);
      InheritEdgeIff(EnvOf(eng), TablesOf(eng), eng.facts[f], symbols, s.id.value, e.target);
      assert ClassInherits(eng, f, s.id.value, e.target);
    } else {
      var i := ContainmentTarget(f, TablesOf(eng)[f], symbols, e);
    }
  }

  lemma OccurrenceGivesEdge(eng: Engine, f: string, o: Occurrence, x: NodeId) returns (e: Edge)
    requires f in TablesOf(eng) && o in OccurrencesOf(eng.facts[f]) && OccurrenceLeads(eng, f, o, x)
    ensures e in Given(eng, f) && e.target == x
  {
    var env, t, occs := EnvOf(eng), TablesOf(eng), OccurrencesOf(eng.facts[f]);
    GivenIsThreeParts(eng, f);
    if LeadOf(env, t, f, o).imports == Some(x) {
      e := ImportEdge(f, x, o.range);
      ImportEdgeIff(env, t, f, occs, o.range, x);
    } else {
      e := ReferenceEdge(f, t[f], x, o.role, o.range);
      ReferenceEdgeIff(env, t, f, occs, o.range, o.role, x);
    }
  }

  lemma ClassGivesEdge(eng: Engine, f: string, id: string, x: NodeId) returns (e: Edge)
    requires f in TablesOf(eng) && ClassInherits(eng, f, id, x)
    ensures e in Given(eng, f) && e.target == x
  {
    GivenIsThreeParts(eng, f);
    InheritEdgeIff(EnvOf(eng), TablesOf(eng), eng.facts[f], eng.facts[f].symbols.value, id, x);
    e := InheritEdge(id, x);
  }

  /** A full build has an edge to an off-project symbol exactly if something leads to it. */
  lemma TargetedIff(eng: Project, x: NodeId)
    requires x.ExternalId?
    ensures x in ExternalTargets(FullEdges(eng)) <==> LedTo(eng, x)
  {
    FullIsContributions(eng);
    if x in ExternalTargets(FullEdges(eng)) {
      var e :| e in FullEdges(eng) && e.target == x;
      var f := Contributor(eng, eng.facts.Keys, e);
      TargetIsLedTo(eng, f, e);
    }
    if LedTo(eng, x) {
      var e;
      if f, o :| f in TablesOf(eng) && o in OccurrencesOf(eng.facts[f]) && OccurrenceLeads(eng, f, o, x) {
        e := OccurrenceGivesEdge(eng, f, o, x);
        Contributed(eng, eng.facts.Keys, f, e);
      } else {
        var f, id :| f in TablesOf(eng) && ClassInherits(eng, f, id, x);
        e := ClassGivesEdge(eng, f, id, x);
        Contributed(eng, eng.facts.Keys, f, e);
      }
    }
  }

  // ---- What is left unreferenced ------------------------------------------------------------------

  /** After a full build a stub is unreferenced if and only if some import names it, while no
      occurrence imports or refers to it and no class has it as a supertype. */
  lemma UnreferencedIff(layer: Layer, eng: Project, x: NodeId)
    requires FullyBuilt(layer, eng)
    ensures Unreferenced(layer.nodes, layer.edges, x) <==> NamedByImport(eng, x) && !LedTo(eng, x)
  {
    if x in layer.nodes {
      WellFormedTables(eng);
      StubIsExternal(layer.nodes, TablesOf(eng), x);
    }
    assert x in Externals(layer.nodes) <==> x in layer.nodes && layer.nodes[x].external;
    FullNamesIff(eng, x);
    if x.ExternalId? {
      TargetedIff(eng, x);
      assert x in ExternalTargets(FullEdges(eng)) <==> exists e :: e in layer.edges && e.target == x;
    }
  }

  /** A full build of the engine state and a scoped rebuild that agrees with it have the same
      stubs if and only if something leads to every off-project symbol that an import names. */
  lemma StubParityIff(full: Layer, scoped: Layer, prev: Layer, was: Engine, eng: Project, dirty: set<string>)
    requires FullyBuilt(full, eng) && ScopedBuilt(scoped, prev, was, eng, dirty) && Agrees(scoped, eng)
    ensures Externals(full.nodes) == Externals(scoped.nodes) <==> forall x :: NamedByImport(eng, x) ==> LedTo(eng, x)
  {
    forall x
      ensures x in FullNames(eng) <==> NamedByImport(eng, x)
      ensures NamedByImport(eng, x) ==> (x in ExternalTargets(FullEdges(eng)) <==> LedTo(eng, x))
    {
      FullNamesIff(eng, x);
      if x.ExternalId? {
        TargetedIff(eng, x);
      }
    }
  }
}
