/** When a scoped rebuild equals a full build: a condition on where the occurrences and
    supertypes of the files left alone lead, before and after. */
module Exactness {
  import opened Wrappers
  import opened CodeLayer
  import opened LayerSpec
  import opened NodeLists
  import opened Builder
  import opened Rebuild
  import opened Scoped
  import opened Patchwork

  // ---- Where an occurrence leads ---------------------------------------------------------

  /** The node that an occurrence imports and the node that it refers to, if any. */
  datatype Lead = Lead(imports: Option<NodeId>, refers: Option<NodeId>)

  function ImportLead(env: Env, t: Tables, file: string, target: string): Option<NodeId> {
    if target == file then None else ImportTarget(env, t, target)
  }

  /** Name lookups only: nothing is built. */
  function LeadOf(env: Env, t: Tables, file: string, occ: Occurrence): Lead
    requires file in t
  {
    if occ.role == IMPORT_ROLE && occ.targetFile.None? then
      Lead(if occ.definition.None? then None else ImportLead(env, t, file, Normalize(env, occ.definition.value)), None)
    else if occ.targetFile.None? || occ.targetName.None? then Lead(None, None)
    else
      var target := Normalize(env, occ.targetFile.value);
      var id := OccurrenceTarget(env, t, target, occ.targetName.value, occ.targetQualified);
      if id.None? || id.value == Enclosing(file, t[file], occ.range) then Lead(None, None)
      else Lead(ImportLead(env, t, file, target), if occ.role == IMPORT_ROLE then None else id)
  }

  function ImportEdge(file: string, target: NodeId, range: Range): Edge {
    Edge(ModuleId(file), target, Imports, None, Some(file), Some(range))
  }

  function ReferenceEdge(file: string, ft: FileTable, target: NodeId, role: string, range: Range): Edge {
    Edge(Enclosing(file, ft, range), target, References, Some(role), Some(file), Some(range))
  }

  lemma OccurrenceEdgeIff(env: Env, t: Tables, file: string, occ: Occurrence, e: Edge)
    requires file in t
    ensures var lead := LeadOf(env, t, file, occ);
            e in OccurrenceEdges(env, t, file, occ) <==>
            || (lead.imports.Some? && e == ImportEdge(file, lead.imports.value, occ.range))
            || (lead.refers.Some? && e == ReferenceEdge(file, t[file], lead.refers.value, occ.role, occ.range))
  {
  }

  lemma {:induction false} ReferenceEdgeFrom(env: Env, t: Tables, file: string, occs: seq<Occurrence>, e: Edge)
    requires file in t
    ensures e in ReferenceEdges(env, t, file, occs) <==> exists o :: o in occs && e in OccurrenceEdges(env, t, file, o)
  {
    if occs != [] {
      var n := |occs| - 1;
      ReferenceEdgeFrom(env, t, file, occs[..n], e);
      SplitLast(occs);
    }
  }

  /** The nodes imported by the occurrences at a range. */
  ghost function ImportsAt(env: Env, t: Tables, file: string, occs: seq<Occurrence>, range: Range): set<NodeId>
    requires file in t
  {
    set o | o in occs && o.range == range && LeadOf(env, t, file, o).imports.Some? :: LeadOf(env, t, file, o).imports.value
  }

  /** The nodes referred to in a role by the occurrences at a range. */
  ghost function RefersAt(env: Env, t: Tables, file: string, occs: seq<Occurrence>, range: Range, role: string): set<NodeId>
    requires file in t
  {
    set o | o in occs && o.range == range && o.role == role && LeadOf(env, t, file, o).refers.Some? ::
      LeadOf(env, t, file, o).refers.value
  }

  lemma ImportEdgeIff(env: Env, t: Tables, file: string, occs: seq<Occurrence>, range: Range, x: NodeId)
    requires file in t
    ensures ImportEdge(file, x, range) in ReferenceEdges(env, t, file, occs) <==> x in ImportsAt(env, t, file, occs, range)
  {
    var e := ImportEdge(file, x, range);
    ReferenceEdgeFrom(env, t, file, occs, e);
    forall o | o in occs
      ensures e in OccurrenceEdges(env, t, file, o) <==> o.range == range && LeadOf(env, t, file, o).imports == Some(x)
    {
      OccurrenceEdgeIff(env, t, file, o, e);
    }
  }

  lemma ReferenceEdgeIff(env: Env, t: Tables, file: string, occs: seq<Occurrence>, range: Range, role: string, x: NodeId)
    requires file in t
    ensures ReferenceEdge(file, t[file], x, role, range) in ReferenceEdges(env, t, file, occs) <==>
            x in RefersAt(env, t, file, occs, range, role)
  {
    var e := ReferenceEdge(file, t[file], x, role, range);
    ReferenceEdgeFrom(env, t, file, occs, e);
    forall o | o in occs
      ensures e in OccurrenceEdges(env, t, file, o) <==>
              o.range == range && o.role == role && LeadOf(env, t, file, o).refers == Some(x)
    {
      OccurrenceEdgeIff(env, t, file, o, e);
    }
  }

  ghost predicate SameImportsAt(env: Env, t: Tables, occs: seq<Occurrence>, env': Env, t': Tables, occs': seq<Occurrence>,
                                file: string, range: Range)
    requires file in t && file in t'
  {
    ImportsAt(env, t, file, occs, range) == ImportsAt(env', t', file, occs', range)
  }

  ghost predicate SameRefersAt(env: Env, t: Tables, occs: seq<Occurrence>, env': Env, t': Tables, occs': seq<Occurrence>,
                               file: string, range: Range, role: string)
    requires file in t && file in t'
  {
    RefersAt(env, t, file, occs, range, role) == RefersAt(env', t', file, occs', range, role)
  }

  lemma ReferenceEdgeShape(env: Env, t: Tables, file: string, occs: seq<Occurrence>, e: Edge) returns (o: Occurrence)
    requires file in t && e in ReferenceEdges(env, t, file, occs)
    ensures o in occs
    ensures || (LeadOf(env, t, file, o).imports == Some(e.target) && e == ImportEdge(file, e.target, o.range))
            || (LeadOf(env, t, file, o).refers == Some(e.target) && e == ReferenceEdge(file, t[file], e.target, o.role, o.range))
  {
    ReferenceEdgeFrom(env, t, file, occs, e);
    o :| o in occs && e in OccurrenceEdges(env, t, file, o);
    OccurrenceEdgeIff(env, t, file, o, e);
  }

  /** If every edge of the one list has its counterpart, it is in the other. */
  lemma ReferenceEdgeCarries(env: Env, t: Tables, occs: seq<Occurrence>, env': Env, t': Tables, occs': seq<Occurrence>,
                             file: string, e: Edge)
    requires file in t && file in t' && t[file] == t'[file] && e in ReferenceEdges(env, t, file, occs)
    requires forall r :: SameImportsAt(env, t, occs, env', t', occs', file, r)
    requires forall r, role :: SameRefersAt(env, t, occs, env', t', occs', file, r, role)
    ensures e in ReferenceEdges(env', t', file, occs')
  {
    var o := ReferenceEdgeShape(env, t, file, occs, e);
    assert SameImportsAt(env, t, occs, env', t', occs', file, o.range);
    assert SameRefersAt(env, t, occs, env', t', occs', file, o.range, o.role);
    if e.kind.Imports? {
      ImportEdgeIff(env, t, file, occs, o.range, e.target);
      ImportEdgeIff(env', t', file, occs', o.range, e.target);
    } else {
      ReferenceEdgeIff(env, t, file, occs, o.range, o.role, e.target);
      ReferenceEdgeIff(env', t', file, occs', o.range, o.role, e.target);
    }
  }

  lemma SameEdgesSameLeads(env: Env, t: Tables, occs: seq<Occurrence>, env': Env, t': Tables, occs': seq<Occurrence>,
                           file: string, r: Range, role: string)
    requires file in t && file in t' && t[file] == t'[file]
    requires ReferenceEdges(env, t, file, occs) == ReferenceEdges(env', t', file, occs')
    ensures SameImportsAt(env, t, occs, env', t', occs', file, r)
    ensures SameRefersAt(env, t, occs, env', t', occs', file, r, role)
  {
    forall x
      ensures x in ImportsAt(env, t, file, occs, r) <==> x in ImportsAt(env', t', file, occs', r)
      ensures x in RefersAt(env, t, file, occs, r, role) <==> x in RefersAt(env', t', file, occs', r, role)
    {
      ImportEdgeIff(env, t, file, occs, r, x);
      ImportEdgeIff(env', t', file, occs', r, x);
      ReferenceEdgeIff(env, t, file, occs, r, role, x);
      ReferenceEdgeIff(env', t', file, occs', r, role, x);
    }
  }

  // ---- What a class inherits from -----------------------------------------------------------

  /** The nodes that the supertypes of the classes with this id resolve to. */
  ghost function Bases(env: Env, t: Tables, facts: Facts, symbols: seq<Symbol>, id: string): set<NodeId> {
    set s, sup | s in symbols && s.id == Some(id) && sup in SupersOf(facts, s) && SuperTarget(env, t, sup).Some? ::
      SuperTarget(env, t, sup).value
  }

  ghost predicate Yields(env: Env, t: Tables, id: NodeId, sup: Supertype, e: Edge) {
    e in SuperEdge(env, t, id, sup)
  }

  lemma {:induction false} SuperEdgeFrom(env: Env, t: Tables, id: NodeId, sups: seq<Supertype>, e: Edge)
    ensures e in SuperEdges(env, t, id, sups) <==> exists sup :: sup in sups && Yields(env, t, id, sup, e)
  {
    if sups != [] {
      var n := |sups| - 1;
      SuperEdgeFrom(env, t, id, sups[..n], e);
      assert e in SuperEdges(env, t, id, sups) <==> e in SuperEdges(env, t, id, sups[..n]) || Yields(env, t, id, sups[n], e);
      SplitLast(sups);
    }
  }

  lemma SplitLast<T>(s: seq<T>)
    requires s != []
    ensures forall x :: x in s <==> x == s[|s| - 1] || x in s[..|s| - 1]
  {
  }

  lemma {:induction false} InheritanceEdgeFrom(env: Env, t: Tables, facts: Facts, symbols: seq<Symbol>, e: Edge)
    ensures e in InheritanceEdges(env, t, facts, symbols) <==> exists s :: s in symbols && e in BaseEdges(env, t, facts, s)
  {
    if symbols != [] {
      var n := |symbols| - 1;
      InheritanceEdgeFrom(env, t, facts, symbols[..n], e);
      SplitLast(symbols);
    }
  }

  function InheritEdge(id: string, base: NodeId): Edge {
    Edge(EntityId(id), base, Inherits, None, None, None)
  }

  lemma InheritEdgeIff(env: Env, t: Tables, facts: Facts, symbols: seq<Symbol>, id: string, x: NodeId)
    ensures InheritEdge(id, x) in InheritanceEdges(env, t, facts, symbols) <==> x in Bases(env, t, facts, symbols, id)
  {
    var e := InheritEdge(id, x);
    InheritanceEdgeFrom(env, t, facts, symbols, e);
    forall s | s in symbols
      ensures e in BaseEdges(env, t, facts, s) <==>
              s.id == Some(id) && exists sup :: sup in SupersOf(facts, s) && SuperTarget(env, t, sup) == Some(x)
    {
      if s.id.Some? {
        SuperEdgeFrom(env, t, EntityId(s.id.value), SupersOf(facts, s), e);
      }
    }
  }

  lemma InheritEdgeShape(env: Env, t: Tables, facts: Facts, symbols: seq<Symbol>, e: Edge) returns (s: Symbol)
    requires e in InheritanceEdges(env, t, facts, symbols)
    ensures s in symbols && s.id.Some? && e == InheritEdge(s.id.value, e.target)
  {
    InheritanceEdgeFrom(env, t, facts, symbols, e);
    s :| s in symbols && e in BaseEdges(env, t, facts, s);
    SuperEdgeFrom(env, t, EntityId(s.id.value), SupersOf(facts, s), e);
    var sup :| sup in SupersOf(facts, s) && Yields(env, t, EntityId(s.id.value), sup, e);
  }

  ghost predicate SameBasesAt(env: Env, t: Tables, facts: Facts, env': Env, t': Tables, facts': Facts,
                              symbols: seq<Symbol>, id: string)
  {
    Bases(env, t, facts, symbols, id) == Bases(env', t', facts', symbols, id)
  }

  lemma InheritEdgeCarries(env: Env, t: Tables, facts: Facts, env': Env, t': Tables, facts': Facts,
                           symbols: seq<Symbol>, e: Edge)
    requires e in InheritanceEdges(env, t, facts, symbols)
    requires forall id :: SameBasesAt(env, t, facts, env', t', facts', symbols, id)
    ensures e in InheritanceEdges(env', t', facts', symbols)
  {
    var s := InheritEdgeShape(env, t, facts, symbols, e);
    assert SameBasesAt(env, t, facts, env', t', facts', symbols, s.id.value);
    InheritEdgeIff(env, t, facts, symbols, s.id.value, e.target);
    InheritEdgeIff(env', t', facts', symbols, s.id.value, e.target);
  }

  lemma SameEdgesSameBases(env: Env, t: Tables, facts: Facts, env': Env, t': Tables, facts': Facts,
                           symbols: seq<Symbol>, id: string)
    requires InheritanceEdges(env, t, facts, symbols) == InheritanceEdges(env', t', facts', symbols)
    ensures SameBasesAt(env, t, facts, env', t', facts', symbols, id)
  {
    forall x
      ensures x in Bases(env, t, facts, symbols, id) <==> x in Bases(env', t', facts', symbols, id)
    {
      InheritEdgeIff(env, t, facts, symbols, id, x);
      InheritEdgeIff(env', t', facts', symbols, id, x);
    }
  }

  // ---- Per file: the same answers give the same edges, and conversely --------------------------

  function OccurrencesOf(facts: Facts): seq<Occurrence> {
    if facts.occurrences.Some? then facts.occurrences.value else []
  }

  ghost predicate InBoth(was: Engine, eng: Engine, f: string) {
    f in TablesOf(was) && f in TablesOf(eng)
  }

  ghost predicate ImportsAgree(was: Engine, eng: Engine, f: string, r: Range)
    requires InBoth(was, eng, f)
  {
    SameImportsAt(EnvOf(was), TablesOf(was), OccurrencesOf(was.facts[f]),
                  EnvOf(eng), TablesOf(eng), OccurrencesOf(eng.facts[f]), f, r)
  }

  ghost predicate RefersAgree(was: Engine, eng: Engine, f: string, r: Range, role: string)
    requires InBoth(was, eng, f)
  {
    SameRefersAt(EnvOf(was), TablesOf(was), OccurrencesOf(was.facts[f]),
                 EnvOf(eng), TablesOf(eng), OccurrencesOf(eng.facts[f]), f, r, role)
  }

  ghost predicate BasesAgree(was: Engine, eng: Engine, f: string, id: string)
    requires InBoth(was, eng, f)
  {
    SameBasesAt(EnvOf(was), TablesOf(was), was.facts[f], EnvOf(eng), TablesOf(eng), eng.facts[f],
                eng.facts[f].symbols.value, id)
  }

  /** At every position the file's occurrences lead to the same nodes in both engine states,
      and every class of the file resolves to the same supertypes. */
  ghost predicate SameAnswers(was: Engine, eng: Engine, f: string) {
    InBoth(was, eng, f) ==>
      && (forall r :: ImportsAgree(was, eng, f, r))
      && (forall r, role :: RefersAgree(was, eng, f, r, role))
      && (forall id :: BasesAgree(was, eng, f, id))
  }

  lemma {:induction false} ContainmentKinds(file: string, ft: FileTable, symbols: seq<Symbol>, e: Edge)
    requires e in ContainmentEdges(file, ft, symbols)
    ensures e.kind.Defines? || e.kind.Contains?
  {
    var n := |symbols| - 1;
    if e in ContainmentEdges(file, ft, symbols[..n]) {
      ContainmentKinds(file, ft, symbols[..n], e);
    }
  }

  lemma {:induction false} ContainmentTarget(file: string, ft: FileTable, symbols: seq<Symbol>, e: Edge) returns (i: nat)
    requires e in ContainmentEdges(file, ft, symbols)
    ensures i < |symbols| && symbols[i].id.Some? && e.target == EntityId(symbols[i].id.value)
  {
    var n := |symbols| - 1;
    if e in ContainmentEdges(file, ft, symbols[..n]) {
      i := ContainmentTarget(file, ft, symbols[..n], e);
    } else {
      i := n;
    }
  }

  /** The kind of an edge tells which of the three parts it belongs to. */
  lemma PartByKind(eng: Engine, f: string, e: Edge)
    requires e in Given(eng, f)
    ensures f in TablesOf(eng)
    ensures e in Containments(eng, f) <==> e.kind.Defines? || e.kind.Contains?
    ensures e in Referrals(eng, f) <==> e.kind.Imports? || e.kind.References?
    ensures e in Inheritances(eng, f) <==> e.kind.Inherits?
  {
    GivenIsThreeParts(eng, f);
    if e in Containments(eng, f) {
      ContainmentKinds(f, TablesOf(eng)[f], eng.facts[f].symbols.value, e);
    }
    if e in Referrals(eng, f) {
      var o := ReferenceEdgeShape(EnvOf(eng), TablesOf(eng), f, eng.facts[f].occurrences.value, e);
    }
    if e in Inheritances(eng, f) {
      var s := InheritEdgeShape(EnvOf(eng), TablesOf(eng), eng.facts[f], eng.facts[f].symbols.value, e);
    }
  }

  lemma SameGivenSameParts(was: Engine, eng: Engine, f: string)
    requires Given(was, f) == Given(eng, f)
    ensures Referrals(was, f) == Referrals(eng, f) && Inheritances(was, f) == Inheritances(eng, f)
  {
    GivenIsThreeParts(was, f);
    GivenIsThreeParts(eng, f);
    forall e | e in Given(was, f)
      ensures e in Referrals(was, f) <==> e in Referrals(eng, f)
      ensures e in Inheritances(was, f) <==> e in Inheritances(eng, f)
    {
      PartByKind(was, f, e);
      PartByKind(eng, f, e);
    }
  }

  lemma ReferralsAre(eng: Engine, f: string)
    requires f in TablesOf(eng)
    ensures Referrals(eng, f) == ReferenceEdges(EnvOf(eng), TablesOf(eng), f, OccurrencesOf(eng.facts[f]))
  {
  }

  lemma SameGivenSameAnswers(was: Engine, eng: Engine, f: string)
    requires SameSymbols(was, eng, f) && InBoth(was, eng, f) && Given(was, f) == Given(eng, f)
    ensures SameAnswers(was, eng, f)
  {
    SameGivenSameParts(was, eng, f);
    ReferralsAre(was, f);
    ReferralsAre(eng, f);
    forall r, role
      ensures RefersAgree(was, eng, f, r, role)
    {
      SameEdgesSameLeads(EnvOf(was), TablesOf(was), OccurrencesOf(was.facts[f]),
                         EnvOf(eng), TablesOf(eng), OccurrencesOf(eng.facts[f]), f, r, role);
    }
    forall r
      ensures ImportsAgree(was, eng, f, r)
    {
      SameEdgesSameLeads(EnvOf(was), TablesOf(was), OccurrencesOf(was.facts[f]),
                         EnvOf(eng), TablesOf(eng), OccurrencesOf(eng.facts[f]), f, r, IMPORT_ROLE);
    }
    forall id
      ensures BasesAgree(was, eng, f, id)
    {
      SameEdgesSameBases(EnvOf(was), TablesOf(was), was.facts[f], EnvOf(eng), TablesOf(eng), eng.facts[f],
                         eng.facts[f].symbols.value, id);
    }
  }

  lemma AnswersCarryReferral(was: Engine, eng: Engine, f: string, e: Edge)
    requires InBoth(was, eng, f) && TablesOf(was)[f] == TablesOf(eng)[f] && SameAnswers(was, eng, f)
    ensures e in Referrals(was, f) <==> e in Referrals(eng, f)
  {
    ReferralsAre(was, f);
    ReferralsAre(eng, f);
    var o, n := OccurrencesOf(was.facts[f]), OccurrencesOf(eng.facts[f]);
    forall r
      ensures SameImportsAt(EnvOf(was), TablesOf(was), o, EnvOf(eng), TablesOf(eng), n, f, r)
      ensures SameImportsAt(EnvOf(eng), TablesOf(eng), n, EnvOf(was), TablesOf(was), o, f, r)
    {
      assert ImportsAgree(was, eng, f, r);
    }
    forall r, role
      ensures SameRefersAt(EnvOf(was), TablesOf(was), o, EnvOf(eng), TablesOf(eng), n, f, r, role)
      ensures SameRefersAt(EnvOf(eng), TablesOf(eng), n, EnvOf(was), TablesOf(was), o, f, r, role)
    {
      assert RefersAgree(was, eng, f, r, role);
    }
    if e in Referrals(was, f) {
      ReferenceEdgeCarries(EnvOf(was), TablesOf(was), o, EnvOf(eng), TablesOf(eng), n, f, e);
    }
    if e in Referrals(eng, f) {
      ReferenceEdgeCarries(EnvOf(eng), TablesOf(eng), n, EnvOf(was), TablesOf(was), o, f, e);
    }
  }

  lemma AnswersCarryInheritance(was: Engine, eng: Engine, f: string, e: Edge)
    requires SameSymbols(was, eng, f) && InBoth(was, eng, f) && SameAnswers(was, eng, f)
    ensures e in Inheritances(was, f) <==> e in Inheritances(eng, f)
  {
    var symbols := eng.facts[f].symbols.value;
    forall id
      ensures SameBasesAt(EnvOf(was), TablesOf(was), was.facts[f], EnvOf(eng), TablesOf(eng), eng.facts[f], symbols, id)
      ensures SameBasesAt(EnvOf(eng), TablesOf(eng), eng.facts[f], EnvOf(was), TablesOf(was), was.facts[f], symbols, id)
    {
      assert BasesAgree(was, eng, f, id);
    }
    if e in Inheritances(was, f) {
      InheritEdgeCarries(EnvOf(was), TablesOf(was), was.facts[f], EnvOf(eng), TablesOf(eng), eng.facts[f], symbols, e);
    }
    if e in Inheritances(eng, f) {
      InheritEdgeCarries(EnvOf(eng), TablesOf(eng), eng.facts[f], EnvOf(was), TablesOf(was), was.facts[f], symbols, e);
    }
  }

  /** A file with the same symbols contributes the same edges if and only if its
      occurrences and supertypes lead to the same nodes. */
  lemma GivenSameIff(was: Engine, eng: Engine, f: string)
    requires SameSymbols(was, eng, f)
    ensures Given(was, f) == Given(eng, f) <==> SameAnswers(was, eng, f)
  {
    GivenIsThreeParts(was, f);
    GivenIsThreeParts(eng, f);
    if InBoth(was, eng, f) {
      if Given(was, f) == Given(eng, f) {
        SameGivenSameAnswers(was, eng, f);
      }
      if SameAnswers(was, eng, f) {
        forall e
          ensures e in Given(was, f) <==> e in Given(eng, f)
        {
          AnswersCarryReferral(was, eng, f, e);
          AnswersCarryInheritance(was, eng, f, e);
        }
      }
    }
  }

  /** Each file leads where it led when it was last derived. */
  ghost predicate LeadsAsDerived(origin: Origins, eng: Engine) {
    forall f :: SameAnswers(origin(f), eng, f)
  }

  /** A patchwork agrees with the engine if and only if each file leads where it led when it
      was last derived. */
  lemma PatchedAgreesIff(layer: Layer, eng: Project, origin: Origins)
    requires Patched(layer, eng, origin)
    ensures Agrees(layer, eng) <==> LeadsAsDerived(origin, eng)
  {
    PatchAnswersIff(origin, eng);
  }

  lemma PatchAnswersIff(origin: Origins, eng: Project)
    requires Fits(origin, eng)
    ensures PatchEdges(origin, eng.facts.Keys) == FullEdges(eng) <==> LeadsAsDerived(origin, eng)
  {
    PatchExactIff(origin, eng);
    forall f
      ensures Given(origin(f), f) == Given(eng, f) <==> SameAnswers(origin(f), eng, f)
    {
      assert SameSymbols(origin(f), eng, f);
      GivenSameIff(origin(f), eng, f);
    }
  }

  /** Edges of the files left alone, as they were, and fresh edges of the dirty ones. */
  ghost function ScopedEdges(was: Engine, eng: Engine, dirty: set<string>): set<Edge> {
    Contributions(was, was.facts.Keys - dirty) + Contributions(eng, dirty)
  }

  lemma ScopedIsPatch(was: Project, eng: Project, dirty: set<string>)
    requires SymbolsKept(was, eng, dirty)
    ensures ScopedEdges(was, eng, dirty) == PatchEdges(Rederived(Wholly(was), dirty, eng), eng.facts.Keys)
  {
    WholePieces(was, was.facts.Keys - dirty);
    RederivedEdges(Wholly(was), was, eng, dirty);
  }

  /** Over a layer that agrees with `was`, what is carried is what the other files contributed. */
  lemma RebuiltIsScoped(prev: Layer, was: Project, eng: Project, dirty: set<string>)
    requires Agrees(prev, was)
    ensures RebuiltEdges(prev, was, eng, dirty) == ScopedEdges(was, eng, dirty)
  {
    AgreeingIsPatched(prev, was);
    CarriedEdges(Wholly(was), was, dirty);
    WholePieces(was, was.facts.Keys - dirty);
  }

  /** The rebuild is exact if and only if the occurrences and supertypes of the files it
      leaves alone lead to the same nodes as before. */
  lemma ScopedExactIff(was: Project, eng: Project, dirty: set<string>)
    requires SymbolsKept(was, eng, dirty)
    ensures ScopedEdges(was, eng, dirty) == FullEdges(eng) <==> forall f :: f !in dirty ==> SameAnswers(was, eng, f)
  {
    var origin := Rederived(Wholly(was), dirty, eng);
    ScopedIsPatch(was, eng, dirty);
    WhollyFits(was);
    RederivedFits(Wholly(was), was, eng, dirty);
    PatchAnswersIff(origin, eng);
    assert forall f :: origin(f) == if f in dirty then eng else was;
    assert LeadsAsDerived(origin, eng) <==> forall f :: f !in dirty ==> SameAnswers(was, eng, f);
  }

  // ---- Only what touches the seed needs testing --------------------------------------------------

  /** The two environments and node lists differ only at the seed files. */
  ghost predicate Alike(env: Env, t: Tables, env': Env, t': Tables, seed: set<string>) {
    && env.root == env'.root && env.package == env'.package
    && forall g :: AlikeAt(env, t, env', t', seed, g)
  }

  ghost predicate AlikeAt(env: Env, t: Tables, env': Env, t': Tables, seed: set<string>, g: string) {
    g !in seed ==>
      (g in env.project <==> g in env'.project) && (g in t <==> g in t') && (g in t ==> t[g] == t'[g])
  }

  /** The path, or what it is under the root, is a seed file. */
  predicate Touches(root: string, seed: set<string>, native: string) {
    native in seed || ToGraph(root, native) in seed
  }

  predicate OccurrenceAvoids(root: string, seed: set<string>, occ: Occurrence) {
    && (occ.targetFile.Some? ==> !Touches(root, seed, occ.targetFile.value))
    && (occ.definition.Some? ==> !Touches(root, seed, occ.definition.value))
  }

  predicate SuperAvoids(root: string, seed: set<string>, sup: Supertype) {
    !Touches(root, seed, sup.path)
  }

  lemma NormalizeSame(env: Env, t: Tables, env': Env, t': Tables, seed: set<string>, native: string)
    requires Alike(env, t, env', t', seed) && !Touches(env.root, seed, native)
    ensures Normalize(env, native) == Normalize(env', native) && Normalize(env, native) !in seed
  {
    assert AlikeAt(env, t, env', t', seed, ToGraph(env.root, native));
  }

  lemma TargetSame(env: Env, t: Tables, env': Env, t': Tables, seed: set<string>, target: string, name: string,
                   qualified: Option<string>)
    requires Alike(env, t, env', t', seed) && target !in seed
    ensures OccurrenceTarget(env, t, target, name, qualified) == OccurrenceTarget(env', t', target, name, qualified)
  {
    assert AlikeAt(env, t, env', t', seed, target);
  }

  lemma SuperSame(env: Env, t: Tables, env': Env, t': Tables, seed: set<string>, sup: Supertype)
    requires Alike(env, t, env', t', seed) && SuperAvoids(env.root, seed, sup)
    ensures SuperTarget(env, t, sup) == SuperTarget(env', t', sup)
  {
    NormalizeSame(env, t, env', t', seed, sup.path);
    assert AlikeAt(env, t, env', t', seed, Normalize(env, sup.path));
  }

  lemma KeptIsAlike(was: Engine, eng: Engine, seed: set<string>)
    requires was.root == eng.root && was.package == eng.package && SymbolsKept(was, eng, seed)
    ensures Alike(EnvOf(was), TablesOf(was), EnvOf(eng), TablesOf(eng), seed)
  {
    forall g
      ensures AlikeAt(EnvOf(was), TablesOf(was), EnvOf(eng), TablesOf(eng), seed, g)
    {
      if g !in seed {
        assert SameSymbols(was, eng, g);
      }
    }
  }

  /** An occurrence that does not touch the seed leads where it led. */
  lemma AvoidingLeadsSame(env: Env, t: Tables, env': Env, t': Tables, seed: set<string>, file: string, occ: Occurrence)
    requires Alike(env, t, env', t', seed) && file !in seed && file in t && file in t'
    requires OccurrenceAvoids(env.root, seed, occ)
    ensures LeadOf(env, t, file, occ) == LeadOf(env', t', file, occ)
  {
    assert AlikeAt(env, t, env', t', seed, file);
    if occ.role == IMPORT_ROLE && occ.targetFile.None? {
      if occ.definition.Some? {
        NormalizeSame(env, t, env', t', seed, occ.definition.value);
        assert AlikeAt(env, t, env', t', seed, Normalize(env, occ.definition.value));
      }
    } else if occ.targetFile.Some? && occ.targetName.Some? {
      NormalizeSame(env, t, env', t', seed, occ.targetFile.value);
      var target := Normalize(env, occ.targetFile.value);
      assert AlikeAt(env, t, env', t', seed, target);
      TargetSame(env, t, env', t', seed, target, occ.targetName.value, occ.targetQualified);
    }
  }

  ghost predicate TouchingClass(root: string, seed: set<string>, facts: Facts, id: string) {
    facts.symbols.Some? && exists s, sup ::
      s in facts.symbols.value && s.id == Some(id) && sup in SupersOf(facts, s) && !SuperAvoids(root, seed, sup)
  }

  lemma AvoidingImportsAgree(was: Engine, eng: Engine, seed: set<string>, f: string, r: Range)
    requires Alike(EnvOf(was), TablesOf(was), EnvOf(eng), TablesOf(eng), seed) && f !in seed
    requires InBoth(was, eng, f) && was.facts[f] == eng.facts[f]
    requires forall o :: o in OccurrencesOf(eng.facts[f]) && o.range == r ==> OccurrenceAvoids(eng.root, seed, o)
    ensures ImportsAgree(was, eng, f, r)
  {
    forall o | o in OccurrencesOf(eng.facts[f]) && o.range == r
      ensures LeadOf(EnvOf(was), TablesOf(was), f, o) == LeadOf(EnvOf(eng), TablesOf(eng), f, o)
    {
      AvoidingLeadsSame(EnvOf(was), TablesOf(was), EnvOf(eng), TablesOf(eng), seed, f, o);
    }
  }

  lemma AvoidingRefersAgree(was: Engine, eng: Engine, seed: set<string>, f: string, r: Range, role: string)
    requires Alike(EnvOf(was), TablesOf(was), EnvOf(eng), TablesOf(eng), seed) && f !in seed
    requires InBoth(was, eng, f) && was.facts[f] == eng.facts[f]
    requires forall o :: o in OccurrencesOf(eng.facts[f]) && o.range == r && o.role == role ==>
               OccurrenceAvoids(eng.root, seed, o)
    ensures RefersAgree(was, eng, f, r, role)
  {
    forall o | o in OccurrencesOf(eng.facts[f]) && o.range == r && o.role == role
      ensures LeadOf(EnvOf(was), TablesOf(was), f, o) == LeadOf(EnvOf(eng), TablesOf(eng), f, o)
    {
      AvoidingLeadsSame(EnvOf(was), TablesOf(was), EnvOf(eng), TablesOf(eng), seed, f, o);
    }
  }

  lemma AvoidingBasesAgree(was: Engine, eng: Engine, seed: set<string>, f: string, id: string)
    requires Alike(EnvOf(was), TablesOf(was), EnvOf(eng), TablesOf(eng), seed)
    requires InBoth(was, eng, f) && was.facts[f] == eng.facts[f] && !TouchingClass(eng.root, seed, eng.facts[f], id)
    ensures BasesAgree(was, eng, f, id)
  {
    var symbols := eng.facts[f].symbols.value;
    forall s, sup | s in symbols && s.id == Some(id) && sup in SupersOf(eng.facts[f], s)
      ensures SuperTarget(EnvOf(was), TablesOf(was), sup) == SuperTarget(EnvOf(eng), TablesOf(eng), sup)
    {
      SuperSame(EnvOf(was), TablesOf(was), EnvOf(eng), TablesOf(eng), seed, sup);
    }
  }

  /** The answers agree wherever the file's facts touch the seed. */
  ghost predicate SameTouching(was: Engine, eng: Engine, seed: set<string>, f: string) {
    InBoth(was, eng, f) ==>
      && (forall o :: o in OccurrencesOf(eng.facts[f]) && !OccurrenceAvoids(eng.root, seed, o) ==>
            ImportsAgree(was, eng, f, o.range) && RefersAgree(was, eng, f, o.range, o.role))
      && (forall id :: TouchingClass(eng.root, seed, eng.facts[f], id) ==> BasesAgree(was, eng, f, id))
  }

  /** When a file keeps its facts and only seed files change existence or symbols, it is
      enough to look at the occurrences and classes that touch the seed. */
  lemma TouchingSuffices(was: Engine, eng: Engine, seed: set<string>, f: string)
    requires was.root == eng.root && was.package == eng.package && SymbolsKept(was, eng, seed) && f !in seed
    requires f in was.facts ==> f in eng.facts && was.facts[f] == eng.facts[f]
    ensures SameAnswers(was, eng, f) <==> SameTouching(was, eng, seed, f)
  {
    KeptIsAlike(was, eng, seed);
    if InBoth(was, eng, f) && SameTouching(was, eng, seed, f) {
      var occs := OccurrencesOf(eng.facts[f]);
      forall r
        ensures ImportsAgree(was, eng, f, r)
      {
        if forall o :: o in occs && o.range == r ==> OccurrenceAvoids(eng.root, seed, o) {
          AvoidingImportsAgree(was, eng, seed, f, r);
        }
      }
      forall r, role
        ensures RefersAgree(was, eng, f, r, role)
      {
        if forall o :: o in occs && o.range == r && o.role == role ==> OccurrenceAvoids(eng.root, seed, o) {
          AvoidingRefersAgree(was, eng, seed, f, r, role);
        }
      }
      forall id
        ensures BasesAgree(was, eng, f, id)
      {
        if !TouchingClass(eng.root, seed, eng.facts[f], id) {
          AvoidingBasesAgree(was, eng, seed, f, id);
        }
      }
    }
  }

  // ---- The scoped rebuild against the full one ------------------------------------------------------

  /** What a commit promises of the engine: only seed files change existence or symbols, and
      the files left alone keep their occurrences and supertypes. */
  ghost predicate Steady(was: Engine, eng: Engine, seed: set<string>, dirty: set<string>) {
    && was.root == eng.root && was.package == eng.package && seed <= dirty
    && SymbolsKept(was, eng, seed)
    && forall f :: f in was.facts && f !in dirty ==> f in eng.facts && was.facts[f] == eng.facts[f]
  }

  /** Wherever a file left alone touches the seed, it leads where it led. */
  ghost predicate Settled(was: Engine, eng: Engine, seed: set<string>, dirty: set<string>) {
    forall f :: f !in dirty ==> SameTouching(was, eng, seed, f)
  }

  lemma SettledIff(was: Project, eng: Project, seed: set<string>, dirty: set<string>)
    requires Steady(was, eng, seed, dirty)
    ensures SymbolsKept(was, eng, dirty)
    ensures ScopedEdges(was, eng, dirty) == FullEdges(eng) <==> Settled(was, eng, seed, dirty)
  {
    forall f | f !in dirty
      ensures SameSymbols(was, eng, f) && (SameAnswers(was, eng, f) <==> SameTouching(was, eng, seed, f))
    {
      assert f !in seed;
      TouchingSuffices(was, eng, seed, f);
    }
    ScopedExactIff(was, eng, dirty);
  }

  lemma ScopedAgreesIff(layer: Layer, prev: Layer, was: Project, eng: Project, dirty: set<string>)
    requires Agrees(prev, was) && SymbolsKept(was, eng, dirty)
    requires Shows(layer, eng) && layer.edges == RebuiltEdges(prev, was, eng, dirty)
    ensures Agrees(layer, eng) <==> forall f :: f !in dirty ==> SameAnswers(was, eng, f)
  {
    RebuiltIsScoped(prev, was, eng, dirty);
    ScopedExactIff(was, eng, dirty);
  }

  /** The scoped rebuild agrees with a full build if and only if every file left alone leads
      where it led; if those files keep their facts, it is enough to look where they touch
      the seed. */
  method RebuildScoped(eng: Project, prev: Layer, seed: set<string>, ghost was: Project) returns (layer: Layer)
    requires Agrees(prev, was) && SymbolsKept(was, eng, Dirty(prev, seed))
    ensures ScopedBuilt(layer, prev, was, eng, Dirty(prev, seed))
    ensures Agrees(layer, eng) <==> forall f :: f !in Dirty(prev, seed) ==> SameAnswers(was, eng, f)
    ensures Steady(was, eng, seed, Dirty(prev, seed)) ==> (Agrees(layer, eng) <==> Settled(was, eng, seed, Dirty(prev, seed)))
  {
    layer := BuildScoped(eng, prev, seed, was);
    ScopedAgreesIff(layer, prev, was, eng, Dirty(prev, seed));
    if Steady(was, eng, seed, Dirty(prev, seed)) {
      SettledIff(was, eng, seed, Dirty(prev, seed));
      RebuiltIsScoped(prev, was, eng, Dirty(prev, seed));
    }
  }

  /** A cold full build followed by any number of scoped rebuilds, each over a steady and
      settled change, ends with the layer of the last engine state. */
  method RebuildRun(engines: seq<Project>, seeds: seq<set<string>>) returns (layer: Layer)
    requires |engines| == |seeds| + 1
    requires forall i, prev :: 0 <= i < |seeds| && Agrees(prev, engines[i]) ==>
               Steady(engines[i], engines[i + 1], seeds[i], Dirty(prev, seeds[i]))
               && Settled(engines[i], engines[i + 1], seeds[i], Dirty(prev, seeds[i]))
    ensures Agrees(layer, engines[|engines| - 1])
  {
    layer := FullBuild(engines[0]);
    for i := 0 to |seeds|
      invariant Agrees(layer, engines[i])
    {
      SettledIff(engines[i], engines[i + 1], seeds[i], Dirty(layer, seeds[i]));
      layer := RebuildScoped(engines[i + 1], layer, seeds[i], engines[i]);
    }
  }

  /** Where no two occurrences share a range, the answers agree at an occurrence exactly when
      it leads to the same nodes. */
  lemma DistinctRangesLead(was: Engine, eng: Engine, f: string, o: Occurrence)
    requires InBoth(was, eng, f) && was.facts[f] == eng.facts[f] && o in OccurrencesOf(eng.facts[f])
    requires forall p :: p in OccurrencesOf(eng.facts[f]) && p.range == o.range ==> p == o
    ensures ImportsAgree(was, eng, f, o.range) && RefersAgree(was, eng, f, o.range, o.role) <==>
            LeadOf(EnvOf(was), TablesOf(was), f, o) == LeadOf(EnvOf(eng), TablesOf(eng), f, o)
  {
    AloneAt(EnvOf(was), TablesOf(was), f, OccurrencesOf(was.facts[f]), o);
    AloneAt(EnvOf(eng), TablesOf(eng), f, OccurrencesOf(eng.facts[f]), o);
    LeadByParts(LeadOf(EnvOf(was), TablesOf(was), f, o), LeadOf(EnvOf(eng), TablesOf(eng), f, o));
  }

  ghost function AsSet(x: Option<NodeId>): set<NodeId> {
    if x.Some? then {x.value} else {}
  }

  lemma LeadByParts(a: Lead, b: Lead)
    ensures AsSet(a.imports) == AsSet(b.imports) && AsSet(a.refers) == AsSet(b.refers) <==> a == b
  {
    assert a.imports.Some? ==> a.imports.value in AsSet(a.imports);
    assert b.imports.Some? ==> b.imports.value in AsSet(b.imports);
    assert a.refers.Some? ==> a.refers.value in AsSet(a.refers);
    assert b.refers.Some? ==> b.refers.value in AsSet(b.refers);
  }

  lemma AloneAt(env: Env, t: Tables, file: string, occs: seq<Occurrence>, o: Occurrence)
    requires file in t && o in occs && forall p :: p in occs && p.range == o.range ==> p == o
    ensures ImportsAt(env, t, file, occs, o.range) == AsSet(LeadOf(env, t, file, o).imports)
    ensures RefersAt(env, t, file, occs, o.range, o.role) == AsSet(LeadOf(env, t, file, o).refers)
  {
  }
}
