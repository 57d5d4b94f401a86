/** Layers whose files were derived at different times: after any number of scoped rebuilds
    each file's edges are those of the engine state from which it was last derived. */
module Patchwork {
  import opened Wrappers
  import opened CodeLayer
  import opened LayerSpec
  import opened NodeLists
  import opened Builder
  import opened Rebuild
  import opened Scoped

  /** For each file, the engine state from which its edges were last derived. */
  type Origins = string -> Project

  /** Each file still has the symbols that it was derived with. */
  ghost predicate Fits(origin: Origins, eng: Engine) {
    forall f :: SameSymbols(origin(f), eng, f)
  }

  ghost function PatchEdges(origin: Origins, files: set<string>): set<Edge> {
    Gather(files, f => Given(origin(f), f))
  }

  /** The nodes are those of `eng` and the edges are pieced together. */
  ghost predicate Patched(layer: Layer, eng: Engine, origin: Origins) {
    Shows(layer, eng) && Fits(origin, eng) && layer.edges == PatchEdges(origin, eng.facts.Keys)
  }

  ghost function Rederived(origin: Origins, dirty: set<string>, eng: Project): Origins {
    f => if f in dirty then eng else origin(f)
  }

  ghost function Wholly(eng: Project): Origins {
    f => eng
  }

  lemma WhollyFits(eng: Project)
    ensures Fits(Wholly(eng), eng)
  {
    forall f
      ensures SameSymbols(Wholly(eng)(f), eng, f)
    {
      assert Wholly(eng)(f) == eng;
    }
  }

  lemma PieceOf(origin: Origins, files: set<string>, f: string, e: Edge)
    requires f in files && e in Given(origin(f), f)
    ensures e in PatchEdges(origin, files)
  {
    var part := f => Given(origin(f), f);
    assert e in part(f);
  }

  lemma PieceFrom(origin: Origins, files: set<string>, e: Edge) returns (f: string)
    requires e in PatchEdges(origin, files)
    ensures f in files && e in Given(origin(f), f)
  {
    f :| f in files && e in Given(origin(f), f);
  }

  /** If every piece is current, the pieces are the full edges. */
  lemma CurrentPieces(origin: Origins, eng: Project)
    requires forall f :: Given(origin(f), f) == Given(eng, f)
    ensures PatchEdges(origin, eng.facts.Keys) == FullEdges(eng)
  {
    FullIsContributions(eng);
    GatherSame(eng.facts.Keys, f => Given(origin(f), f), f => Given(eng, f));
  }

  lemma GatherSame(files: set<string>, a: string -> set<Edge>, b: string -> set<Edge>)
    requires forall f :: a(f) == b(f)
    ensures Gather(files, a) == Gather(files, b)
  {
  }

  lemma WholePieces(eng: Project, files: set<string>)
    ensures PatchEdges(Wholly(eng), files) == Contributions(eng, files)
  {
    var origin := Wholly(eng);
    forall f
      ensures Given(origin(f), f) == Given(eng, f)
    {
      assert origin(f) == eng;
    }
    GatherSame(files, f => Given(origin(f), f), f => Given(eng, f));
  }

  /** A layer that agrees with an engine state was derived from it throughout. */
  lemma AgreeingIsPatched(layer: Layer, eng: Project)
    requires Agrees(layer, eng)
    ensures Patched(layer, eng, Wholly(eng))
  {
    FullIsContributions(eng);
    WholePieces(eng, eng.facts.Keys);
    WhollyFits(eng);
  }

  /** Each piece starts at a node of its own file. */
  lemma PieceIsHeld(origin: Origins, eng: Project, f: string, e: Edge)
    requires Fits(origin, eng) && e in Given(origin(f), f)
    ensures f in TablesOf(eng) && e.source in TablesOf(eng)[f].nodes
  {
    SourceIsHeld(origin(f), f, e);
    assert SameSymbols(origin(f), eng, f);
  }

  lemma PieceOwner(origin: Origins, eng: Project, f: string, g: string, e: Edge)
    requires Fits(origin, eng) && e in Given(origin(f), f) && g in TablesOf(eng) && e.source in TablesOf(eng)[g].nodes
    ensures f == g
  {
    PieceIsHeld(origin, eng, f, e);
    WellFormedTables(eng);
    OnlyOwner(TablesOf(eng), f, g, e.source);
  }

  // ---- What a scoped rebuild does to the pieces --------------------------------------------

  /** A piece survives eviction exactly when its file is not dirty. */
  lemma CarriedEdge(origin: Origins, was: Project, dirty: set<string>, f: string, e: Edge)
    requires Fits(origin, was) && e in Given(origin(f), f)
    ensures (forall g :: g in dirty && g in TablesOf(was) ==> e.source !in TablesOf(was)[g].nodes) <==> f !in dirty
  {
    PieceIsHeld(origin, was, f, e);
    forall g | g in dirty && g in TablesOf(was) && e.source in TablesOf(was)[g].nodes
      ensures f == g
    {
      PieceOwner(origin, was, f, g, e);
    }
  }

  /** Evicting the dirty files leaves exactly the pieces of the others. */
  lemma CarriedEdges(origin: Origins, was: Project, dirty: set<string>)
    requires Fits(origin, was)
    ensures EdgesOutside(PatchEdges(origin, was.facts.Keys), TablesOf(was), dirty) == PatchEdges(origin, was.facts.Keys - dirty)
  {
    var before := EdgesOutside(PatchEdges(origin, was.facts.Keys), TablesOf(was), dirty);
    var after := PatchEdges(origin, was.facts.Keys - dirty);
    forall e | e in before
      ensures e in after
    {
      var f := PieceFrom(origin, was.facts.Keys, e);
      CarriedEdge(origin, was, dirty, f, e);
      PieceOf(origin, was.facts.Keys - dirty, f, e);
    }
    forall e | e in after
      ensures e in before
    {
      var f := PieceFrom(origin, was.facts.Keys - dirty, e);
      CarriedEdge(origin, was, dirty, f, e);
      PieceOf(origin, was.facts.Keys, f, e);
    }
  }

  lemma RederivedFits(origin: Origins, was: Engine, eng: Project, dirty: set<string>)
    requires Fits(origin, was) && SymbolsKept(was, eng, dirty)
    ensures Fits(Rederived(origin, dirty, eng), eng)
  {
    forall f
      ensures SameSymbols(Rederived(origin, dirty, eng)(f), eng, f)
    {
      assert SameSymbols(origin(f), was, f);
      assert f !in dirty ==> SameSymbols(was, eng, f);
    }
  }

  /** The pieces of the other files, and the dirty files derived anew. */
  lemma RederivedEdges(origin: Origins, was: Engine, eng: Project, dirty: set<string>)
    requires SymbolsKept(was, eng, dirty)
    ensures PatchEdges(origin, was.facts.Keys - dirty) + Contributions(eng, dirty) ==
            PatchEdges(Rederived(origin, dirty, eng), eng.facts.Keys)
  {
    var origin' := Rederived(origin, dirty, eng);
    forall e | e in PatchEdges(origin, was.facts.Keys - dirty)
      ensures e in PatchEdges(origin', eng.facts.Keys)
    {
      var f := PieceFrom(origin, was.facts.Keys - dirty, e);
      assert SameSymbols(was, eng, f);
      PieceOf(origin', eng.facts.Keys, f, e);
    }
    forall e | e in Contributions(eng, dirty)
      ensures e in PatchEdges(origin', eng.facts.Keys)
    {
      var f := Contributor(eng, dirty, e);
      PieceOf(origin', eng.facts.Keys, f, e);
    }
    forall e | e in PatchEdges(origin', eng.facts.Keys)
      ensures e in PatchEdges(origin, was.facts.Keys - dirty) + Contributions(eng, dirty)
    {
      var f := PieceFrom(origin', eng.facts.Keys, e);
      if f in dirty {
        Contributed(eng, dirty, f, e);
      } else {
        assert SameSymbols(was, eng, f);
        PieceOf(origin, was.facts.Keys - dirty, f, e);
      }
    }
  }

  /** A scoped rebuild of a patchwork is the patchwork with the dirty files derived anew. */
  lemma RebuildPatches(layer: Layer, prev: Layer, was: Project, eng: Project, origin: Origins, dirty: set<string>)
    requires Patched(prev, was, origin) && SymbolsKept(was, eng, dirty)
    requires Shows(layer, eng) && layer.edges == RebuiltEdges(prev, was, eng, dirty)
    ensures Patched(layer, eng, Rederived(origin, dirty, eng))
  {
    CarriedEdges(origin, was, dirty);
    RederivedFits(origin, was, eng, dirty);
    RederivedEdges(origin, was, eng, dirty);
  }

  // ---- When a patchwork is a full build ------------------------------------------------------

  lemma SamePieces(origin: Origins, eng: Project, f: string)
    requires Fits(origin, eng) && PatchEdges(origin, eng.facts.Keys) == FullEdges(eng)
    ensures Given(origin(f), f) == Given(eng, f)
  {
    FullIsContributions(eng);
    assert SameSymbols(origin(f), eng, f);
    forall e | e in Given(origin(f), f)
      ensures e in Given(eng, f)
    {
      PieceIsHeld(origin, eng, f, e);
      PieceOf(origin, eng.facts.Keys, f, e);
      var g := Contributor(eng, eng.facts.Keys, e);
      SourceIsHeld(eng, g, e);
      PieceOwner(origin, eng, f, g, e);
    }
    forall e | e in Given(eng, f)
      ensures e in Given(origin(f), f)
    {
      SourceIsHeld(eng, f, e);
      Contributed(eng, eng.facts.Keys, f, e);
      var g := PieceFrom(origin, eng.facts.Keys, e);
      PieceOwner(origin, eng, g, f, e);
    }
  }

  /** A patchwork has the edges of a full build if and only if every piece is what its file
      contributes now. */
  lemma PatchExactIff(origin: Origins, eng: Project)
    requires Fits(origin, eng)
    ensures PatchEdges(origin, eng.facts.Keys) == FullEdges(eng) <==> forall f :: Given(origin(f), f) == Given(eng, f)
  {
    if PatchEdges(origin, eng.facts.Keys) == FullEdges(eng) {
      forall f
        ensures Given(origin(f), f) == Given(eng, f)
      {
        SamePieces(origin, eng, f);
      }
    }
    if forall f :: Given(origin(f), f) == Given(eng, f) {
      CurrentPieces(origin, eng);
    }
  }
}
