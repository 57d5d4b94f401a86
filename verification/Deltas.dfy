/** Deltas and interests: what a committed revision announces, what a subscriber asks for,
    and which slice of a delta it is offered. */
module Deltas {
  import opened Wrappers
  import opened CodeLayer

  /** The id-level result of one successful commit. */
  datatype CommitDelta = CommitDelta(
    revision: nat,
    created: set<NodeId>,
    changed: set<NodeId>,
    deleted: set<NodeId>,
    moved: set<NodeId>,
    authored: set<NodeId>,
    affected: set<NodeId>,
    touchedFiles: set<string>,
    affectedFiles: set<string>,
    rescan: bool)

  datatype Delta = Delta(
    revision: nat,
    created: set<NodeId>,
    changed: set<NodeId>,
    deleted: set<NodeId>,
    moved: set<NodeId>,
    authored: set<NodeId>,
    affected: set<NodeId>,
    rescan: bool,
    files: set<string>,
    layers: set<string>)

  datatype Interest = Interest(files: set<string>, ids: set<NodeId>, layers: set<string>, all: bool)

  function LayersTouched(d: CommitDelta): set<string> {
    (if d.created != {} || d.changed != {} || d.deleted != {} || d.moved != {} || d.rescan then {"code"} else {})
    + if d.authored != {} then {"authored"} else {}
  }

  /** Projects a commit for delivery; `extra` names the specific authored layer. */
  function FromCommitDelta(d: CommitDelta, extra: set<string>): Delta {
    Delta(d.revision, d.created, d.changed, d.deleted, d.moved, d.authored, d.affected, d.rescan,
          d.touchedFiles + d.affectedFiles, LayersTouched(d) + extra)
  }

  function Either(a: Interest, b: Interest): Interest {
    Interest(a.files + b.files, a.ids + b.ids, a.layers + b.layers, a.all || b.all)
  }

  predicate Matches(i: Interest, affected: set<NodeId>, files: set<string>, layers: set<string>) {
    i.all || i.ids * affected != {} || i.files * files != {} || i.layers * layers != {}
  }

  function Within(ids: set<NodeId>, i: Interest): set<NodeId> {
    if i.ids != {} then ids * i.ids else ids
  }

  function ScopedTo(d: Delta, i: Interest): Delta {
    if d.rescan || i.all then d
    else
      Delta(d.revision, Within(d.created, i), Within(d.changed, i), Within(d.deleted, i), Within(d.moved, i),
            Within(d.authored, i), Within(d.affected, i), d.rescan,
            if i.files != {} then d.files * i.files else d.files,
            if i.layers != {} then d.layers * i.layers else d.layers)
  }

  function TouchedIds(d: Delta): set<NodeId> {
    d.created + d.changed + d.deleted + d.moved + d.authored + d.affected
  }

  predicate IsEmpty(d: Delta) {
    d.created == {} && d.changed == {} && d.deleted == {} && d.moved == {} && d.authored == {} && d.affected == {}
  }

  /** What `publish` offers a subscriber, if anything. */
  function Offered(i: Interest, d: Delta): Option<Delta> {
    if i.all || d.rescan then Some(ScopedTo(d, i))
    else if Matches(i, d.affected, d.files, d.layers) && !IsEmpty(ScopedTo(d, i)) then Some(ScopedTo(d, i))
    else None
  }

  // ---- What is offered -----------------------------------------------------------------

  lemma MatchesEither(a: Interest, b: Interest, affected: set<NodeId>, files: set<string>, layers: set<string>)
    ensures Matches(Either(a, b), affected, files, layers) <==>
            Matches(a, affected, files, layers) || Matches(b, affected, files, layers)
  {
    assert (a.ids + b.ids) * affected == a.ids * affected + b.ids * affected;
    assert (a.files + b.files) * files == a.files * files + b.files * files;
    assert (a.layers + b.layers) * layers == a.layers * layers + b.layers * layers;
  }

  /** The id was asked for, or nothing particular was. */
  ghost predicate Wanted(i: Interest, x: NodeId) {
    i.ids == {} || x in i.ids
  }

  ghost predicate Touches(d: Delta, x: NodeId) {
    x in d.created || x in d.changed || x in d.deleted || x in d.moved || x in d.authored || x in d.affected
  }

  /** Some id asked for is affected, or some file or layer asked for is touched. */
  ghost predicate Concerns(d: Delta, i: Interest) {
    || (exists x :: x in i.ids && x in d.affected)
    || (exists f :: f in i.files && f in d.files)
    || (exists l :: l in i.layers && l in d.layers)
  }

  /** A delta is offered to whoever wants everything, to everyone if it is a rescan, and
      otherwise to those it concerns, provided that it touches an id they want. */
  lemma OfferedIff(i: Interest, d: Delta)
    ensures Offered(i, d).Some? <==> i.all || d.rescan || (Concerns(d, i) && exists x :: Touches(d, x) && Wanted(i, x))
  {
    assert (exists x :: x in i.ids && x in d.affected) <==> i.ids * d.affected != {} by {
      assert forall x :: x in i.ids * d.affected <==> x in i.ids && x in d.affected;
    }
    assert (exists f :: f in i.files && f in d.files) <==> i.files * d.files != {} by {
      assert forall f :: f in i.files * d.files <==> f in i.files && f in d.files;
    }
    assert (exists l :: l in i.layers && l in d.layers) <==> i.layers * d.layers != {} by {
      assert forall l :: l in i.layers * d.layers <==> l in i.layers && l in d.layers;
    }
    if !i.all && !d.rescan {
      ScopedIsEmptyIff(i, d);
      assert forall x :: x in Within(TouchedIds(d), i) <==> Touches(d, x) && Wanted(i, x);
    }
  }

  /** What is offered is the delta cut down to the ids, files and layers asked for, with its
      revision and flag; whoever wants everything, and everyone in a rescan, gets it whole. */
  lemma OfferedSlice(i: Interest, d: Delta, x: NodeId, name: string)
    requires Offered(i, d).Some?
    ensures var o := Offered(i, d).value; var whole := i.all || d.rescan;
            && o.revision == d.revision && o.rescan == d.rescan
            && (x in o.created <==> x in d.created && (whole || Wanted(i, x)))
            && (x in o.changed <==> x in d.changed && (whole || Wanted(i, x)))
            && (x in o.deleted <==> x in d.deleted && (whole || Wanted(i, x)))
            && (x in o.moved <==> x in d.moved && (whole || Wanted(i, x)))
            && (x in o.authored <==> x in d.authored && (whole || Wanted(i, x)))
            && (x in o.affected <==> x in d.affected && (whole || Wanted(i, x)))
            && (name in o.files <==> name in d.files && (whole || i.files == {} || name in i.files))
            && (name in o.layers <==> name in d.layers && (whole || i.layers == {} || name in i.layers))
  {
  }

  /** The same of a commit: each set of the commit reaches the subscriber as that set. */
  lemma CommitSlice(i: Interest, d: CommitDelta, extra: set<string>, x: NodeId, file: string)
    requires Offered(i, FromCommitDelta(d, extra)).Some?
    ensures var o := Offered(i, FromCommitDelta(d, extra)).value; var whole := i.all || d.rescan;
            && o.revision == d.revision && o.rescan == d.rescan
            && (x in o.created <==> x in d.created && (whole || Wanted(i, x)))
            && (x in o.changed <==> x in d.changed && (whole || Wanted(i, x)))
            && (x in o.deleted <==> x in d.deleted && (whole || Wanted(i, x)))
            && (x in o.moved <==> x in d.moved && (whole || Wanted(i, x)))
            && (x in o.authored <==> x in d.authored && (whole || Wanted(i, x)))
            && (x in o.affected <==> x in d.affected && (whole || Wanted(i, x)))
            && (file in o.files <==>
                  (file in d.touchedFiles || file in d.affectedFiles) && (whole || i.files == {} || file in i.files))
  {
    OfferedSlice(i, FromCommitDelta(d, extra), x, file);
  }

  /** Whoever asks for the code layer alone hears of every commit that creates, changes,
      deletes or moves an entity or calls for a rescan, and of no other. */
  lemma CodeInterestOfferedIff(c: CommitDelta)
    ensures Offered(Interest({}, {}, {"code"}, false), FromCommitDelta(c, {})).Some? <==>
            c.created != {} || c.changed != {} || c.deleted != {} || c.moved != {} || c.rescan
  {
    var i, d := Interest({}, {}, {"code"}, false), FromCommitDelta(c, {});
    OfferedIff(i, d);
    var touched := c.created + c.changed + c.deleted + c.moved;
    if touched != {} {
      var x :| x in touched;
      assert "code" in d.layers && Touches(d, x) && Wanted(i, x);
    }
  }

  /** Whoever asks for the authored layer alone hears of exactly the authored writes. */
  lemma AuthoredInterestOfferedIff(c: CommitDelta)
    requires !c.rescan
    ensures Offered(Interest({}, {}, {"authored"}, false), FromCommitDelta(c, {})).Some? <==> c.authored != {}
  {
    var i, d := Interest({}, {}, {"authored"}, false), FromCommitDelta(c, {});
    OfferedIff(i, d);
    if c.authored != {} {
      var x :| x in c.authored;
      assert "authored" in d.layers && Touches(d, x) && Wanted(i, x);
    }
    assert "code" != "authored";
  }

  /** Whoever asks for one file hears of every commit that touches an id and that touches the
      file or affects a node in it, and of every rescan. */
  lemma FileInterestOfferedIff(c: CommitDelta, file: string)
    ensures Offered(Interest({file}, {}, {}, false), FromCommitDelta(c, {})).Some? <==>
            c.rescan || ((file in c.touchedFiles || file in c.affectedFiles)
                         && c.created + c.changed + c.deleted + c.moved + c.authored + c.affected != {})
  {
    var i, d := Interest({file}, {}, {}, false), FromCommitDelta(c, {});
    OfferedIff(i, d);
    assert file in i.files;
    var touched := c.created + c.changed + c.deleted + c.moved + c.authored + c.affected;
    assert forall x :: x in touched <==> Touches(d, x);
    if touched != {} {
      var x :| x in touched;
      assert Touches(d, x) && Wanted(i, x);
    }
  }

  lemma ScopedIsEmptyIff(i: Interest, d: Delta)
    requires !i.all && !d.rescan
    ensures IsEmpty(ScopedTo(d, i)) <==> Within(TouchedIds(d), i) == {}
  {
    if i.ids != {} {
      assert TouchedIds(d) * i.ids ==
             d.created * i.ids + d.changed * i.ids + d.deleted * i.ids + d.moved * i.ids + d.authored * i.ids + d.affected * i.ids;
    }
  }

  /** Widening an interest keeps a delivery unless the widened interest filters by ids and
      the delta touches none of them: a file subscriber that also asks for an id no longer
      hears of other ids in its files. */
  lemma WideningKeepsDeliveryIff(a: Interest, b: Interest, d: Delta)
    requires Offered(a, d).Some?
    ensures Offered(Either(a, b), d).Some? <==>
            d.rescan || a.all || b.all || a.ids + b.ids == {} || TouchedIds(d) * (a.ids + b.ids) != {}
  {
    var i := Either(a, b);
    if !d.rescan && !i.all {
      MatchesEither(a, b, d.affected, d.files, d.layers);
      ScopedIsEmptyIff(i, d);
      ScopedIsEmptyIff(a, d);
    }
  }

  lemma FileInterestIsLost()
    ensures exists a, b, d :: Offered(a, d).Some? && Offered(Either(a, b), d).None?
  {
    var a, b := Interest({"m.py"}, {}, {}, false), Interest({}, {EntityId("x")}, {}, false);
    var y := {EntityId("y")};
    var d := Delta(1, {}, y, {}, {}, {}, y, false, {"m.py"}, {"code"});
    assert "m.py" in a.files * d.files;
    assert Offered(a, d).Some? by {
      ScopedIsEmptyIff(a, d);
      assert EntityId("y") in TouchedIds(d);
    }
    WideningKeepsDeliveryIff(a, b, d);
    assert TouchedIds(d) * (a.ids + b.ids) == {};
  }

  /** An interest in ids alone is offered a scoped revision exactly when an id it asked
      for is affected: ids only created, moved or authored do not wake it. */
  lemma IdInterestOfferedIff(i: Interest, d: Delta)
    requires !i.all && i.files == {} && i.layers == {} && !d.rescan
    ensures Offered(i, d).Some? <==> i.ids * d.affected != {}
  {
    if i.ids * d.affected != {} {
      var x :| x in i.ids * d.affected;
      assert x in ScopedTo(d, i).affected;
    }
  }

  ghost predicate InterestedOnly(i: Interest, d: Delta) {
    d.rescan || TouchedIds(d) <= i.ids
  }

  lemma OfferIsScoped(i: Interest, d: Delta)
    requires i.ids != {} && !i.all && Offered(i, d).Some?
    ensures InterestedOnly(i, Offered(i, d).value)
  {
  }

  /** An affected id that was asked for is in what is offered. */
  lemma AffectedIsOffered(i: Interest, d: Delta, x: NodeId)
    requires x in i.ids && x in d.affected
    ensures Offered(i, d).Some? && x in Offered(i, d).value.affected
  {
    if !i.all && !d.rescan {
      assert x in i.ids * d.affected;
      assert x in ScopedTo(d, i).affected;
    }
  }

  // ---- Coalescing ---------------------------------------------------------------------------

  function Merge(tail: Delta, incoming: Delta): Delta {
    Delta(if tail.revision < incoming.revision then incoming.revision else tail.revision,
          tail.created + incoming.created, tail.changed + incoming.changed, tail.deleted + incoming.deleted,
          tail.moved + incoming.moved, tail.authored + incoming.authored, tail.affected + incoming.affected,
          tail.rescan || incoming.rescan, tail.files + incoming.files, tail.layers + incoming.layers)
  }
}
