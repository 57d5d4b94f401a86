/** Which symbol encloses a position: the narrowest one around it, the first listed of
    equally narrow ones, and the module if there is none. */
module Enclosure {
  import opened Wrappers
  import opened Orders
  import opened CodeLayer
  import opened LayerSpec

  // ---- What enclosing and narrow mean ------------------------------------------------------

  predicate Later(line: nat, column: nat, line': nat, column': nat) {
    line > line' || (line == line' && column > column')
  }

  /** `inner` starts no earlier and ends no later. */
  predicate Surrounds(outer: Range, inner: Range) {
    && !Later(outer.startLine, outer.startColumn, inner.startLine, inner.startColumn)
    && !Later(inner.endLine, inner.endColumn, outer.endLine, outer.endColumn)
  }

  /** Fewer lines or, over as many lines, a smaller end column. */
  predicate Narrower(a: Range, b: Range) {
    var x, y := a.endLine - a.startLine, b.endLine - b.startLine;
    if x == y then a.endColumn < b.endColumn else x < y
  }

  /** The `k`-th listed node is a symbol around the range. */
  ghost predicate Around(ft: FileTable, range: Range, k: nat) {
    k < |ft.ids| && ft.ids[k] in ft.nodes && ft.nodes[ft.ids[k]].kind != "module" && Surrounds(ft.nodes[ft.ids[k]].range, range)
  }

  /** No symbol around the range is narrower, and none listed before is as narrow. */
  ghost predicate InnermostAt(ft: FileTable, range: Range, k: nat) {
    Around(ft, range, k) && forall j: nat :: Around(ft, range, j) ==>
      var here, there := ft.nodes[ft.ids[k]].range, ft.nodes[ft.ids[j]].range;
      !Narrower(there, here) && (j < k ==> Narrower(here, there))
  }

  ghost predicate Innermost(file: string, ft: FileTable, range: Range, x: NodeId) {
    if exists k: nat :: Around(ft, range, k) then exists k: nat :: InnermostAt(ft, range, k) && ft.ids[k] == x
    else x == ModuleId(file)
  }

  // ---- The first enclosing span of a sorted list ----------------------------------------------

  ghost predicate Orderly(t: seq<Span>) {
    forall i, j :: 0 <= i < j < |t| ==> !SpanBefore(t[j], t[i])
  }

  ghost function FirstSpan(t: seq<Span>, range: Range): Option<Span> {
    if t == [] then None else if Surrounds(t[0].range, range) then Some(t[0]) else FirstSpan(t[1..], range)
  }

  lemma {:induction false} FirstSpanIsFirst(t: seq<Span>, range: Range)
    ensures FirstEnclosing(t, range) == (match FirstSpan(t, range) case None => None case Some(s) => Some(s.id))
    ensures FirstSpan(t, range).Some? ==> FirstSpan(t, range).value in t && Surrounds(FirstSpan(t, range).value.range, range)
  {
    if t != [] {
      FirstSpanIsFirst(t[1..], range);
    }
  }

  /** Placing a span puts it in front of the first one exactly if that is not before it. */
  lemma {:induction false} PlaceFirst(x: Span, t: seq<Span>, range: Range)
    requires Orderly(t)
    ensures var f := FirstSpan(t, range);
            FirstSpan(Place(x, t, SpanBefore), range) ==
            if Surrounds(x.range, range) && (f.None? || !SpanBefore(f.value, x)) then Some(x) else f
  {
    var p := Place(x, t, SpanBefore);
    if t == [] || !SpanBefore(t[0], x) {
      assert p[1..] == t;
      FirstSpanIsFirst(t, range);
    } else {
      assert Orderly(t[1..]);
      PlaceFirst(x, t[1..], range);
      assert p[1..] == Place(x, t[1..], SpanBefore);
    }
  }

  lemma {:induction false} PlaceOrderly(x: Span, t: seq<Span>)
    requires Orderly(t)
    ensures Orderly(Place(x, t, SpanBefore)) && forall s :: s in Place(x, t, SpanBefore) ==> s == x || s in t
  {
    var p := Place(x, t, SpanBefore);
    if t != [] && SpanBefore(t[0], x) {
      assert Orderly(t[1..]);
      PlaceOrderly(x, t[1..]);
      assert p[1..] == Place(x, t[1..], SpanBefore);
      forall i, j | 0 <= i < j < |p|
        ensures !SpanBefore(p[j], p[i])
      {
        if i == 0 {
          assert p[j] == p[1..][j - 1];
          assert p[j] in Place(x, t[1..], SpanBefore);
        }
      }
    }
  }

  lemma {:induction false} SortOrderly(s: seq<Span>)
    ensures Orderly(Sort(s, SpanBefore))
  {
    if s != [] {
      SortOrderly(s[1..]);
      PlaceOrderly(s[0], Sort(s[1..], SpanBefore));
    }
  }

  /** Position `i` holds the narrowest span around the range, the first of its width. */
  ghost predicate BestAt(s: seq<Span>, range: Range, i: nat) {
    && i < |s| && Surrounds(s[i].range, range)
    && forall j :: 0 <= j < |s| && Surrounds(s[j].range, range) ==>
         !Narrower(s[j].range, s[i].range) && (j < i ==> Narrower(s[i].range, s[j].range))
  }

  lemma {:induction false} SortedFirst(s: seq<Span>, range: Range)
    ensures match FirstSpan(Sort(s, SpanBefore), range)
            case None => forall j :: 0 <= j < |s| ==> !Surrounds(s[j].range, range)
            case Some(x) => exists i: nat :: BestAt(s, range, i) && s[i] == x
  {
    if s != [] {
      SortedFirst(s[1..], range);
      SortOrderly(s[1..]);
      PlaceFirst(s[0], Sort(s[1..], SpanBefore), range);
      BestOneMore(s, range, FirstSpan(Sort(s[1..], SpanBefore), range));
    }
  }

  lemma BestOneMore(s: seq<Span>, range: Range, f: Option<Span>)
    requires s != []
    requires match f
             case None => forall j :: 0 <= j < |s[1..]| ==> !Surrounds(s[1..][j].range, range)
             case Some(x) => exists i: nat :: BestAt(s[1..], range, i) && s[1..][i] == x
    ensures var best := if Surrounds(s[0].range, range) && (f.None? || !SpanBefore(f.value, s[0])) then Some(s[0]) else f;
            match best
            case None => forall j :: 0 <= j < |s| ==> !Surrounds(s[j].range, range)
            case Some(x) => exists i: nat :: BestAt(s, range, i) && s[i] == x
  {
    assert forall j :: 0 < j < |s| ==> s[j] == s[1..][j - 1];
    if f.Some? {
      var i: nat :| BestAt(s[1..], range, i) && s[1..][i] == f.value;
      if Surrounds(s[0].range, range) && !SpanBefore(f.value, s[0]) {
        assert BestAt(s, range, 0);
      } else {
        assert BestAt(s, range, i + 1);
      }
    } else if Surrounds(s[0].range, range) {
      assert BestAt(s, range, 0);
    }
  }

  // ---- Spans are the listed symbols -------------------------------------------------------------

  ghost predicate SymbolAt(ids: seq<NodeId>, nodes: map<NodeId, Node>, k: nat) {
    k < |ids| && ids[k] in nodes && nodes[ids[k]].kind != "module"
  }

  ghost predicate SpanAt(ids: seq<NodeId>, nodes: map<NodeId, Node>, k: nat, s: Span) {
    SymbolAt(ids, nodes, k) && s == Span(nodes[ids[k]].range, ids[k])
  }

  ghost predicate Positions(ids: seq<NodeId>, nodes: map<NodeId, Node>, spans: seq<Span>, pos: seq<nat>) {
    && |pos| == |spans|
    && (forall i, j :: 0 <= i < j < |pos| ==> pos[i] < pos[j])
    && (forall i :: 0 <= i < |pos| ==> SpanAt(ids, nodes, pos[i], spans[i]))
    && (forall k: nat :: SymbolAt(ids, nodes, k) ==> k in pos)
  }

  lemma {:induction false} SpanPositions(ids: seq<NodeId>, nodes: map<NodeId, Node>) returns (pos: seq<nat>)
    ensures Positions(ids, nodes, Spans(ids, nodes), pos)
  {
    if ids == [] {
      pos := [];
    } else {
      var n := |ids| - 1;
      var before := SpanPositions(ids[..n], nodes);
      pos := PositionsNext(ids, nodes, Spans(ids[..n], nodes), before);
    }
  }

  lemma PositionsNext(ids: seq<NodeId>, nodes: map<NodeId, Node>, spans: seq<Span>, before: seq<nat>) returns (pos: seq<nat>)
    requires ids != [] && Positions(ids[..|ids| - 1], nodes, spans, before)
    ensures var last := ids[|ids| - 1];
            Positions(ids, nodes, spans + if last in nodes && nodes[last].kind != "module" then [Span(nodes[last].range, last)] else [],
                      pos)
  {
    var n := |ids| - 1;
    forall k: nat | k < n
      ensures SymbolAt(ids, nodes, k) <==> SymbolAt(ids[..n], nodes, k)
      ensures forall s :: SpanAt(ids, nodes, k, s) <==> SpanAt(ids[..n], nodes, k, s)
    {
    }
    pos := before;
    if SymbolAt(ids, nodes, n) {
      pos := before + [n];
    }
    forall k: nat | SymbolAt(ids, nodes, k)
      ensures k in pos
    {
      assert k < n ==> k in before;
    }
    assert forall i :: 0 <= i < |before| ==> before[i] < n;
  }

  /** The enclosing symbol is the innermost one, whatever the order it was looked for in. */
  lemma EnclosingMeans(file: string, ft: FileTable, range: Range)
    ensures Innermost(file, ft, range, Enclosing(file, ft, range))
  {
    var spans := Spans(ft.ids, ft.nodes);
    var pos := SpanPositions(ft.ids, ft.nodes);
    FirstSpanIsFirst(RangeCache(ft.ids, ft.nodes), range);
    SortedFirst(spans, range);
    match FirstSpan(RangeCache(ft.ids, ft.nodes), range)
    case None => NothingAround(ft, range, pos);
    case Some(x) =>
      var i: nat :| BestAt(spans, range, i) && spans[i] == x;
      BestIsInnermost(ft, range, pos, i);
  }

  lemma NothingAround(ft: FileTable, range: Range, pos: seq<nat>)
    requires Positions(ft.ids, ft.nodes, Spans(ft.ids, ft.nodes), pos)
    requires forall j :: 0 <= j < |Spans(ft.ids, ft.nodes)| ==> !Surrounds(Spans(ft.ids, ft.nodes)[j].range, range)
    ensures forall k: nat :: !Around(ft, range, k)
  {
    assert forall i :: 0 <= i < |pos| ==> !Around(ft, range, pos[i]);
    assert forall k: nat :: Around(ft, range, k) ==> SymbolAt(ft.ids, ft.nodes, k);
  }

  lemma BestIsInnermost(ft: FileTable, range: Range, pos: seq<nat>, i: nat)
    requires Positions(ft.ids, ft.nodes, Spans(ft.ids, ft.nodes), pos) && BestAt(Spans(ft.ids, ft.nodes), range, i)
    ensures InnermostAt(ft, range, pos[i]) && ft.ids[pos[i]] == Spans(ft.ids, ft.nodes)[i].id
  {
    forall k: nat | Around(ft, range, k)
      ensures var here, there := ft.nodes[ft.ids[pos[i]]].range, ft.nodes[ft.ids[k]].range;
              !Narrower(there, here) && (k < pos[i] ==> Narrower(here, there))
    {
      assert SymbolAt(ft.ids, ft.nodes, k);
      var j :| 0 <= j < |pos| && pos[j] == k;
      assert Spans(ft.ids, ft.nodes)[j].range == ft.nodes[ft.ids[k]].range;
    }
  }
}
