/** What a full build of the code layer means, file by file: the nodes a file
    materialises, the names it answers to, and the edges it contributes. */
module LayerSpec {
  import opened Wrappers
  import opened Orders
  import opened CodeLayer

  const MODULE_NAME := "<module>"
  const EXTERNAL_FILE := "<external>"
  const CLASS_KIND := "class_"
  const MODULE_KIND := "module"
  const IMPORT_ROLE := "import"
  const UNKNOWN := "unknown"

  // ---- What the analysis engine reports ------------------------------------------

  datatype Symbol = Symbol(
    name: string,
    qualifiedName: Option<string>,
    kind: string,
    container: Option<string>,
    id: Option<string>,
    range: Range,
    selection: Option<Range>,
    contentHash: Option<string>,
    contentHashes: map<string, string>)

  /** `definition` is where navigation leads for an import without a resolved target. */
  datatype Occurrence = Occurrence(
    role: string,
    targetFile: Option<string>,
    targetName: Option<string>,
    targetQualified: Option<string>,
    range: Range,
    definition: Option<string>)

  datatype Supertype = Supertype(path: string, name: string)

  /** The engine's answers for one file; `None` stands for an analysis error. */
  datatype Facts = Facts(
    symbols: Option<seq<Symbol>>,
    occurrences: Option<seq<Occurrence>>,
    supertypes: map<(nat, nat), seq<Supertype>>)

  /** The engine at one revision: the project root, package inference for off-project
      paths, and the facts of every project file, by project-relative path. */
  datatype Engine = Engine(root: string, package: string -> Option<string>, facts: map<string, Facts>)

  // ---- Nodes of a file -----------------------------------------------------------------

  /** A file's nodes: their ids in document order, module first, and the nodes by id. */
  datatype FileTable = FileTable(ids: seq<NodeId>, nodes: map<NodeId, Node>)

  const MODULE_RANGE := Range(1, 1, 1, 1)

  /** What follows the last slash of `file[..n]`. */
  function BaseFrom(file: string, n: nat): string
    requires n <= |file|
  {
    if n == 0 then file else if file[n - 1] == '/' then file[n..] else BaseFrom(file, n - 1)
  }

  /** Cuts `base[..n]` before its last dot, unless that would leave nothing. */
  function CutExtension(base: string, n: nat): string
    requires n <= |base|
  {
    if n == 0 then base
    else if base[n - 1] == '.' then (if n > 1 then base[..n - 1] else base)
    else CutExtension(base, n - 1)
  }

  /** The file name without its directory and last extension. */
  function Stem(file: string): string {
    var base := BaseFrom(file, |file|);
    CutExtension(base, |base|)
  }

  function ModuleNode(file: string): Node {
    Node(Stem(file), MODULE_NAME, MODULE_KIND, file, MODULE_RANGE, None, None, map[], false, None)
  }

  function QualifiedName(s: Symbol): string {
    if s.qualifiedName.Some? then s.qualifiedName.value else s.name
  }

  function SymbolNode(file: string, s: Symbol): Node {
    Node(s.name, QualifiedName(s), s.kind, file, s.range, s.selection, s.contentHash, s.contentHashes, false, None)
  }

  /** The file's nodes after its first `n` symbols; a repeated id is skipped. */
  function TableUpTo(file: string, symbols: seq<Symbol>, n: nat): FileTable
    requires n <= |symbols|
  {
    if n == 0 then FileTable([ModuleId(file)], map[ModuleId(file) := ModuleNode(file)])
    else
      var p := TableUpTo(file, symbols, n - 1);
      var s := symbols[n - 1];
      if s.id.None? || EntityId(s.id.value) in p.nodes then p
      else FileTable(p.ids + [EntityId(s.id.value)], p.nodes[EntityId(s.id.value) := SymbolNode(file, s)])
  }

  function TableOf(file: string, symbols: seq<Symbol>): FileTable {
    TableUpTo(file, symbols, |symbols|)
  }

  type Tables = map<string, FileTable>

  /** The per-file node lists of a project. */
  function TablesOf(eng: Engine): Tables {
    map f | f in eng.facts && eng.facts[f].symbols.Some? :: TableOf(f, eng.facts[f].symbols.value)
  }

  // ---- Names -------------------------------------------------------------------------------

  /** Registers a name; `None` marks a name claimed by two different nodes. */
  function Register(index: map<string, Option<NodeId>>, name: string, id: NodeId): map<string, Option<NodeId>> {
    if name !in index then index[name := Some(id)]
    else if index[name] == Some(id) then index
    else index[name := None]
  }

  function RegisterNode(index: map<string, Option<NodeId>>, id: NodeId, node: Node): map<string, Option<NodeId>> {
    if node.qualifiedName == MODULE_NAME then index[MODULE_NAME := Some(id)]
    else Register(Register(index, node.name, id), node.qualifiedName, id)
  }

  /** Registers the listed nodes in order. */
  function NameIndex(ids: seq<NodeId>, nodes: map<NodeId, Node>): map<string, Option<NodeId>> {
    if ids == [] then map[]
    else
      var last := ids[|ids| - 1];
      var index := NameIndex(ids[..|ids| - 1], nodes);
      if last in nodes then RegisterNode(index, last, nodes[last]) else index
  }

  predicate Answers(node: Node, name: string) {
    node.name == name || node.qualifiedName == name
  }

  /** The first listed node that answers to `name`. */
  function Scan(ids: seq<NodeId>, nodes: map<NodeId, Node>, name: string): Option<NodeId> {
    if ids == [] then None
    else if ids[0] in nodes && Answers(nodes[ids[0]], name) then Some(ids[0])
    else Scan(ids[1..], nodes, name)
  }

  function Find(ft: FileTable, name: string): Option<NodeId> {
    var index := NameIndex(ft.ids, ft.nodes);
    if name in index && index[name].Some? then index[name] else Scan(ft.ids, ft.nodes, name)
  }

  function Resolve(t: Tables, file: string, name: string): Option<NodeId> {
    if file in t then Find(t[file], name) else None
  }

  // ---- Ranges ---------------------------------------------------------------------------------

  predicate PairAtMost(a: nat, b: nat, c: nat, d: nat) {
    a < c || (a == c && b <= d)
  }

  predicate Encloses(outer: Range, inner: Range) {
    && PairAtMost(outer.startLine, outer.startColumn, inner.startLine, inner.startColumn)
    && PairAtMost(inner.endLine, inner.endColumn, outer.endLine, outer.endColumn)
  }

  datatype Span = Span(range: Range, id: NodeId)

  predicate SpanBefore(a: Span, b: Span) {
    var x, y := a.range.endLine - a.range.startLine, b.range.endLine - b.range.startLine;
    x < y || (x == y && a.range.endColumn < b.range.endColumn)
  }

  function Spans(ids: seq<NodeId>, nodes: map<NodeId, Node>): seq<Span> {
    if ids == [] then []
    else
      var last := ids[|ids| - 1];
      Spans(ids[..|ids| - 1], nodes) +
      if last in nodes && nodes[last].kind != MODULE_KIND then [Span(nodes[last].range, last)] else []
  }

  /** The file's symbols by span, smallest first. */
  function RangeCache(ids: seq<NodeId>, nodes: map<NodeId, Node>): seq<Span> {
    Sort(Spans(ids, nodes), SpanBefore)
  }

  function FirstEnclosing(cache: seq<Span>, range: Range): Option<NodeId> {
    if cache == [] then None
    else if Encloses(cache[0].range, range) then Some(cache[0].id)
    else FirstEnclosing(cache[1..], range)
  }

  function Enclosing(file: string, ft: FileTable, range: Range): NodeId {
    match FirstEnclosing(RangeCache(ft.ids, ft.nodes), range)
    case Some(id) => id
    case None => ModuleId(file)
  }

  // ---- Edges a file contributes --------------------------------------------------------------

  datatype Env = Env(root: string, package: string -> Option<string>, project: set<string>)

  function EnvOf(eng: Engine): Env {
    Env(eng.root, eng.package, eng.facts.Keys)
  }

  /** A path under the root becomes project-relative; any other path stays as it is. */
  function ToGraph(root: string, native: string): string {
    if root <= native then
      var rest := native[|root|..];
      var rel := if rest != [] && rest[0] == '/' then rest[1..] else rest;
      if rel != [] then rel else native
    else native
  }

  function Normalize(env: Env, native: string): string {
    if ToGraph(env.root, native) in env.project then ToGraph(env.root, native) else native
  }

  function PackageOr(env: Env, file: string, other: string): string {
    match env.package(file)
    case Some(p) => p
    case None => other
  }

  /** The module that an import edge from `file` to `target` points at, if any. */
  function ImportTarget(env: Env, t: Tables, target: string): Option<NodeId> {
    if target in t then Some(ModuleId(target))
    else if target in env.project then None
    else Some(ExternalId(PackageOr(env, target, UNKNOWN), MODULE_NAME))
  }

  function ImportEdges(env: Env, t: Tables, file: string, target: string, range: Range): set<Edge> {
    if target == file || ImportTarget(env, t, target).None? then {}
    else {Edge(ModuleId(file), ImportTarget(env, t, target).value, Imports, None, Some(file), Some(range))}
  }

  /** The node an occurrence refers to: a project node, else a stub for an off-project
      target, else nothing. */
  function OccurrenceTarget(env: Env, t: Tables, target: string, name: string,
                            qualified: Option<string>): Option<NodeId> {
    var byQualified := if qualified.Some? then Resolve(t, target, qualified.value) else None;
    if byQualified.Some? then byQualified
    else if Resolve(t, target, name).Some? then Resolve(t, target, name)
    else if target in env.project then None
    else Some(ExternalId(PackageOr(env, target, target), name))
  }

  function OccurrenceEdges(env: Env, t: Tables, file: string, occ: Occurrence): set<Edge>
    requires file in t
  {
    if occ.role == IMPORT_ROLE && occ.targetFile.None? then
      if occ.definition.None? then {}
      else ImportEdges(env, t, file, Normalize(env, occ.definition.value), occ.range)
    else if occ.targetFile.None? || occ.targetName.None? then {}
    else
      var target := Normalize(env, occ.targetFile.value);
      var id := OccurrenceTarget(env, t, target, occ.targetName.value, occ.targetQualified);
      if id.None? then {} else ReferenceTo(env, t, file, occ, target, id.value)
  }

  /** The edges of an occurrence that refers to `id` in `target`; none at a definition site. */
  function ReferenceTo(env: Env, t: Tables, file: string, occ: Occurrence, target: string, id: NodeId): set<Edge>
    requires file in t
  {
    var from := Enclosing(file, t[file], occ.range);
    if from == id then {}
    else
      ImportEdges(env, t, file, target, occ.range) +
      if occ.role == IMPORT_ROLE then {}
      else {Edge(from, id, References, Some(occ.role), Some(file), Some(occ.range))}
  }

  function ReferenceEdges(env: Env, t: Tables, file: string, occs: seq<Occurrence>): set<Edge>
    requires file in t
  {
    if occs == [] then {}
    else ReferenceEdges(env, t, file, occs[..|occs| - 1]) + OccurrenceEdges(env, t, file, occs[|occs| - 1])
  }

  // ---- Stubs for off-project targets ---------------------------------------------------------

  function ExternalTargets(edges: set<Edge>): set<NodeId> {
    set e | e in edges && e.target.ExternalId? :: e.target
  }

  lemma ExternalTargetsSplit(a: set<Edge>, b: set<Edge>)
    ensures ExternalTargets(a + b) == ExternalTargets(a) + ExternalTargets(b)
  {
  }

  lemma StubsMore(base: set<NodeId>, a: set<Edge>, b: set<Edge>)
    ensures base + ExternalTargets(a) + ExternalTargets(b) == base + ExternalTargets(a + b)
  {
    ExternalTargetsSplit(a, b);
  }

  /** The off-project symbol that an import names; no edge points at it on that account. */
  function ImportNamed(env: Env, t: Tables, occ: Occurrence): set<NodeId> {
    if occ.role != IMPORT_ROLE || occ.targetFile.None? || occ.targetName.None? then {}
    else
      var id := OccurrenceTarget(env, t, Normalize(env, occ.targetFile.value), occ.targetName.value, occ.targetQualified);
      if id.Some? && id.value.ExternalId? then {id.value} else {}
  }

  function ImportNames(env: Env, t: Tables, occs: seq<Occurrence>): set<NodeId> {
    if occs == [] then {}
    else ImportNames(env, t, occs[..|occs| - 1]) + ImportNamed(env, t, occs[|occs| - 1])
  }

  function ParentOf(file: string, ft: FileTable, s: Symbol): NodeId {
    if s.container.Some? && Find(ft, s.container.value).Some? then Find(ft, s.container.value).value
    else ModuleId(file)
  }

  function ContainmentEdge(file: string, ft: FileTable, s: Symbol): set<Edge> {
    if s.id.None? then {}
    else
      var parent := ParentOf(file, ft, s);
      {Edge(parent, EntityId(s.id.value), if parent == ModuleId(file) then Defines else Contains, None, None, None)}
  }

  function ContainmentEdges(file: string, ft: FileTable, symbols: seq<Symbol>): set<Edge> {
    if symbols == [] then {}
    else ContainmentEdges(file, ft, symbols[..|symbols| - 1]) + ContainmentEdge(file, ft, symbols[|symbols| - 1])
  }

  /** Where the supertype query for a class puts its cursor: on the name, if known. */
  function Cursor(s: Symbol): (nat, nat) {
    if s.selection.Some? then (s.selection.value.startLine, s.selection.value.startColumn)
    else (s.range.startLine, s.range.startColumn)
  }

  function SuperTarget(env: Env, t: Tables, sup: Supertype): Option<NodeId> {
    var file := Normalize(env, sup.path);
    if Resolve(t, file, sup.name).Some? then Resolve(t, file, sup.name)
    else if env.package(file).Some? then Some(ExternalId(env.package(file).value, sup.name))
    else if file in t then None
    else Some(ExternalId(UNKNOWN, sup.name))
  }

  function SuperEdge(env: Env, t: Tables, id: NodeId, sup: Supertype): set<Edge> {
    if SuperTarget(env, t, sup).None? then {}
    else {Edge(id, SuperTarget(env, t, sup).value, Inherits, None, None, None)}
  }

  function SuperEdges(env: Env, t: Tables, id: NodeId, sups: seq<Supertype>): set<Edge> {
    if sups == [] then {}
    else SuperEdges(env, t, id, sups[..|sups| - 1]) + SuperEdge(env, t, id, sups[|sups| - 1])
  }

  function SupersOf(facts: Facts, s: Symbol): seq<Supertype> {
    if s.kind == CLASS_KIND && s.id.Some? && Cursor(s) in facts.supertypes then facts.supertypes[Cursor(s)] else []
  }

  function BaseEdges(env: Env, t: Tables, facts: Facts, s: Symbol): set<Edge> {
    if s.id.Some? then SuperEdges(env, t, EntityId(s.id.value), SupersOf(facts, s)) else {}
  }

  function InheritanceEdges(env: Env, t: Tables, facts: Facts, symbols: seq<Symbol>): set<Edge> {
    if symbols == [] then {}
    else
      InheritanceEdges(env, t, facts, symbols[..|symbols| - 1]) + BaseEdges(env, t, facts, symbols[|symbols| - 1])
  }

  /** Every edge that `file` contributes, given its facts and everyone's node lists. */
  function Contribution(env: Env, t: Tables, file: string, facts: Facts): set<Edge>
    requires facts.symbols.Some? ==> file in t
  {
    if facts.symbols.None? then {}
    else
      ContainmentEdges(file, t[file], facts.symbols.value) +
      (if facts.occurrences.Some? then ReferenceEdges(env, t, file, facts.occurrences.value) else {}) +
      InheritanceEdges(env, t, facts, facts.symbols.value)
  }

  /** What `file` contributes to a full build over `eng`. */
  ghost function Contributes(eng: Engine, file: string): set<Edge>
    requires file in eng.facts
  {
    Contribution(EnvOf(eng), TablesOf(eng), file, eng.facts[file])
  }

  ghost function FullEdges(eng: Engine): set<Edge> {
    set f, e | f in eng.facts && e in Contributes(eng, f) :: e
  }

  // ---- Well-formed projects ----------------------------------------------------------------------

  /** No id names symbols of two files, and no symbol is called `<module>`. */
  ghost predicate WellFormed(eng: Engine) {
    && (forall f, s :: HasSymbol(eng, f, s) ==> QualifiedName(s) != MODULE_NAME)
    && (forall f, g, s, s' :: HasSymbol(eng, f, s) && HasSymbol(eng, g, s') && s.id.Some? && s.id == s'.id ==> f == g)
  }

  ghost predicate HasSymbol(eng: Engine, f: string, s: Symbol) {
    f in eng.facts && eng.facts[f].symbols.Some? && s in eng.facts[f].symbols.value
  }

  // ---- Facts about one file's nodes -------------------------------------------------------------

  ghost predicate Describes(file: string, symbols: seq<Symbol>, n: nat, id: NodeId, node: Node)
    requires n <= |symbols|
  {
    exists i :: 0 <= i < n && symbols[i].id.Some? && EntityId(symbols[i].id.value) == id && node == SymbolNode(file, symbols[i])
  }

  lemma {:induction false} TableStartsWithModule(file: string, symbols: seq<Symbol>, n: nat)
    requires n <= |symbols|
    ensures var ft := TableUpTo(file, symbols, n);
            ft.ids != [] && ft.ids[0] == ModuleId(file) && ModuleId(file) in ft.nodes
            && ft.nodes[ModuleId(file)].qualifiedName == MODULE_NAME && !ft.nodes[ModuleId(file)].external
  {
    if n > 0 {
      TableStartsWithModule(file, symbols, n - 1);
    }
  }

  /** The list names exactly the file's nodes. */
  lemma {:induction false} TableLists(file: string, symbols: seq<Symbol>, n: nat, id: NodeId)
    requires n <= |symbols|
    ensures id in TableUpTo(file, symbols, n).ids <==> id in TableUpTo(file, symbols, n).nodes
  {
    if n > 0 {
      TableLists(file, symbols, n - 1, id);
    }
  }

  /** Every node but the module describes a symbol. */
  lemma {:induction false} TableDescribes(file: string, symbols: seq<Symbol>, n: nat, id: NodeId)
    requires n <= |symbols| && id in TableUpTo(file, symbols, n).nodes && id != ModuleId(file)
    ensures Describes(file, symbols, n, id, TableUpTo(file, symbols, n).nodes[id])
  {
    var p := TableUpTo(file, symbols, n - 1);
    if id in p.nodes {
      TableDescribes(file, symbols, n - 1, id);
      var i :| 0 <= i < n - 1 && symbols[i].id.Some? && EntityId(symbols[i].id.value) == id && p.nodes[id] == SymbolNode(file, symbols[i]);
    }
  }

  lemma {:induction false} TableCovers(file: string, symbols: seq<Symbol>, n: nat, i: nat)
    requires i < n <= |symbols| && symbols[i].id.Some?
    ensures EntityId(symbols[i].id.value) in TableUpTo(file, symbols, n).nodes
  {
    if i < n - 1 {
      TableCovers(file, symbols, n - 1, i);
    }
  }

  /** Past the first position no module id and no symbol named `<module>` is listed. */
  ghost predicate ModuleFirst(ft: FileTable) {
    && ft.ids != [] && ft.ids[0] in ft.nodes && ft.nodes[ft.ids[0]].qualifiedName == MODULE_NAME
    && forall k :: 0 < k < |ft.ids| ==> ft.ids[k] in ft.nodes && ft.nodes[ft.ids[k]].qualifiedName != MODULE_NAME
  }

  lemma {:induction false} ScanFinds(ids: seq<NodeId>, nodes: map<NodeId, Node>, name: string)
    ensures Scan(ids, nodes, name).Some? ==> Scan(ids, nodes, name).value in ids
  {
    if ids != [] && !(ids[0] in nodes && Answers(nodes[ids[0]], name)) {
      ScanFinds(ids[1..], nodes, name);
    }
  }

  /** The node at position `k` registers under `name`: the module only as `<module>`. */
  ghost predicate Claims(ids: seq<NodeId>, nodes: map<NodeId, Node>, k: nat, name: string) {
    && k < |ids| && ids[k] in nodes
    && if nodes[ids[k]].qualifiedName == MODULE_NAME then name == MODULE_NAME else Answers(nodes[ids[k]], name)
  }

  /** A name indexed to one node is claimed by that node and by no other. */
  lemma {:induction false} IndexMeans(ids: seq<NodeId>, nodes: map<NodeId, Node>, name: string)
    requires forall k :: 0 < k < |ids| ==> ids[k] in nodes ==> nodes[ids[k]].qualifiedName != MODULE_NAME
    ensures var index := NameIndex(ids, nodes);
            && (name in index && index[name].Some? ==>
                  exists k :: 0 <= k < |ids| && Claims(ids, nodes, k, name) && ids[k] == index[name].value)
            && (name in index && index[name].Some? ==>
                  forall k :: 0 <= k < |ids| && Claims(ids, nodes, k, name) ==> ids[k] == index[name].value)
            && (name !in index ==> forall k :: 0 <= k < |ids| ==> !Claims(ids, nodes, k, name))
  {
    if ids != [] {
      var n := |ids| - 1;
      var p := ids[..n];
      IndexMeans(p, nodes, name);
      assert forall k :: 0 <= k < n ==> (Claims(p, nodes, k, name) <==> Claims(ids, nodes, k, name));
    }
  }

  /** Except for the module's own stem, the cached lookup is the first-match scan. */
  lemma FindIsScan(ft: FileTable, name: string)
    requires ModuleFirst(ft) && name != ft.nodes[ft.ids[0]].name
    ensures Find(ft, name) == Scan(ft.ids, ft.nodes, name)
  {
    IndexMeans(ft.ids, ft.nodes, name);
    var index := NameIndex(ft.ids, ft.nodes);
    if name in index && index[name].Some? {
      assert forall k :: 0 <= k < |ft.ids| ==>
          (Claims(ft.ids, ft.nodes, k, name) <==> Answers(ft.nodes[ft.ids[k]], name));
      UniqueScan(ft.ids, ft.nodes, name, index[name].value);
    }
  }

  lemma {:induction false} UniqueScan(ids: seq<NodeId>, nodes: map<NodeId, Node>, name: string, id: NodeId)
    requires forall k :: 0 <= k < |ids| ==> ids[k] in nodes
    requires exists k :: 0 <= k < |ids| && Answers(nodes[ids[k]], name)
    requires forall k :: 0 <= k < |ids| && Answers(nodes[ids[k]], name) ==> ids[k] == id
    ensures Scan(ids, nodes, name) == Some(id)
  {
    if !Answers(nodes[ids[0]], name) {
      var k :| 0 <= k < |ids| && Answers(nodes[ids[k]], name);
      assert ids[1..][k - 1] == ids[k];
      UniqueScan(ids[1..], nodes, name, id);
    }
  }

  // ---- Lookups read only the listed nodes -----------------------------------------------------------

  ghost predicate AgreeOn(ids: seq<NodeId>, a: map<NodeId, Node>, b: map<NodeId, Node>) {
    forall k :: 0 <= k < |ids| ==> ids[k] in a && ids[k] in b && a[ids[k]] == b[ids[k]]
  }

  lemma {:induction false} IndexReadsListed(ids: seq<NodeId>, a: map<NodeId, Node>, b: map<NodeId, Node>)
    requires AgreeOn(ids, a, b)
    ensures NameIndex(ids, a) == NameIndex(ids, b) && Spans(ids, a) == Spans(ids, b)
  {
    if ids != [] {
      assert AgreeOn(ids[..|ids| - 1], a, b);
      IndexReadsListed(ids[..|ids| - 1], a, b);
    }
  }

  lemma {:induction false} ScanReadsListed(ids: seq<NodeId>, a: map<NodeId, Node>, b: map<NodeId, Node>, name: string)
    requires AgreeOn(ids, a, b)
    ensures Scan(ids, a, name) == Scan(ids, b, name)
  {
    if ids != [] {
      assert AgreeOn(ids[1..], a, b);
      ScanReadsListed(ids[1..], a, b, name);
    }
  }
}
