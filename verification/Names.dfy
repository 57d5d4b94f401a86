/** What names, paths and node lists mean: which node a name denotes in a file, which project
    file a native path denotes, and which nodes a file's symbols give. */
module Names {
  import opened Wrappers
  import opened CodeLayer
  import opened LayerSpec
  import opened NodeLists

  // ---- The node that a name denotes -----------------------------------------------------------

  /** The `k`-th listed node is called `name`, in short or in full. */
  ghost predicate CalledAt(ft: FileTable, k: nat, name: string) {
    && k < |ft.ids| && ft.ids[k] in ft.nodes
    && (ft.nodes[ft.ids[k]].name == name || ft.nodes[ft.ids[k]].qualifiedName == name)
  }

  ghost predicate FirstCalled(ft: FileTable, k: nat, name: string) {
    CalledAt(ft, k, name) && forall j: nat :: j < k ==> !CalledAt(ft, j, name)
  }

  /** Of the nodes after the module, only the `k`-th is called `name`. */
  ghost predicate OnlyCalled(ft: FileTable, k: nat, name: string) {
    0 < k && CalledAt(ft, k, name) && forall j: nat :: 0 < j && CalledAt(ft, j, name) ==> j == k
  }

  /** The name is that of the file and of exactly one symbol in it. */
  ghost predicate Shared(ft: FileTable, name: string) {
    ft.ids != [] && ft.ids[0] in ft.nodes && name == ft.nodes[ft.ids[0]].name && name != "<module>"
    && exists k: nat :: OnlyCalled(ft, k, name)
  }

  /** A name denotes the first node called so, except that a name which the file shares with
      exactly one of its symbols denotes that symbol. */
  ghost predicate Denotes(ft: FileTable, name: string, x: NodeId) {
    if Shared(ft, name) then exists k: nat :: OnlyCalled(ft, k, name) && ft.ids[k] == x
    else exists k: nat :: FirstCalled(ft, k, name) && ft.ids[k] == x
  }

  lemma {:induction false} ScanMeans(ids: seq<NodeId>, nodes: map<NodeId, Node>, name: string)
    ensures var ft := FileTable(ids, nodes);
            match Scan(ids, nodes, name)
            case None => forall k: nat :: !CalledAt(ft, k, name)
            case Some(x) => exists k: nat :: FirstCalled(ft, k, name) && ids[k] == x
  {
    var ft := FileTable(ids, nodes);
    if ids != [] {
      if ids[0] in nodes && Answers(nodes[ids[0]], name) {
        assert FirstCalled(ft, 0, name);
      } else {
        ScanMeans(ids[1..], nodes, name);
        var tail := FileTable(ids[1..], nodes);
        assert forall k: nat :: CalledAt(ft, k + 1, name) <==> CalledAt(tail, k, name);
        if Scan(ids, nodes, name).Some? {
          var k: nat :| FirstCalled(tail, k, name) && ids[1..][k] == Scan(ids, nodes, name).value;
          assert CalledAt(ft, k + 1, name);
          forall j: nat | j < k + 1
            ensures !CalledAt(ft, j, name)
          {
            assert j > 0 ==> !CalledAt(tail, j - 1, name);
          }
          assert FirstCalled(ft, k + 1, name);
        } else {
          forall k: nat
            ensures !CalledAt(ft, k, name)
          {
            assert k > 0 ==> !CalledAt(tail, k - 1, name);
          }
        }
      }
    }
  }

  /** A list of distinct ids, the module first. */
  ghost predicate WellListed(ft: FileTable) {
    ModuleFirst(ft) && forall i, j :: 0 <= i < j < |ft.ids| ==> ft.ids[i] != ft.ids[j]
  }

  lemma ClaimsIff(ft: FileTable, k: nat, name: string)
    requires WellListed(ft) && name != "<module>"
    ensures Claims(ft.ids, ft.nodes, k, name) <==> 0 < k && CalledAt(ft, k, name)
  {
  }

  /** The indexed lookup of a shared name finds the one symbol. */
  lemma SharedIsIndexed(ft: FileTable, name: string, k: nat)
    requires WellListed(ft) && name != "<module>" && OnlyCalled(ft, k, name)
    ensures Find(ft, name) == Some(ft.ids[k])
  {
    IndexMeans(ft.ids, ft.nodes, name);
    forall j: nat
      ensures Claims(ft.ids, ft.nodes, j, name) <==> j == k
    {
      ClaimsIff(ft, j, name);
    }
    IndexClaimed(ft.ids, ft.nodes, name, k);
  }

  /** A name claimed at one position only stays indexed. */
  lemma {:induction false} IndexClaimed(ids: seq<NodeId>, nodes: map<NodeId, Node>, name: string, k: nat)
    requires k < |ids| && forall j: nat :: Claims(ids, nodes, j, name) <==> j == k
    requires name != "<module>"
    ensures name in NameIndex(ids, nodes) && NameIndex(ids, nodes)[name] == Some(ids[k])
  {
    var n := |ids| - 1;
    var p := ids[..n];
    assert forall j: nat :: j < n ==> (Claims(p, nodes, j, name) <==> Claims(ids, nodes, j, name));
    if k < n {
      assert forall j: nat :: Claims(p, nodes, j, name) <==> j == k;
      IndexClaimed(p, nodes, name, k);
      assert !Claims(ids, nodes, n, name);
    } else {
      Unclaimed(p, nodes, name);
      assert Claims(ids, nodes, n, name);
    }
  }

  lemma {:induction false} Unclaimed(ids: seq<NodeId>, nodes: map<NodeId, Node>, name: string)
    requires forall j: nat :: !Claims(ids, nodes, j, name)
    ensures name !in NameIndex(ids, nodes)
  {
    if ids != [] {
      var n := |ids| - 1;
      assert forall j: nat :: Claims(ids[..n], nodes, j, name) ==> Claims(ids, nodes, j, name);
      Unclaimed(ids[..n], nodes, name);
      assert !Claims(ids, nodes, n, name);
    }
  }

  /** The file's own name, when it is not that of exactly one symbol, denotes the module. */
  lemma StemIsScan(ft: FileTable, name: string)
    requires WellListed(ft) && name == ft.nodes[ft.ids[0]].name && name != "<module>" && !Shared(ft, name)
    ensures Find(ft, name) == Scan(ft.ids, ft.nodes, name)
  {
    IndexMeans(ft.ids, ft.nodes, name);
    var index := NameIndex(ft.ids, ft.nodes);
    if name in index && index[name].Some? {
      var k: nat :| k < |ft.ids| && Claims(ft.ids, ft.nodes, k, name) && ft.ids[k] == index[name].value;
      ClaimsIff(ft, k, name);
      forall j: nat | 0 < j && CalledAt(ft, j, name)
        ensures j == k
      {
        ClaimsIff(ft, j, name);
      }
      assert OnlyCalled(ft, k, name);
    }
  }

  lemma ModuleNameIsScan(ft: FileTable)
    requires WellListed(ft)
    ensures Find(ft, "<module>") == Scan(ft.ids, ft.nodes, "<module>")
  {
    var name := "<module>";
    IndexMeans(ft.ids, ft.nodes, name);
    assert Claims(ft.ids, ft.nodes, 0, name);
  }

  /** Looking a name up finds the node that it denotes, and nothing if nothing is called so. */
  lemma FindMeans(ft: FileTable, name: string)
    requires WellListed(ft)
    ensures match Find(ft, name)
            case None => forall k: nat :: !CalledAt(ft, k, name)
            case Some(x) => Denotes(ft, name, x)
  {
    ScanMeans(ft.ids, ft.nodes, name);
    assert ft == FileTable(ft.ids, ft.nodes);
    if Shared(ft, name) {
      var k: nat :| OnlyCalled(ft, k, name);
      SharedIsIndexed(ft, name, k);
    } else if name == "<module>" {
      ModuleNameIsScan(ft);
    } else if name == ft.nodes[ft.ids[0]].name {
      StemIsScan(ft, name);
    } else {
      FindIsScan(ft, name);
    }
  }

  lemma DenotesOne(ft: FileTable, name: string, x: NodeId, y: NodeId)
    requires Denotes(ft, name, x) && Denotes(ft, name, y)
    ensures x == y
  {
    if !Shared(ft, name) {
      var j: nat :| FirstCalled(ft, j, name) && ft.ids[j] == x;
      var k: nat :| FirstCalled(ft, k, name) && ft.ids[k] == y;
      assert j == k;
    }
  }

  lemma FindIff(ft: FileTable, name: string, x: NodeId)
    requires WellListed(ft)
    ensures Find(ft, name) == Some(x) <==> Denotes(ft, name, x)
  {
    FindMeans(ft, name);
    if Denotes(ft, name, x) {
      assert exists k: nat :: CalledAt(ft, k, name);
      DenotesOne(ft, name, x, Find(ft, name).value);
    }
  }

  // ---- The nodes of a file -------------------------------------------------------------------------

  /** `s` is the first symbol of the file with this id. */
  ghost predicate FirstWith(symbols: seq<Symbol>, i: nat, id: string) {
    i < |symbols| && symbols[i].id == Some(id) && forall j: nat :: j < i ==> symbols[j].id != Some(id)
  }

  /** The node says what the symbol says. */
  ghost predicate Depicts(node: Node, file: string, s: Symbol) {
    && node.name == s.name && (node.qualifiedName == match s.qualifiedName case Some(q) => q case None => s.name)
    && node.kind == s.kind && node.file == file && node.range == s.range && node.nameRange == s.selection
    && node.contentHash == s.contentHash && node.contentHashes == s.contentHashes && !node.external && node.package == None
  }

  /** A file has its module and one node per id, each depicting the first symbol with it. */
  lemma TableDepicts(file: string, symbols: seq<Symbol>, n: nat, id: string)
    requires n <= |symbols|
    ensures var ft := TableUpTo(file, symbols, n);
            && (EntityId(id) in ft.nodes <==> exists i: nat :: i < n && FirstWith(symbols, i, id))
            && (forall i: nat :: i < n && FirstWith(symbols, i, id) ==> EntityId(id) in ft.nodes && Depicts(ft.nodes[EntityId(id)], file, symbols[i]))
  {
    if EntityId(id) in TableUpTo(file, symbols, n).nodes {
      var i := DepictedFirst(file, symbols, n, id);
    }
    forall i: nat | i < n && FirstWith(symbols, i, id)
      ensures var ft := TableUpTo(file, symbols, n); EntityId(id) in ft.nodes && Depicts(ft.nodes[EntityId(id)], file, symbols[i])
    {
      FirstIsDepicted(file, symbols, n, i, id);
    }
  }

  lemma {:induction false} DepictedFirst(file: string, symbols: seq<Symbol>, n: nat, id: string) returns (i: nat)
    requires n <= |symbols| && EntityId(id) in TableUpTo(file, symbols, n).nodes
    ensures i < n && FirstWith(symbols, i, id)
  {
    i := n - 1;
    if EntityId(id) in TableUpTo(file, symbols, n - 1).nodes {
      i := DepictedFirst(file, symbols, n - 1, id);
    } else {
      NewIsFirst(file, symbols, n, id);
    }
  }

  lemma {:induction false} FirstIsDepicted(file: string, symbols: seq<Symbol>, n: nat, i: nat, id: string)
    requires i < n <= |symbols| && FirstWith(symbols, i, id)
    ensures var ft := TableUpTo(file, symbols, n); EntityId(id) in ft.nodes && Depicts(ft.nodes[EntityId(id)], file, symbols[i])
    decreases n
  {
    if i < n - 1 {
      FirstIsDepicted(file, symbols, n - 1, i, id);
    } else if EntityId(id) in TableUpTo(file, symbols, i).nodes {
      var j := DepictedFirst(file, symbols, i, id);
      assert false;
    }
  }

  lemma NewIsFirst(file: string, symbols: seq<Symbol>, n: nat, id: string)
    requires 0 < n <= |symbols| && symbols[n - 1].id == Some(id) && EntityId(id) !in TableUpTo(file, symbols, n - 1).nodes
    ensures FirstWith(symbols, n - 1, id)
  {
    forall j: nat | j < n - 1
      ensures symbols[j].id != Some(id)
    {
      if symbols[j].id == Some(id) {
        TableCovers(file, symbols, n - 1, j);
      }
    }
  }

  /** The first symbol with the one id comes before the first with the other. */
  ghost predicate FirstBefore(symbols: seq<Symbol>, a: NodeId, b: NodeId) {
    a.EntityId? && b.EntityId? && forall i: nat, j: nat ::
      FirstWith(symbols, i, a.durableId) && FirstWith(symbols, j, b.durableId) ==> i < j
  }

  /** The ids are listed once each, the module first and then in the order of the symbols. */
  lemma {:induction false} TableOrder(file: string, symbols: seq<Symbol>, n: nat)
    requires n <= |symbols|
    ensures var ids := TableUpTo(file, symbols, n).ids;
            ids != [] && ids[0] == ModuleId(file) && InOrder(symbols, ids, n)
  {
    if n > 0 {
      TableOrder(file, symbols, n - 1);
      var p := TableUpTo(file, symbols, n - 1);
      var s := symbols[n - 1];
      if s.id.Some? && EntityId(s.id.value) !in p.nodes {
        NewIsFirst(file, symbols, n, s.id.value);
        NewIsLast(symbols, p.ids, n, s.id.value);
      }
    }
  }

  ghost predicate HasFirst(symbols: seq<Symbol>, n: nat, id: NodeId) {
    id.EntityId? && exists i: nat :: i < n && FirstWith(symbols, i, id.durableId)
  }

  ghost predicate InOrder(symbols: seq<Symbol>, ids: seq<NodeId>, n: nat) {
    && (forall k :: 0 < k < |ids| ==> HasFirst(symbols, n, ids[k]))
    && forall k, l :: 0 < k < l < |ids| ==> FirstBefore(symbols, ids[k], ids[l])
  }

  lemma NewIsLast(symbols: seq<Symbol>, ids: seq<NodeId>, n: nat, id: string)
    requires 0 < n <= |symbols| && InOrder(symbols, ids, n - 1) && FirstWith(symbols, n - 1, id)
    ensures InOrder(symbols, ids + [EntityId(id)], n)
  {
    var last := EntityId(id);
    assert HasFirst(symbols, n, last);
    forall k | 0 < k < |ids|
      ensures HasFirst(symbols, n, ids[k]) && FirstBefore(symbols, ids[k], last)
    {
      FirstComesBefore(symbols, ids[k], n, id);
    }
  }

  lemma FirstComesBefore(symbols: seq<Symbol>, a: NodeId, n: nat, id: string)
    requires 0 < n <= |symbols| && HasFirst(symbols, n - 1, a) && FirstWith(symbols, n - 1, id)
    ensures HasFirst(symbols, n, a) && FirstBefore(symbols, a, EntityId(id))
  {
    var i: nat :| i < n - 1 && FirstWith(symbols, i, a.durableId);
    assert forall j: nat :: FirstWith(symbols, j, a.durableId) ==> j == i;
  }

  lemma FirstIsOne(symbols: seq<Symbol>, i: nat, j: nat, id: string)
    requires FirstWith(symbols, i, id) && FirstWith(symbols, j, id)
    ensures i == j
  {
  }

  lemma TableIsWellListed(file: string, symbols: seq<Symbol>)
    requires PlainNames(symbols)
    ensures WellListed(TableOf(file, symbols))
  {
    TableIsListed(file, symbols);
    TableOrder(file, symbols, |symbols|);
    var ids := TableOf(file, symbols).ids;
    forall k, l | 0 <= k < l < |ids|
      ensures ids[k] != ids[l]
    {
      if k > 0 {
        assert FirstBefore(symbols, ids[k], ids[l]);
        var i: nat :| i < |symbols| && FirstWith(symbols, i, ids[k].durableId);
      }
    }
  }

  lemma ModuleDepicts(file: string, symbols: seq<Symbol>, n: nat)
    requires n <= |symbols|
    ensures var ft := TableUpTo(file, symbols, n); ModuleId(file) in ft.nodes
    ensures var m := TableUpTo(file, symbols, n).nodes[ModuleId(file)];
            && m.qualifiedName == "<module>" && m.kind == "module" && m.file == file && !m.external
            && m.range == Range(1, 1, 1, 1) && m.contentHash == None && m.name == Stem(file)
  {
    if n > 0 {
      ModuleDepicts(file, symbols, n - 1);
    }
  }

  // ---- File names -----------------------------------------------------------------------------------

  /** The name of a file is what is left of its path once the directory and the last extension
      are gone; a leading dot starts no extension. */
  ghost predicate FileName(file: string, dir: string, stem: string, ext: string) {
    && file == dir + stem + ext
    && (dir == "" || dir[|dir| - 1] == '/') && '/' !in stem && '/' !in ext
    && (if ext == "" then forall k :: 0 < k < |stem| ==> stem[k] != '.'
        else ext[0] == '.' && '.' !in ext[1..] && stem != "")
  }

  lemma {:induction false} BaseMeans(file: string, n: nat) returns (dir: string)
    requires n <= |file| && '/' !in file[n..]
    ensures file == dir + BaseFrom(file, n) && '/' !in BaseFrom(file, n) && (dir == "" || dir[|dir| - 1] == '/')
  {
    if n == 0 {
      dir := "";
    } else if file[n - 1] == '/' {
      dir := file[..n];
    } else {
      assert file[n - 1..] == [file[n - 1]] + file[n..];
      dir := BaseMeans(file, n - 1);
    }
  }

  lemma {:induction false} CutMeans(base: string, n: nat) returns (ext: string)
    requires n <= |base| && '.' !in base[n..] && '/' !in base
    ensures base == CutExtension(base, n) + ext && '/' !in CutExtension(base, n) && '/' !in ext
    ensures if ext == "" then forall k :: 0 < k < |CutExtension(base, n)| ==> CutExtension(base, n)[k] != '.'
            else ext[0] == '.' && '.' !in ext[1..] && CutExtension(base, n) != ""
  {
    if n == 0 {
      ext := "";
    } else if base[n - 1] == '.' {
      if n > 1 {
        ext := base[n - 1..];
        assert ext[1..] == base[n..];
        assert base == base[..n - 1] + ext;
      } else {
        ext := "";
        assert forall k :: 0 < k < |base| ==> base[k] in base[n..];
      }
    } else {
      assert base[n - 1..] == [base[n - 1]] + base[n..];
      ext := CutMeans(base, n - 1);
    }
  }

  lemma StemMeans(file: string) returns (dir: string, ext: string)
    ensures FileName(file, dir, Stem(file), ext)
  {
    assert file[|file|..] == "";
    dir := BaseMeans(file, |file|);
    var base := BaseFrom(file, |file|);
    assert base[|base|..] == "";
    ext := CutMeans(base, |base|);
    assert file == dir + (Stem(file) + ext);
  }

  // ---- The project file that a native path denotes --------------------------------------------------

  /** The native path of a project file: the root, a slash unless the root brings its own, the file. */
  predicate PathOf(root: string, native: string, file: string) {
    file != "" && (native == root + "/" + file || (native == root + file && file[0] != '/'))
  }

  lemma ToGraphIff(root: string, native: string, file: string)
    requires PathOf(root, native, file)
    ensures ToGraph(root, native) == file
  {
    var rest := native[|root|..];
    if native == root + "/" + file {
      assert rest == "/" + file;
      assert rest[1..] == file;
    } else {
      assert rest == file;
    }
  }

  lemma ToGraphFrom(root: string, native: string)
    ensures ToGraph(root, native) == native || PathOf(root, native, ToGraph(root, native))
  {
    if root <= native {
      var rest := native[|root|..];
      assert native == root + rest;
      if rest != [] && rest[0] == '/' {
        assert rest == "/" + rest[1..];
        assert native == root + "/" + rest[1..];
      }
    }
  }

  /** A native path denotes the project file it is the path of, and itself if there is none. */
  lemma NormalizeMeans(env: Env, native: string)
    ensures forall g :: g in env.project && PathOf(env.root, native, g) ==> Normalize(env, native) == g
    ensures (forall g :: g in env.project ==> !PathOf(env.root, native, g)) ==> Normalize(env, native) == native
  {
    forall g | g in env.project && PathOf(env.root, native, g)
      ensures Normalize(env, native) == g
    {
      ToGraphIff(env.root, native, g);
    }
    ToGraphFrom(env.root, native);
  }
}
