/** The order in which configured layers are computed: a topological sort that always
    takes the smallest ready name. */
module Layers {
  import opened Wrappers
  import opened Orders

  const CODE := "code"

  datatype LayerCfg = LayerCfg(derived: bool, dependsOn: seq<string>)

  type Config = map<string, LayerCfg>

  datatype ConfigError = DanglingRef(layer: string, target: string) | Cycle(layers: seq<string>)

  /** A derived layer that names no dependency depends on the code. */
  function EffectiveDependsOn(layer: LayerCfg): seq<string> {
    if layer.derived && layer.dependsOn == [] then [CODE] else layer.dependsOn
  }

  function Nodes(cfg: Config): set<string> {
    cfg.Keys + {CODE}
  }

  function Deps(cfg: Config, name: string): seq<string> {
    if name in cfg then EffectiveDependsOn(cfg[name]) else []
  }

  // ---- What the order promises -------------------------------------------------------

  predicate Dangling(cfg: Config, name: string, target: string) {
    target in Deps(cfg, name) && target !in Nodes(cfg)
  }

  ghost predicate Resolved(cfg: Config) {
    forall name, target :: !Dangling(cfg, name, target)
  }

  ghost predicate FirstUnknown(deps: seq<string>, known: set<string>, target: string) {
    target !in known && exists k :: 0 <= k < |deps| && deps[k] == target && forall j :: 0 <= j < k ==> deps[j] in known
  }

  /** The first dangling reference of the first layer that has one. */
  ghost predicate FirstDangling(cfg: Config, name: string, target: string) {
    && FirstUnknown(Deps(cfg, name), Nodes(cfg), target)
    && forall other, t :: Dangling(cfg, other, t) ==> AtMost(name, other)
  }

  predicate DependsOn(cfg: Config, a: string, b: string) {
    b in Deps(cfg, a)
  }

  ghost predicate Walk(cfg: Config, w: seq<string>) {
    w != [] && forall k :: 0 <= k < |w| - 1 ==> DependsOn(cfg, w[k], w[k + 1])
  }

  ghost predicate Closed(cfg: Config, w: seq<string>) {
    |w| >= 2 && Walk(cfg, w) && w[0] == w[|w| - 1]
  }

  ghost predicate Acyclic(cfg: Config) {
    forall w :: !Closed(cfg, w)
  }

  /** Following dependencies from `name` can lead into a cycle. */
  ghost predicate ReachesCycle(cfg: Config, name: string) {
    exists w, c :: Walk(cfg, w) && w[0] == name && Closed(cfg, c) && w[|w| - 1] == c[0]
  }

  ghost predicate Respects(cfg: Config, order: seq<string>) {
    forall i, d :: 0 <= i < |order| && d in Deps(cfg, order[i]) ==> d in order[..i]
  }

  /** Every layer and the code exactly once, after everything it depends on. */
  ghost predicate IsOrder(cfg: Config, order: seq<string>) {
    Distinct(order) && Respects(cfg, order) && forall x :: x in order <==> x in Nodes(cfg)
  }

  ghost predicate LexAtMost(a: seq<string>, b: seq<string>) {
    a == b || exists i :: 0 <= i < |a| && i < |b| && a[..i] == b[..i] && Less(a[i], b[i])
  }

  ghost predicate IsLeastOrder(cfg: Config, order: seq<string>) {
    IsOrder(cfg, order) && forall other :: IsOrder(cfg, other) ==> LexAtMost(order, other)
  }

  /** A layer depends on the layers it names; a derived one that names none, on the code. */
  lemma DependsIff(cfg: Config, a: string, b: string)
    ensures DependsOn(cfg, a, b) <==>
            a in cfg && (b in cfg[a].dependsOn || (cfg[a].derived && cfg[a].dependsOn == [] && b == "code"))
    ensures b in Nodes(cfg) <==> b in cfg || b == "code"
  {
  }

  /** So in every order the code comes before a derived layer that names no dependency, and
      every layer that a layer names comes before it. */
  lemma OrderFollows(cfg: Config, order: seq<string>, name: string, dep: string)
    requires IsOrder(cfg, order) && name in cfg
    requires dep in cfg[name].dependsOn || (cfg[name].derived && cfg[name].dependsOn == [] && dep == "code")
    ensures exists i, j :: 0 <= i < j < |order| && order[i] == dep && order[j] == name
  {
    assert name in Nodes(cfg);
    var j :| 0 <= j < |order| && order[j] == name;
    DependsIff(cfg, name, dep);
    assert dep in order[..j];
    var i :| 0 <= i < j && order[..j][i] == dep;
    assert order[i] == dep;
  }

  // ---- The greedy choice is the least order ---------------------------------------------

  ghost predicate Available(cfg: Config, done: seq<string>, x: string) {
    x in Nodes(cfg) && x !in done && forall d :: d in Deps(cfg, x) ==> d in done
  }

  ghost predicate TakesLeast(cfg: Config, order: seq<string>, i: nat)
    requires i < |order|
  {
    Available(cfg, order[..i], order[i]) && forall x :: Available(cfg, order[..i], x) ==> AtMost(order[i], x)
  }

  ghost predicate Greedy(cfg: Config, order: seq<string>) {
    forall i :: 0 <= i < |order| ==> TakesLeast(cfg, order, i)
  }

  lemma GreedyRespects(cfg: Config, order: seq<string>)
    requires Greedy(cfg, order)
    ensures Distinct(order) && Respects(cfg, order) && forall x :: x in order ==> x in Nodes(cfg)
  {
    forall i, j | 0 <= i < j < |order|
      ensures order[i] != order[j]
    {
      assert TakesLeast(cfg, order, j);
      assert order[..j][i] == order[i];
    }
    forall i, d | 0 <= i < |order| && d in Deps(cfg, order[i])
      ensures d in order[..i]
    {
      assert TakesLeast(cfg, order, i);
    }
    forall x | x in order
      ensures x in Nodes(cfg)
    {
      var i :| 0 <= i < |order| && order[i] == x;
      assert TakesLeast(cfg, order, i);
    }
  }

  lemma PrefixIsWhole(cfg: Config, a: seq<string>, b: seq<string>)
    requires IsOrder(cfg, a) && IsOrder(cfg, b) && |a| <= |b| && a == b[..|a|]
    ensures a == b
  {
    if b != [] {
      assert b[|b| - 1] in a;
    }
  }

  /** Two orders of the same names are equal or part at some position. */
  lemma FirstDifference(cfg: Config, a: seq<string>, b: seq<string>) returns (i: nat)
    requires IsOrder(cfg, a) && IsOrder(cfg, b) && a != b
    ensures i < |a| && i < |b| && a[..i] == b[..i] && a[i] != b[i]
  {
    assert a[..|a|] == a && b[..|b|] == b;
    i := 0;
    while i < |a| && i < |b| && a[i] == b[i]
      invariant i <= |a| && i <= |b| && a[..i] == b[..i]
    {
      assert a[..i + 1] == a[..i] + [a[i]] && b[..i + 1] == b[..i] + [b[i]];
      i := i + 1;
    }
    if i == |a| {
      PrefixIsWhole(cfg, a, b);
    } else if i == |b| {
      PrefixIsWhole(cfg, b, a);
    }
  }

  lemma GreedyIsLeast(cfg: Config, order: seq<string>, other: seq<string>)
    requires Greedy(cfg, order) && IsOrder(cfg, order) && IsOrder(cfg, other)
    ensures LexAtMost(order, other)
  {
    if order != other {
      var i := FirstDifference(cfg, order, other);
      assert TakesLeast(cfg, order, i);
      assert other[i] !in other[..i];
      assert Available(cfg, order[..i], other[i]);
    }
  }

  lemma WalkPart(cfg: Config, w: seq<string>, i: nat, j: nat)
    requires Walk(cfg, w) && i < j <= |w|
    ensures Walk(cfg, w[i..j])
  {
    var part := w[i..j];
    forall k | 0 <= k < |part| - 1
      ensures DependsOn(cfg, part[k], part[k + 1])
    {
      assert DependsOn(cfg, w[i + k], w[i + k + 1]);
    }
  }

  // ---- An order rules cycles out, and a stuck sort finds one ------------------------------

  /** Along dependencies, positions in an order only go down. */
  lemma {:induction false} WalkDescends(cfg: Config, order: seq<string>, w: seq<string>, p: nat) returns (q: nat)
    requires Respects(cfg, order) && Walk(cfg, w) && p < |order| && order[p] == w[0]
    ensures q <= p && order[q] == w[|w| - 1] && (|w| >= 2 ==> q < p)
    decreases |w|
  {
    if |w| == 1 {
      q := p;
    } else {
      assert DependsOn(cfg, w[0], w[0 + 1]);
      var r :| 0 <= r < p && order[..p][r] == w[1];
      WalkPart(cfg, w, 1, |w|);
      q := WalkDescends(cfg, order, w[1..], r);
    }
  }

  lemma OrderedReachesNoCycle(cfg: Config, order: seq<string>, name: string)
    requires Distinct(order) && Respects(cfg, order) && name in order
    ensures !ReachesCycle(cfg, name)
  {
    if ReachesCycle(cfg, name) {
      var w, c :| Walk(cfg, w) && w[0] == name && Closed(cfg, c) && w[|w| - 1] == c[0];
      var p :| 0 <= p < |order| && order[p] == name;
      var q := WalkDescends(cfg, order, w, p);
      var r := WalkDescends(cfg, order, c, q);
    }
  }

  lemma OrderIsAcyclic(cfg: Config, order: seq<string>)
    requires IsOrder(cfg, order) && Resolved(cfg)
    ensures Acyclic(cfg)
  {
    forall c
      ensures !Closed(cfg, c)
    {
      if Closed(cfg, c) {
        assert DependsOn(cfg, c[0], c[0 + 1]);
        assert c[0] in order;
        var w := [c[0]];
        assert Walk(cfg, w) && w[|w| - 1] == c[0];
        OrderedReachesNoCycle(cfg, order, c[0]);
      }
    }
  }

  lemma {:induction false} PigeonHole(w: seq<string>, s: set<string>)
    requires forall x :: x in w ==> x in s
    requires Distinct(w)
    ensures |w| <= |s|
  {
    if w != [] {
      var rest := s - {w[0]};
      assert forall x :: x in w[1..] ==> x in rest;
      PigeonHole(w[1..], rest);
    }
  }

  /** Some dependency of `x` is itself in the set. */
  ghost predicate Waits(cfg: Config, s: set<string>, x: string) {
    exists d :: DependsOn(cfg, x, d) && d in s
  }

  ghost predicate Stuck(cfg: Config, s: set<string>) {
    forall x {:trigger Waits(cfg, s, x)} :: x in s ==> Waits(cfg, s, x)
  }

  /** A walk of any length inside a set in which every name waits for another. */
  lemma {:induction false} LongWalk(cfg: Config, s: set<string>, name: string, n: nat) returns (w: seq<string>)
    requires name in s && Stuck(cfg, s)
    ensures |w| == n + 1 && Walk(cfg, w) && w[0] == name && forall x :: x in w ==> x in s
    decreases n
  {
    w := [name];
    if n > 0 {
      assert Waits(cfg, s, name);
      var d :| DependsOn(cfg, name, d) && d in s;
      var tail := LongWalk(cfg, s, d, n - 1);
      w := [name] + tail;
      forall k | 0 <= k < |w| - 1
        ensures DependsOn(cfg, w[k], w[k + 1])
      {
        if k > 0 {
          assert w[k] == tail[k - 1] && w[k + 1] == tail[k - 1 + 1];
        }
      }
    }
  }

  lemma StuckReachesCycle(cfg: Config, s: set<string>, name: string)
    requires name in s && Stuck(cfg, s)
    ensures ReachesCycle(cfg, name)
  {
    var w := LongWalk(cfg, s, name, |s|);
    if Distinct(w) {
      PigeonHole(w, s);
    }
    var i, j :| 0 <= i < j < |w| && w[i] == w[j];
    RepeatIsCycle(cfg, w, i, j);
  }

  lemma RepeatIsCycle(cfg: Config, w: seq<string>, i: nat, j: nat)
    requires Walk(cfg, w) && i < j < |w| && w[i] == w[j]
    ensures ReachesCycle(cfg, w[0])
  {
    WalkPart(cfg, w, 0, i + 1);
    WalkPart(cfg, w, i, j + 1);
    var head, c := w[0..i + 1], w[i..j + 1];
    assert Closed(cfg, c) && head[|head| - 1] == c[0];
  }

  // ---- Counting --------------------------------------------------------------------------

  /** How many of the listed dependencies are not done, repetitions included. */
  function Pending(deps: seq<string>, done: seq<string>): nat {
    if deps == [] then 0
    else Pending(deps[..|deps| - 1], done) + if deps[|deps| - 1] in done then 0 else 1
  }

  lemma {:induction false} PendingZero(deps: seq<string>, done: seq<string>)
    ensures Pending(deps, done) == 0 <==> forall d :: d in deps ==> d in done
  {
    if deps != [] {
      var n := |deps| - 1;
      PendingZero(deps[..n], done);
      assert forall d :: d in deps <==> d == deps[n] || d in deps[..n];
    }
  }

  lemma {:induction false} PendingAfter(deps: seq<string>, done: seq<string>, node: string)
    requires node !in done
    ensures Pending(deps, done) == Pending(deps, done + [node]) + multiset(deps)[node]
  {
    if deps != [] {
      var n := |deps| - 1;
      PendingAfter(deps[..n], done, node);
      assert deps == deps[..n] + [deps[n]];
    }
  }

  function Targets(outgoing: map<string, seq<string>>, dep: string): seq<string> {
    if dep in outgoing then outgoing[dep] else []
  }

  function SeenOf(seen: map<string, seq<string>>, n: string): seq<string> {
    if n in seen then seen[n] else []
  }

  /** `outgoing[dep]` names `n` as often as the dependencies of `n` seen so far name `dep`. */
  ghost predicate ListedAt(outgoing: map<string, seq<string>>, seen: map<string, seq<string>>, n: string, dep: string) {
    multiset(Targets(outgoing, dep))[n] == multiset(SeenOf(seen, n))[dep]
  }

  ghost predicate CountedAt(incoming: map<string, nat>, seen: map<string, seq<string>>, n: string) {
    n in incoming ==> incoming[n] == |SeenOf(seen, n)|
  }

  /** The counts and target lists of the dependencies seen so far. */
  ghost predicate Counted(incoming: map<string, nat>, outgoing: map<string, seq<string>>, seen: map<string,
                          seq<string>>) {
    && incoming.Keys == seen.Keys
    && (forall n :: CountedAt(incoming, seen, n))
    && forall n, dep :: ListedAt(outgoing, seen, n, dep)
  }

  lemma CountOne(incoming: map<string, nat>, outgoing: map<string, seq<string>>, seen: map<string,
                 seq<string>>, name: string, dep: string)
    requires Counted(incoming, outgoing, seen) && name in seen
    ensures Counted(incoming[name := incoming[name] + 1], outgoing[dep := Targets(outgoing, dep) + [name]],
                    seen[name := seen[name] + [dep]])
  {
    var incoming' := incoming[name := incoming[name] + 1];
    var outgoing' := outgoing[dep := Targets(outgoing, dep) + [name]];
    var seen' := seen[name := seen[name] + [dep]];
    assert CountedAt(incoming, seen, name);
    forall n
      ensures CountedAt(incoming', seen', n)
    {
      assert CountedAt(incoming, seen, n);
    }
    forall n, d
      ensures ListedAt(outgoing', seen', n, d)
    {
      ListOne(outgoing, seen, name, dep, n, d);
    }
  }

  lemma ListOne(outgoing: map<string, seq<string>>, seen: map<string, seq<string>>, name: string, dep: string,
                n: string, d: string)
    requires ListedAt(outgoing, seen, n, d) && name in seen
    ensures ListedAt(outgoing[dep := Targets(outgoing, dep) + [name]], seen[name := seen[name] + [dep]], n, d)
  {
  }

  /** A set of names in ascending order, as an ordered map iterates. */
  method SortedNames(names: set<string>) returns (s: seq<string>)
    ensures Ascending(s) && forall x :: x in s <==> x in names
  {
    s := [];
    var rest := names;
    while rest != {}
      invariant rest <= names && Ascending(s) && forall x :: x in s <==> x in names - rest
      decreases |rest|
    {
      var x :| x in rest;
      PlaceKeepsAscending(x, s);
      s, rest := Place(x, s, Less), rest - {x};
    }
  }

  ghost function SeenAfter(cfg: Config, done: seq<string>): map<string, seq<string>> {
    map n | n in Nodes(cfg) :: if n in done then Deps(cfg, n) else []
  }

  /** Counts one layer's dependencies, stopping at the first that dangles. */
  method CountLayer(cfg: Config, name: string, incoming0: map<string, nat>, outgoing0: map<string, seq<string>>,
                    ghost seen0: map<string, seq<string>>)
    returns (incoming: map<string, nat>, outgoing: map<string, seq<string>>, dangling: Option<string>)
    requires name in cfg && name in seen0 && seen0[name] == [] && Counted(incoming0, outgoing0, seen0)
    ensures dangling.None? ==> Counted(incoming, outgoing, seen0[name := Deps(cfg, name)])
    ensures dangling.None? ==> forall d :: d in Deps(cfg, name) ==> d in Nodes(cfg)
    ensures dangling.Some? ==> FirstUnknown(Deps(cfg, name), Nodes(cfg), dangling.value)
  {
    incoming, outgoing, dangling := incoming0, outgoing0, None;
    var deps := EffectiveDependsOn(cfg[name]);
    ghost var seen := seen0;
    for k := 0 to |deps|
      invariant seen == seen0[name := deps[..k]] && Counted(incoming, outgoing, seen)
      invariant forall j :: 0 <= j < k ==> deps[j] in Nodes(cfg)
    {
      var dep := deps[k];
      if dep != CODE && dep !in cfg {
        return incoming, outgoing, Some(dep);
      }
      CountOne(incoming, outgoing, seen, name, dep);
      assert deps[..k + 1] == deps[..k] + [dep];
      incoming := incoming[name := incoming[name] + 1];
      outgoing := outgoing[dep := Targets(outgoing, dep) + [name]];
      seen := seen[name := seen[name] + [dep]];
    }
    assert deps[..|deps|] == deps;
  }

  ghost function AllDeps(cfg: Config): map<string, seq<string>> {
    map n | n in Nodes(cfg) :: Deps(cfg, n)
  }

  ghost predicate LayerResolved(cfg: Config, name: string) {
    forall d :: d in Deps(cfg, name) ==> d in Nodes(cfg)
  }

  method CountEdges(cfg: Config)
    returns (incoming: map<string, nat>, outgoing: map<string, seq<string>>, error: Option<ConfigError>)
    ensures error.None? ==> Resolved(cfg) && Counted(incoming, outgoing, AllDeps(cfg))
    ensures error.Some? ==> error.value.DanglingRef? && FirstDangling(cfg, error.value.layer, error.value.target)
  {
    incoming, outgoing, error := map n | n in Nodes(cfg) :: 0, map[], None;
    StartCounted(cfg);
    var names := SortedNames(cfg.Keys);
    for i := 0 to |names|
      invariant Counted(incoming, outgoing, SeenAfter(cfg, names[..i]))
      invariant forall j :: 0 <= j < i ==> LayerResolved(cfg, names[j])
    {
      ghost var seen := SeenAfter(cfg, names[..i]);
      NextLayer(cfg, names, i);
      var dangling;
      incoming, outgoing, dangling := CountLayer(cfg, names[i], incoming, outgoing, seen);
      if dangling.Some? {
        EarlierResolve(cfg, names, i);
        return incoming, outgoing, Some(DanglingRef(names[i], dangling.value));
      }
    }
    assert names[..|names|] == names;
    AllCounted(cfg, names);
  }

  lemma StartCounted(cfg: Config)
    ensures Counted(map n | n in Nodes(cfg) :: 0, map[], SeenAfter(cfg, []))
  {
    var incoming: map<string, nat> := map n | n in Nodes(cfg) :: 0;
    var seen := SeenAfter(cfg, []);
    forall n
      ensures CountedAt(incoming, seen, n)
    {
    }
    forall n, dep
      ensures ListedAt(map[], seen, n, dep)
    {
      assert SeenOf(seen, n) == [];
    }
  }

  lemma AllCounted(cfg: Config, names: seq<string>)
    requires forall x :: x in names <==> x in cfg
    requires forall j :: 0 <= j < |names| ==> LayerResolved(cfg, names[j])
    ensures SeenAfter(cfg, names) == AllDeps(cfg) && Resolved(cfg)
  {
    forall name, target
      ensures !Dangling(cfg, name, target)
    {
      if name in cfg {
        var j :| 0 <= j < |names| && names[j] == name;
        assert LayerResolved(cfg, names[j]);
      }
    }
  }

  lemma NextLayer(cfg: Config, names: seq<string>, i: nat)
    requires Ascending(names) && i < |names| && names[i] in cfg
    ensures names[i] !in names[..i]
    ensures SeenAfter(cfg, names[..i + 1]) == SeenAfter(cfg, names[..i])[names[i] := Deps(cfg, names[i])]
  {
    LessIrreflexive(names[i]);
    assert names[..i + 1] == names[..i] + [names[i]];
  }

  /** When the layers before it resolve, a dangling layer is the least dangling one. */
  lemma EarlierResolve(cfg: Config, names: seq<string>, i: nat)
    requires Ascending(names) && i < |names| && forall x :: x in names <==> x in cfg
    requires forall j :: 0 <= j < i ==> LayerResolved(cfg, names[j])
    ensures forall other, t :: Dangling(cfg, other, t) ==> AtMost(names[i], other)
  {
    forall j, t | 0 <= j < i
      ensures !Dangling(cfg, names[j], t)
    {
      assert LayerResolved(cfg, names[j]);
    }
    forall other, t | Dangling(cfg, other, t)
      ensures AtMost(names[i], other)
    {
      var j :| 0 <= j < |names| && names[j] == other;
    }
  }

  // ---- The main loop ----------------------------------------------------------------------------

  ghost predicate PendingAt(cfg: Config, incoming: map<string, nat>, order: seq<string>, n: string) {
    n in incoming && incoming[n] == Pending(Deps(cfg, n), order)
  }

  /** Each count is the number of dependencies still to come. */
  ghost predicate CountsPending(cfg: Config, incoming: map<string, nat>, order: seq<string>) {
    incoming.Keys == Nodes(cfg) && forall n :: n in Nodes(cfg) ==> PendingAt(cfg, incoming, order, n)
  }

  /** The ready list is, in ascending order, every name left whose count is zero. */
  ghost predicate ReadyList(incoming: map<string, nat>, order: seq<string>, ready: seq<string>) {
    Ascending(ready) && forall x :: x in ready <==> x in incoming && incoming[x] == 0 && x !in order
  }

  ghost predicate DoneAreZero(incoming: map<string, nat>, order: seq<string>) {
    forall x :: x in order ==> x in incoming && incoming[x] == 0
  }

  lemma AscendingDistinct(s: seq<string>, x: string)
    requires Ascending(s) && x !in s
    ensures Distinct(s + [x])
  {
    forall i, j | 0 <= i < j < |s + [x]|
      ensures (s + [x])[i] != (s + [x])[j]
    {
      LessIrreflexive((s + [x])[i]);
    }
  }

  lemma PrefixCount(s: seq<string>, k: nat)
    requires k < |s|
    ensures multiset(s[..k + 1]) == multiset(s[..k]) + multiset{s[k]}
    ensures multiset(s[..k + 1])[s[k]] <= multiset(s)[s[k]]
  {
    assert s[..k + 1] == s[..k] + [s[k]];
    assert s == s[..k + 1] + s[k + 1..];
  }

  /** Decrements the counts of the targets and queues those that reach zero; no count
      goes below zero. */
  method Release(targets: seq<string>, incoming0: map<string, nat>, ready0: seq<string>, ghost order: seq<string>)
    returns (incoming: map<string, nat>, ready: seq<string>)
    requires ReadyList(incoming0, order, ready0) && DoneAreZero(incoming0, order)
    requires forall n :: n in targets ==> n in incoming0 && multiset(targets)[n] <= incoming0[n]
    ensures incoming.Keys == incoming0.Keys
    ensures forall n :: n in incoming ==> incoming[n] + multiset(targets)[n] == incoming0[n]
    ensures ReadyList(incoming, order, ready) && DoneAreZero(incoming, order)
  {
    incoming, ready := incoming0, ready0;
    for k := 0 to |targets|
      invariant incoming.Keys == incoming0.Keys
      invariant forall n :: n in incoming ==> incoming[n] + multiset(targets[..k])[n] == incoming0[n]
      invariant ReadyList(incoming, order, ready) && DoneAreZero(incoming, order)
    {
      var target := targets[k];
      PrefixCount(targets, k);
      assert target in targets;
      assert target !in order && target !in ready;
      incoming := incoming[target := incoming[target] - 1];
      if incoming[target] == 0 {
        AscendingDistinct(ready, target);
        SortAscends(ready + [target]);
        ready := Sort(ready + [target], Less);
      }
    }
    assert targets[..|targets|] == targets;
  }

  /** The state of the sort between two choices. */
  ghost predicate Sorting(cfg: Config, incoming: map<string, nat>, order: seq<string>, ready: seq<string>) {
    CountsPending(cfg, incoming, order) && ReadyList(incoming, order, ready) && Greedy(cfg, order)
  }

  lemma ReadyIsAvailable(cfg: Config, incoming: map<string, nat>, order: seq<string>, x: string)
    requires CountsPending(cfg, incoming, order)
    ensures x in incoming && incoming[x] == 0 && x !in order <==> Available(cfg, order, x)
  {
    if x in Nodes(cfg) {
      assert PendingAt(cfg, incoming, order, x);
      PendingZero(Deps(cfg, x), order);
    }
  }

  /** The first ready name is the least available one. */
  lemma FirstReadyIsLeast(cfg: Config, incoming: map<string, nat>, order: seq<string>, ready: seq<string>)
    requires Sorting(cfg, incoming, order, ready) && ready != []
    ensures Greedy(cfg, order + [ready[0]])
  {
    var node := ready[0];
    var order' := order + [node];
    ReadyIsAvailable(cfg, incoming, order, node);
    forall x | Available(cfg, order, x)
      ensures AtMost(node, x)
    {
      ReadyIsAvailable(cfg, incoming, order, x);
      var k :| 0 <= k < |ready| && ready[k] == x;
    }
    forall i | 0 <= i < |order'|
      ensures TakesLeast(cfg, order', i)
    {
      if i < |order| {
        assert TakesLeast(cfg, order, i);
        assert order'[..i] == order[..i];
      } else {
        assert order'[..i] == order;
      }
    }
  }

  /** Removing the first ready name keeps the list exact once the name is done. */
  lemma TakeFirst(incoming: map<string, nat>, order: seq<string>, ready: seq<string>)
    requires ReadyList(incoming, order, ready) && ready != []
    ensures ReadyList(incoming, order + [ready[0]], ready[1..])
  {
    LessIrreflexive(ready[0]);
    assert forall x :: x in ready <==> x == ready[0] || x in ready[1..];
  }

  lemma GreedyAreZero(cfg: Config, incoming: map<string, nat>, order: seq<string>, node: string)
    requires CountsPending(cfg, incoming, order) && Greedy(cfg, order + [node])
    ensures DoneAreZero(incoming, order + [node])
  {
    var order' := order + [node];
    GreedyRespects(cfg, order');
    forall x | x in order'
      ensures x in incoming && incoming[x] == 0
    {
      var i :| 0 <= i < |order'| && order'[i] == x;
      assert forall d :: d in Deps(cfg, x) ==> d in order'[..i];
      assert forall d :: d in order'[..i] ==> d in order;
      assert PendingAt(cfg, incoming, order, x);
      PendingZero(Deps(cfg, x), order);
    }
  }

  lemma TargetsPend(cfg: Config, incoming: map<string, nat>, outgoing: map<string, seq<string>>,
                    order: seq<string>, node: string, n: string)
    requires CountsPending(cfg, incoming, order) && node !in order
    requires ListedAt(outgoing, AllDeps(cfg), n, node)
    ensures n in Targets(outgoing, node) ==> n in incoming
    ensures n in incoming ==> multiset(Targets(outgoing, node))[n] <= incoming[n]
    ensures n in incoming ==>
              incoming[n] == Pending(Deps(cfg, n), order + [node]) + multiset(Targets(outgoing, node))[n]
  {
    if n in Nodes(cfg) {
      assert PendingAt(cfg, incoming, order, n);
      PendingAfter(Deps(cfg, n), order, node);
    } else {
      assert SeenOf(AllDeps(cfg), n) == [];
    }
  }

  ghost predicate AllListed(cfg: Config, outgoing: map<string, seq<string>>) {
    forall n, dep :: ListedAt(outgoing, AllDeps(cfg), n, dep)
  }

  /** Takes the first ready name and releases what waited for it. */
  method TakeNext(cfg: Config, incoming0: map<string, nat>, outgoing: map<string, seq<string>>,
                  order0: seq<string>, ready0: seq<string>)
    returns (incoming: map<string, nat>, order: seq<string>, ready: seq<string>)
    requires Sorting(cfg, incoming0, order0, ready0) && ready0 != [] && AllListed(cfg, outgoing)
    ensures Sorting(cfg, incoming, order, ready) && order == order0 + [ready0[0]]
  {
    var node := ready0[0];
    order := order0 + [node];
    FirstReadyIsLeast(cfg, incoming0, order0, ready0);
    TakeFirst(incoming0, order0, ready0);
    GreedyAreZero(cfg, incoming0, order0, node);
    var targets := Targets(outgoing, node);
    forall n
      ensures n in targets ==> n in incoming0
      ensures n in incoming0 ==> multiset(targets)[n] <= incoming0[n]
      ensures n in incoming0 ==> incoming0[n] == Pending(Deps(cfg, n), order) + multiset(targets)[n]
    {
      assert ListedAt(outgoing, AllDeps(cfg), n, node);
      TargetsPend(cfg, incoming0, outgoing, order0, node, n);
    }
    incoming, ready := Release(targets, incoming0, ready0[1..], order);
  }

  lemma SortedLists(cfg: Config, outgoing: map<string, seq<string>>)
    requires AllListed(cfg, outgoing)
    ensures AllListed(cfg, map d | d in outgoing :: Sort(outgoing[d], Less))
  {
    var sorted := map d | d in outgoing :: Sort(outgoing[d], Less);
    forall n, dep
      ensures ListedAt(sorted, AllDeps(cfg), n, dep)
    {
      assert ListedAt(outgoing, AllDeps(cfg), n, dep);
      if dep in outgoing {
        SortKeepsElements(outgoing[dep], Less);
      }
    }
  }

  lemma {:induction false} PendingAll(deps: seq<string>)
    ensures Pending(deps, []) == |deps|
  {
    if deps != [] {
      PendingAll(deps[..|deps| - 1]);
    }
  }

  lemma StartSorting(cfg: Config, incoming: map<string, nat>, outgoing: map<string, seq<string>>, ready: seq<string>)
    requires Counted(incoming, outgoing, AllDeps(cfg)) && Ascending(ready)
    requires forall x :: x in ready <==> x in incoming && incoming[x] == 0
    ensures Sorting(cfg, incoming, [], ready)
  {
    forall n | n in Nodes(cfg)
      ensures PendingAt(cfg, incoming, [], n)
    {
      assert CountedAt(incoming, AllDeps(cfg), n);
      PendingAll(Deps(cfg, n));
    }
  }

  lemma {:induction false} ElementsFit(w: seq<string>)
    ensures |set x | x in w| <= |w|
  {
    if w != [] {
      ElementsFit(w[1..]);
      assert (set x | x in w) == (set x | x in w[1..]) + {w[0]};
    }
  }

  /** Nothing is left exactly when as many names are ordered as there are. */
  lemma CompleteIffCounts(order: seq<string>, nodes: set<string>)
    requires Distinct(order) && forall x :: x in order ==> x in nodes
    ensures |order| == |nodes| <==> forall x :: x in nodes ==> x in order
    ensures |order| <= |nodes|
  {
    PigeonHole(order, nodes);
    ElementsFit(order);
    var done := set x | x in order;
    if forall x :: x in nodes ==> x in order {
      assert done == nodes;
    } else {
      var x :| x in nodes && x !in order;
      PigeonHole(order, nodes - {x});
    }
  }

  /** When nothing is ready, exactly the names left over lead into a cycle. */
  lemma LeftOver(cfg: Config, incoming: map<string, nat>, order: seq<string>, x: string)
    requires Resolved(cfg) && Sorting(cfg, incoming, order, [])
    ensures x in incoming && incoming[x] > 0 <==> x in Nodes(cfg) && x !in order
    ensures x in Nodes(cfg) ==> (x !in order <==> ReachesCycle(cfg, x))
  {
    GreedyRespects(cfg, order);
    ReadyIsAvailable(cfg, incoming, order, x);
    if x in order {
      DoneIsZero(cfg, incoming, order, x);
      OrderedReachesNoCycle(cfg, order, x);
    } else if x in Nodes(cfg) {
      LeftAreStuck(cfg, incoming, order);
      StuckReachesCycle(cfg, (set n | n in Nodes(cfg) && n !in order), x);
    }
  }

  lemma DoneIsZero(cfg: Config, incoming: map<string, nat>, order: seq<string>, x: string)
    requires CountsPending(cfg, incoming, order) && Respects(cfg, order) && x in order && x in Nodes(cfg)
    ensures incoming[x] == 0
  {
    var i :| 0 <= i < |order| && order[i] == x;
    assert forall d :: d in Deps(cfg, x) ==> d in order[..i];
    assert PendingAt(cfg, incoming, order, x);
    PendingZero(Deps(cfg, x), order);
  }

  lemma LeftAreStuck(cfg: Config, incoming: map<string, nat>, order: seq<string>)
    requires Resolved(cfg) && Sorting(cfg, incoming, order, [])
    ensures Stuck(cfg, set n | n in Nodes(cfg) && n !in order)
  {
    var left := set n | n in Nodes(cfg) && n !in order;
    forall x | x in left
      ensures Waits(cfg, left, x)
    {
      ReadyIsAvailable(cfg, incoming, order, x);
      assert !Available(cfg, order, x);
      var d :| d in Deps(cfg, x) && d !in order;
      assert !Dangling(cfg, x, d);
      assert DependsOn(cfg, x, d) && d in left;
    }
  }

  /** Takes ready names until none is left. */
  method DrainReady(cfg: Config, incoming0: map<string, nat>, outgoing: map<string, seq<string>>, ready0: seq<string>)
    returns (incoming: map<string, nat>, order: seq<string>)
    requires Sorting(cfg, incoming0, [], ready0) && AllListed(cfg, outgoing)
    ensures Sorting(cfg, incoming, order, [])
  {
    var ready;
    incoming, order, ready := incoming0, [], ready0;
    while ready != []
      invariant Sorting(cfg, incoming, order, ready)
      decreases |Nodes(cfg)| - |order|
    {
      incoming, order, ready := TakeNext(cfg, incoming, outgoing, order, ready);
      GreedyRespects(cfg, order);
      CompleteIffCounts(order, Nodes(cfg));
    }
  }

  lemma DanglingIsUnresolved(cfg: Config, name: string, target: string)
    requires FirstDangling(cfg, name, target)
    ensures !Resolved(cfg)
  {
    assert Dangling(cfg, name, target);
  }

  /** Layer ordering is sound, complete and canonical. */
  method TopoOrder(cfg: Config) returns (r: Result<seq<string>, ConfigError>)
    ensures r.Ok? <==> Resolved(cfg) && Acyclic(cfg)
    ensures r.Ok? ==> IsLeastOrder(cfg, r.value)
    ensures r.Err? && r.error.DanglingRef? ==> FirstDangling(cfg, r.error.layer, r.error.target)
    ensures r.Err? && r.error.Cycle? ==>
              Resolved(cfg) && Ascending(r.error.layers) && r.error.layers != []
              && forall x :: x in r.error.layers <==> x in Nodes(cfg) && ReachesCycle(cfg, x)
  {
    var incoming, outgoing, error := CountEdges(cfg);
    if error.Some? {
      DanglingIsUnresolved(cfg, error.value.layer, error.value.target);
      return Err(error.value);
    }
    SortedLists(cfg, outgoing);
    var ready := SortedNames(set n | n in incoming && incoming[n] == 0);
    StartSorting(cfg, incoming, outgoing, ready);
    outgoing := map d | d in outgoing :: Sort(outgoing[d], Less);
    var order;
    incoming, order := DrainReady(cfg, incoming, outgoing, ready);
    GreedyRespects(cfg, order);
    CompleteIffCounts(order, Nodes(cfg));
    assert incoming.Keys == Nodes(cfg) && |incoming| == |incoming.Keys|;
    if |order| != |incoming| {
      var remaining := SortedNames(set n | n in incoming && incoming[n] > 0);
      LeftOverAll(cfg, incoming, order, remaining);
      return Err(Cycle(remaining));
    }
    SortSucceeds(cfg, order);
    r := Ok(order);
  }

  lemma LeftOverAll(cfg: Config, incoming: map<string, nat>, order: seq<string>, remaining: seq<string>)
    requires Resolved(cfg) && Sorting(cfg, incoming, order, [])
    requires forall x :: x in remaining <==> x in incoming && incoming[x] > 0
    requires exists x :: x in Nodes(cfg) && x !in order
    ensures remaining != [] && !Acyclic(cfg)
    ensures forall x :: x in remaining <==> x in Nodes(cfg) && ReachesCycle(cfg, x)
  {
    forall x
      ensures x in remaining <==> x in Nodes(cfg) && ReachesCycle(cfg, x)
    {
      LeftOver(cfg, incoming, order, x);
    }
    var x :| x in Nodes(cfg) && x !in order;
    LeftOver(cfg, incoming, order, x);
    var w, c :| Walk(cfg, w) && w[0] == x && Closed(cfg, c) && w[|w| - 1] == c[0];
  }

  lemma SortSucceeds(cfg: Config, order: seq<string>)
    requires Resolved(cfg) && Greedy(cfg, order) && forall x :: x in Nodes(cfg) ==> x in order
    ensures IsLeastOrder(cfg, order) && Acyclic(cfg)
  {
    GreedyRespects(cfg, order);
    OrderIsAcyclic(cfg, order);
    forall other | IsOrder(cfg, other)
      ensures LexAtMost(order, other)
    {
      GreedyIsLeast(cfg, order, other);
    }
  }
}
