/** What holds of the content store over every run of stages, publications and batches,
    stages that are dropped included. */
module StoreRuns {
  import opened Wrappers
  import opened Orders
  import opened ContentStore

  // ---- The last change to a path wins ------------------------------------------------------

  /** What a reader of the overlay sees at a path. */
  datatype Reading = FallThrough | Tombstone | Content(text: string)

  function Read(content: ContentMap, path: string): Reading {
    if path !in content.system then FallThrough
    else match content.system[path]
      case Text(text, _) => Content(text)
      case Deleted(_) => Tombstone
  }

  /** What the last change to `path`, if any, makes of it. */
  function LastWrite(changes: seq<Change>, path: string): Option<Reading> {
    if changes == [] then None
    else
      match changes[|changes| - 1]
      case Insert(p, text) => if p == path then Some(Content(text)) else LastWrite(changes[..|changes| - 1], path)
      case Delete(p) => if p == path then Some(Tombstone) else LastWrite(changes[..|changes| - 1], path)
      case Forget(p) => if p == path then Some(FallThrough) else LastWrite(changes[..|changes| - 1], path)
      case InsertVirtual(_, _) => LastWrite(changes[..|changes| - 1], path)
  }

  lemma {:induction false} StageReads(s: Staging, changes: seq<Change>, path: string)
    ensures Read(OverlaidAll(s, changes).content, path) ==
            match LastWrite(changes, path) case Some(r) => r case None => Read(s.content, path)
  {
    if changes != [] {
      StageReads(s, changes[..|changes| - 1], path);
    }
  }

  function ReadVirtual(content: ContentMap, path: string): Reading {
    if path !in content.virtualFiles then FallThrough
    else match content.virtualFiles[path]
      case Text(text, _) => Content(text)
      case Deleted(_) => Tombstone
  }

  predicate InsertsVirtual(c: Change, path: string) {
    c.InsertVirtual? && c.path == path
  }

  /** A virtual file reads as its last insertion says. */
  lemma {:induction false} StageReadsVirtual(s: Staging, changes: seq<Change>, path: string, k: nat)
    requires k < |changes| && InsertsVirtual(changes[k], path)
    requires forall j :: k < j < |changes| ==> !InsertsVirtual(changes[j], path)
    ensures ReadVirtual(OverlaidAll(s, changes).content, path) == Content(changes[k].text)
  {
    var n := |changes| - 1;
    if k < n {
      assert !InsertsVirtual(changes[n], path);
      StageReadsVirtual(s, changes[..n], path, k);
    }
  }

  /** Without one it reads as before. */
  lemma {:induction false} StageKeepsVirtual(s: Staging, changes: seq<Change>, path: string)
    requires forall j :: 0 <= j < |changes| ==> !InsertsVirtual(changes[j], path)
    ensures ReadVirtual(OverlaidAll(s, changes).content, path) == ReadVirtual(s.content, path)
  {
    if changes != [] {
      assert !InsertsVirtual(changes[|changes| - 1], path);
      StageKeepsVirtual(s, changes[..|changes| - 1], path);
    }
  }

  // ---- Runs -----------------------------------------------------------------------------------

  datatype StoreOp = StageOnly(changes: seq<Change>) | PublishStage(k: nat) | Batch(changes: seq<Change>)

  /** A run so far: the store, every generation ever produced, the content published at
      each revision, and every document ever created. */
  datatype History = History(store: Store, produced: seq<ContentMap>, published: seq<ContentMap>, documents: set<Document>)

  function Created(s: Staging, c: Change): set<Document> {
    match c
    case Insert(_, text) => {Text(text, s.counter + 1)}
    case InsertVirtual(_, text) => {Text(text, s.counter + 1)}
    case Delete(_) => {Deleted(s.counter + 1)}
    case Forget(_) => {}
  }

  function CreatedAll(s: Staging, changes: seq<Change>): set<Document> {
    if changes == [] then {}
    else
      var n := |changes| - 1;
      CreatedAll(s, changes[..n]) + Created(OverlaidAll(s, changes[..n]), changes[n])
  }

  function Staged(h: History, changes: seq<Change>): History {
    var s := Staging(h.store.generation, h.store.versionCounter);
    var staged := OverlaidAll(s, changes);
    h.(store := h.store.(versionCounter := staged.counter),
       produced := h.produced + [staged.content],
       documents := h.documents + CreatedAll(s, changes))
  }

  ghost function PublishedNth(h: History, k: nat): History
    requires k < |h.produced|
  {
    h.(store := Published(h.store, h.produced[k]), published := h.published + [h.produced[k]])
  }

  /** Publishing names a generation that was staged, recently or long ago. */
  ghost function Step(h: History, op: StoreOp): History {
    match op
    case StageOnly(changes) => Staged(h, changes)
    case PublishStage(k) => if k < |h.produced| then PublishedNth(h, k) else h
    case Batch(changes) => PublishedNth(Staged(h, changes), |h.produced|)
  }

  ghost function Run(cap: nat, ops: seq<StoreOp>): History {
    if ops == [] then History(NewStore(cap), [EMPTY], [EMPTY], {})
    else Step(Run(cap, ops[..|ops| - 1]), ops[|ops| - 1])
  }

  // ---- Versions determine content ---------------------------------------------------------------

  function Documents(content: ContentMap): set<Document> {
    (set p | p in content.system :: content.system[p]) + (set p | p in content.virtualFiles :: content.virtualFiles[p])
  }

  /** Versions are at most the counter and name one document each. */
  ghost predicate Keyed(documents: set<Document>, counter: nat) {
    && (forall d :: d in documents ==> d.version <= counter)
    && forall d, d' :: d in documents && d' in documents && d.version == d'.version ==> d == d'
  }

  lemma OverlayKeepsKeyed(documents: set<Document>, s: Staging, c: Change)
    requires Keyed(documents, s.counter) && Documents(s.content) <= documents
    ensures Keyed(documents + Created(s, c), Overlaid(s, c).counter)
    ensures Documents(Overlaid(s, c).content) <= documents + Created(s, c)
  {
    var after := Overlaid(s, c).content;
    forall d | d in Documents(after)
      ensures d in documents + Created(s, c)
    {
      assert d in Documents(s.content) || d in Created(s, c);
    }
  }

  lemma {:induction false} StageKeepsKeyed(documents: set<Document>, s: Staging, changes: seq<Change>)
    requires Keyed(documents, s.counter) && Documents(s.content) <= documents
    ensures Keyed(documents + CreatedAll(s, changes), OverlaidAll(s, changes).counter)
    ensures Documents(OverlaidAll(s, changes).content) <= documents + CreatedAll(s, changes)
  {
    if changes == [] {
      assert documents + {} == documents;
    } else {
      var n := |changes| - 1;
      StageKeepsKeyed(documents, s, changes[..n]);
      var mid := OverlaidAll(s, changes[..n]);
      OverlayKeepsKeyed(documents + CreatedAll(s, changes[..n]), mid, changes[n]);
      assert documents + CreatedAll(s, changes) == documents + CreatedAll(s, changes[..n]) + Created(mid, changes[n]);
    }
  }

  /** Every generation ever produced holds known documents only. */
  ghost predicate Accounted(h: History) {
    && Keyed(h.documents, h.store.versionCounter)
    && h.store.generation in h.produced
    && forall g :: g in h.produced ==> Documents(g) <= h.documents
  }

  lemma StageKeepsAccounted(h: History, changes: seq<Change>)
    requires Accounted(h)
    ensures Accounted(Staged(h, changes))
  {
    StageKeepsKeyed(h.documents, Staging(h.store.generation, h.store.versionCounter), changes);
  }

  lemma {:induction false} RunIsAccounted(cap: nat, ops: seq<StoreOp>)
    ensures Accounted(Run(cap, ops))
  {
    if ops != [] {
      var h := Run(cap, ops[..|ops| - 1]);
      RunIsAccounted(cap, ops[..|ops| - 1]);
      match ops[|ops| - 1]
      case StageOnly(changes) => StageKeepsAccounted(h, changes);
      case PublishStage(k) =>
      case Batch(changes) => StageKeepsAccounted(h, changes);
    }
  }

  /** Across all generations that were ever staged, dropped or published, documents of
      equal version are equal. */
  lemma VersionsDetermineContent(cap: nat, ops: seq<StoreOp>, i: nat, j: nat, d: Document, d': Document)
    requires i < |Run(cap, ops).produced| && j < |Run(cap, ops).produced|
    requires d in Documents(Run(cap, ops).produced[i]) && d' in Documents(Run(cap, ops).produced[j])
    requires d.version == d'.version
    ensures d == d'
  {
    RunIsAccounted(cap, ops);
    var h := Run(cap, ops);
    assert h.produced[i] in h.produced && h.produced[j] in h.produced;
  }

  // ---- The retained window ------------------------------------------------------------------------

  /** The revisions from `lo` on, with the content published at each. */
  function Window(published: seq<ContentMap>, lo: nat): map<nat, ContentMap> {
    map r: nat | lo <= r < |published| :: published[r]
  }

  lemma {:induction false} WindowSize(published: seq<ContentMap>, lo: nat)
    requires lo <= |published|
    ensures |Window(published, lo)| == |published| - lo
    decreases |published| - lo
  {
    if lo == |published| {
      assert Window(published, lo) == map[];
    } else {
      WindowSize(published, lo + 1);
      assert Window(published, lo) - {lo} == Window(published, lo + 1);
      DropShrinks(Window(published, lo), lo);
    }
  }

  lemma {:induction false} EvictedWindow(published: seq<ContentMap>, lo: nat, cap: nat)
    requires lo <= |published|
    ensures |published| - lo <= cap ==> Evicted(Window(published, lo), cap) == Window(published, lo)
    ensures |published| - lo >= cap ==> Evicted(Window(published, lo), cap) == Window(published, |published| - cap)
    decreases |published| - lo
  {
    WindowSize(published, lo);
    if |published| - lo > cap {
      assert lo in Window(published, lo);
      assert Oldest(Window(published, lo)) == lo;
      assert Window(published, lo) - {lo} == Window(published, lo + 1);
      EvictedWindow(published, lo + 1, cap);
    }
  }

  /** How many revisions are retained: eviction first runs with the first publication. */
  function Kept(store: Store): nat {
    if store.revision == 0 then 1 else Min(store.revision + 1, store.retainCap)
  }

  ghost predicate Windowed(h: History) {
    && |h.published| == h.store.revision + 1
    && h.published[h.store.revision] == h.store.generation
    && h.store.retained == Window(h.published, |h.published| - Kept(h.store))
  }

  lemma PublishKeepsWindow(h: History, k: nat)
    requires Windowed(h) && k < |h.produced|
    ensures Windowed(PublishedNth(h, k))
  {
    var h' := PublishedNth(h, k);
    var lo := |h.published| - Kept(h.store);
    assert h.store.retained[h'.store.revision := h.produced[k]] == Window(h'.published, lo);
    EvictedWindow(h'.published, lo, h.store.retainCap);
  }

  lemma {:induction false} RunIsWindowed(cap: nat, ops: seq<StoreOp>)
    ensures Windowed(Run(cap, ops)) && Run(cap, ops).store.retainCap == cap
  {
    if ops == [] {
      assert Window([EMPTY], 0) == map[0 := EMPTY];
    } else {
      var h := Run(cap, ops[..|ops| - 1]);
      RunIsWindowed(cap, ops[..|ops| - 1]);
      match ops[|ops| - 1]
      case StageOnly(changes) =>
      case PublishStage(k) =>
        if k < |h.produced| {
          PublishKeepsWindow(h, k);
        }
      case Batch(changes) =>
        PublishKeepsWindow(Staged(h, changes), |h.produced|);
    }
  }

  /** `generation_at` answers with the content published at a revision. */
  ghost predicate TimeTravels(h: History, count: nat) {
    && (forall r :: r in h.store.retained <==> h.store.revision + 1 - count <= r <= h.store.revision)
    && forall r :: r in h.store.retained ==> r < |h.published| && h.store.retained[r] == h.published[r]
  }

  /** Over every run the store answers for exactly the last min(revision + 1, cap)
      revisions; only a cap of zero before the first publication is the exception. */
  lemma TimeTravelIff(cap: nat, ops: seq<StoreOp>)
    ensures var h := Run(cap, ops);
            TimeTravels(h, Min(h.store.revision + 1, cap)) <==> cap >= 1 || h.store.revision > 0
  {
    RunIsWindowed(cap, ops);
    WindowTravelsIff(Run(cap, ops));
  }

  lemma WindowTravelsIff(h: History)
    requires Windowed(h)
    ensures TimeTravels(h, Min(h.store.revision + 1, h.store.retainCap)) <==> h.store.retainCap >= 1 || h.store.revision > 0
  {
    if h.store.retainCap == 0 && h.store.revision == 0 {
      assert 0 in h.store.retained;
    }
  }

  /** Time travel: over every run, the answer for a revision is the content that was
      published at it, for exactly the revisions in the window; none for any other. */
  method GenerationAt(store: ContentStore, r: nat, ghost cap: nat, ghost ops: seq<StoreOp>) returns (g: Option<ContentMap>)
    requires store.State() == Run(cap, ops).store
    ensures var h := Run(cap, ops);
            && |h.published| == h.store.revision + 1
            && (g.Some? <==> |h.published| - Kept(h.store) <= r < |h.published|)
            && (g.Some? ==> g.value == h.published[r])
  {
    RunIsWindowed(cap, ops);
    g := if r in store.retained then Some(store.retained[r]) else None;
  }
}
