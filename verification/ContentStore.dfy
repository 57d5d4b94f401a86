/** The revisioned content store: staged and published generations, document versions
    and the bounded window of retained revisions. */
module ContentStore {
  /** The content hash of a text document is a function of its text and is not repeated. */
  datatype Document = Text(text: string, version: nat) | Deleted(version: nat)

  datatype ContentMap = ContentMap(system: map<string, Document>, virtualFiles: map<string, Document>)

  const EMPTY := ContentMap(map[], map[])

  datatype Change =
    | Insert(path: string, text: string)
    | Delete(path: string)
    | InsertVirtual(path: string, text: string)
    | Forget(path: string)

  datatype Store = Store(
    generation: ContentMap,
    revision: nat,
    versionCounter: nat,
    retained: map<nat, ContentMap>,
    retainCap: nat)

  function NewStore(cap: nat): Store {
    Store(EMPTY, 0, 0, map[0 := EMPTY], cap)
  }

  // ---- Staging -------------------------------------------------------------------------

  /** A generation under construction, with the version counter it has reached. */
  datatype Staging = Staging(content: ContentMap, counter: nat)

  function Overlaid(s: Staging, c: Change): Staging {
    match c
    case Insert(path, text) =>
      Staging(s.content.(system := s.content.system[path := Text(text, s.counter + 1)]), s.counter + 1)
    case Delete(path) =>
      Staging(s.content.(system := s.content.system[path := Deleted(s.counter + 1)]), s.counter + 1)
    case InsertVirtual(path, text) =>
      Staging(s.content.(virtualFiles := s.content.virtualFiles[path := Text(text, s.counter + 1)]), s.counter + 1)
    case Forget(path) =>
      Staging(s.content.(system := s.content.system - {path}), s.counter)
  }

  function OverlaidAll(s: Staging, changes: seq<Change>): Staging {
    if changes == [] then s else Overlaid(OverlaidAll(s, changes[..|changes| - 1]), changes[|changes| - 1])
  }

  function StagedFrom(store: Store, changes: seq<Change>): Staging {
    OverlaidAll(Staging(store.generation, store.versionCounter), changes)
  }

  // ---- Publishing and retention -------------------------------------------------------------

  ghost predicate IsOldest(retained: map<nat, ContentMap>, r: nat) {
    r in retained && forall k :: k in retained ==> r <= k
  }

  lemma DropShrinks(retained: map<nat, ContentMap>, r: nat)
    requires r in retained
    ensures |retained - {r}| == |retained| - 1
  {
    assert (retained - {r}).Keys == retained.Keys - {r};
    assert |(retained - {r}).Keys| == |retained - {r}| && |retained.Keys| == |retained|;
  }

  lemma {:induction false} OldestExists(retained: map<nat, ContentMap>)
    requires retained != map[]
    ensures exists r :: IsOldest(retained, r)
    decreases |retained|
  {
    var k :| k in retained;
    var rest := retained - {k};
    assert forall j :: j in retained ==> j == k || j in rest;
    if forall j :: j in rest ==> k <= j {
      assert IsOldest(retained, k);
    } else {
      DropShrinks(retained, k);
      OldestExists(rest);
      var o :| IsOldest(rest, o);
      assert IsOldest(retained, o);
    }
  }

  ghost function Oldest(retained: map<nat, ContentMap>): (r: nat)
    requires retained != map[]
    ensures IsOldest(retained, r)
  {
    OldestExists(retained);
    var r :| IsOldest(retained, r);
    r
  }

  /** Evicts oldest entries until at most `cap` are left. */
  ghost function Evicted(retained: map<nat, ContentMap>, cap: nat): map<nat, ContentMap>
    decreases |retained|
  {
    if |retained| <= cap then retained
    else
      DropShrinks(retained, Oldest(retained));
      Evicted(retained - {Oldest(retained)}, cap)
  }

  /** The store after `content` becomes the next revision. */
  ghost function Published(store: Store, content: ContentMap): Store {
    var next := store.revision + 1;
    store.(generation := content, revision := next, retained := Evicted(store.retained[next := content], store.retainCap))
  }

  class ContentStore {
    var generation: ContentMap
    var revision: nat
    var versionCounter: nat
    var retained: map<nat, ContentMap>
    const retainCap: nat

    function State(): Store
      reads this
    {
      Store(generation, revision, versionCounter, retained, retainCap)
    }

    constructor (cap: nat)
      ensures State() == NewStore(cap)
    {
      generation, revision, versionCounter, retained, retainCap := EMPTY, 0, 0, map[0 := EMPTY], cap;
    }

    /** Builds the next generation; only the version counter moves. */
    method Stage(changes: seq<Change>) returns (content: ContentMap)
      modifies this`versionCounter
      ensures Staging(content, versionCounter) == StagedFrom(old(State()), changes)
    {
      content := generation;
      for i := 0 to |changes|
        invariant Staging(content, versionCounter) == StagedFrom(old(State()), changes[..i])
      {
        assert changes[..i + 1][..i] == changes[..i];
        match changes[i]
        case Insert(path, text) =>
          versionCounter := versionCounter + 1;
          content := content.(system := content.system[path := Text(text, versionCounter)]);
        case Delete(path) =>
          versionCounter := versionCounter + 1;
          content := content.(system := content.system[path := Deleted(versionCounter)]);
        case Forget(path) =>
          content := content.(system := content.system - {path});
        case InsertVirtual(path, text) =>
          versionCounter := versionCounter + 1;
          content := content.(virtualFiles := content.virtualFiles[path := Text(text, versionCounter)]);
      }
      assert changes[..|changes|] == changes;
    }

    method PublishStaged(content: ContentMap) returns (r: nat)
      modifies this
      ensures State() == Published(old(State()), content) && r == revision
    {
      generation := content;
      revision := revision + 1;
      RecordRetained();
      r := revision;
    }

    method RecordRetained()
      modifies this`retained
      ensures retained == Evicted(old(retained)[revision := generation], retainCap)
    {
      retained := retained[revision := generation];
      while |retained| > retainCap
        invariant Evicted(retained, retainCap) == Evicted(old(retained)[revision := generation], retainCap)
        decreases |retained|
      {
        OldestExists(retained);
        var oldest :| oldest in retained && forall k :: k in retained ==> oldest <= k;
        DropShrinks(retained, oldest);
        assert oldest == Oldest(retained);
        retained := retained - {oldest};
      }
    }

    /** One batch is one revision: the state reached is that of staging the changes and
        publishing the stage. */
    method ApplyBatch(changes: seq<Change>) returns (r: nat)
      modifies this
      ensures var staged := StagedFrom(old(State()), changes);
              State() == Published(old(State()).(versionCounter := staged.counter), staged.content)
      ensures r == revision == old(revision) + 1
    {
      var content := generation;
      for i := 0 to |changes|
        invariant Staging(content, versionCounter) == StagedFrom(old(State()), changes[..i])
        invariant State() == old(State()).(versionCounter := versionCounter)
      {
        assert changes[..i + 1][..i] == changes[..i];
        var s := Overlaid(Staging(content, versionCounter), changes[i]);
        content, versionCounter := s.content, s.counter;
      }
      assert changes[..|changes|] == changes;
      r := PublishStaged(content);
    }
  }
}
