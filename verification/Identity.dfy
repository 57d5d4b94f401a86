/** The identity registry: durable ids bound to last-known entity facts, with a
    path index and a hash index kept beside the authoritative store. */
module Identity {
  import opened Wrappers
  import opened Orders

  type DurableId = string
  type ContentHash = nat
  type Revision = nat

  datatype SymbolKind =
    | Module | Class | Function | Method | Constructor | Variable
    | Constant | Field | Parameter | Property | TypeParameter | Import

  datatype Status = Active | NeedsReview | Orphaned

  datatype Anchor = Anchor(
    id: DurableId,
    path: string,
    hash: ContentHash,
    kind: SymbolKind,
    firstSeen: Revision,
    lastSeen: Revision,
    status: Status)

  // ---- Qualified paths: `file::Outer::inner` ---------------------------------

  predicate SepAt(path: string, i: int) {
    0 <= i && i + 2 <= |path| && path[i] == ':' && path[i + 1] == ':'
  }

  function FirstSep(path: string, from: nat): (i: nat)
    ensures i < |path| ==> SepAt(path, i) && forall k :: from <= k < i ==> !SepAt(path, k)
    ensures i >= |path| ==> forall k :: from <= k ==> !SepAt(path, k)
    decreases |path| - from
  {
    if from >= |path| || SepAt(path, from) then from else FirstSep(path, from + 1)
  }

  function LastSep(path: string, upTo: nat): (i: int)
    ensures -1 <= i < upTo
    ensures i >= 0 ==> SepAt(path, i)
    ensures forall k :: i < k < upTo ==> !SepAt(path, k)
  {
    if upTo == 0 then -1
    else if SepAt(path, upTo - 1) then upTo - 1
    else LastSep(path, upTo - 1)
  }

  /** The file part of a qualified path: what precedes the first separator. */
  function AnchorFile(path: string): Option<string> {
    var i := FirstSep(path, 0);
    if i < |path| then Some(path[..i]) else None
  }

  /** The leaf name: what follows the last separator. */
  function LeafName(path: string): string {
    var i := LastSep(path, |path|);
    if i < 0 then path else path[i + 2..]
  }

  /** The enclosing qualified path: what precedes the last separator. */
  function Container(path: string): Option<string> {
    var i := LastSep(path, |path|);
    if i <= 0 then None else Some(path[..i])
  }

  // ---- The registry as a value ---------------------------------------------------

  datatype Registry = Registry(
    byId: map<DurableId, Anchor>,
    byPath: map<string, DurableId>,
    byHash: map<ContentHash, seq<DurableId>>)

  const EMPTY := Registry(map[], map[], map[])

  function ListAt(byHash: map<ContentHash, seq<DurableId>>, h: ContentHash): seq<DurableId> {
    if h in byHash then byHash[h] else []
  }

  function Without(s: seq<DurableId>, id: DurableId): seq<DurableId> {
    if s == [] then []
    else if s[0] == id then Without(s[1..], id)
    else [s[0]] + Without(s[1..], id)
  }

  function DropFromHash(byHash: map<ContentHash, seq<DurableId>>, h: ContentHash, id: DurableId)
    : map<ContentHash, seq<DurableId>>
  {
    if h !in byHash then byHash
    else
      var ids := Without(byHash[h], id);
      if ids == [] then byHash - {h} else byHash[h := ids]
  }

  /** Binds an anchor, first dropping the index entries of an anchor with the same id. */
  function Inserted(reg: Registry, a: Anchor): Registry {
    var r := if a.id !in reg.byId then reg
             else Registry(reg.byId, reg.byPath - {reg.byId[a.id].path},
                           DropFromHash(reg.byHash, reg.byId[a.id].hash, a.id));
    Registry(r.byId[a.id := a], r.byPath[a.path := a.id],
             r.byHash[a.hash := ListAt(r.byHash, a.hash) + [a.id]])
  }

  /** Rebinding is inserting the same anchor with a new path, hash and revision. */
  function Rebound(reg: Registry, id: DurableId, path: string, hash: ContentHash, rev: Revision): Registry {
    if id !in reg.byId then reg
    else Inserted(reg, reg.byId[id].(path := path, hash := hash, lastSeen := rev))
  }

  function Retired(reg: Registry, id: DurableId, rev: Revision): Registry {
    if id !in reg.byId || reg.byId[id].status == Orphaned then reg
    else reg.(byId := reg.byId[id := reg.byId[id].(lastSeen := rev, status := Orphaned)],
              byPath := reg.byPath - {reg.byId[id].path})
  }

  function WithStatus(reg: Registry, id: DurableId, status: Status): Registry {
    if id !in reg.byId then reg
    else reg.(byId := reg.byId[id := reg.byId[id].(status := status)])
  }

  // ---- What the mutators do, entry by entry -------------------------------------------------

  /** Inserting stores the anchor and indexes its path, and drops the path entry of an anchor
      with the same id; nothing else changes. */
  lemma InsertedMeans(reg: Registry, a: Anchor)
    ensures var r := Inserted(reg, a);
            && (forall id :: id in r.byId <==> id in reg.byId || id == a.id)
            && (forall id :: id in r.byId ==> r.byId[id] == if id == a.id then a else reg.byId[id])
            && (forall p :: p in r.byPath <==> p == a.path || (p in reg.byPath && (a.id in reg.byId ==> reg.byId[a.id].path != p)))
            && (forall p :: p in r.byPath ==> r.byPath[p] == if p == a.path then a.id else reg.byPath[p])
  {
  }

  /** Rebinding moves a known anchor to a new path, hash and revision and keeps the rest of it. */
  lemma ReboundMeans(reg: Registry, id: DurableId, path: string, hash: ContentHash, rev: Revision)
    requires id in reg.byId && reg.byId[id].id == id
    ensures var r := Rebound(reg, id, path, hash, rev); var a := reg.byId[id];
            && r.byId == reg.byId[id := Anchor(id, path, hash, a.kind, a.firstSeen, rev, a.status)]
            && (forall p :: p in r.byPath <==> p == path || (p in reg.byPath && p != a.path))
            && (forall p :: p in r.byPath ==> r.byPath[p] == if p == path then id else reg.byPath[p])
  {
  }

  /** Retiring keeps the anchor as an orphan seen now and drops the entry of its path; retiring
      an orphan, or an unknown id, changes nothing. */
  lemma RetiredMeans(reg: Registry, id: DurableId, rev: Revision)
    ensures var r := Retired(reg, id, rev);
            if id in reg.byId && reg.byId[id].status != Orphaned
            then
              var a := reg.byId[id];
              && r.byId == reg.byId[id := Anchor(a.id, a.path, a.hash, a.kind, a.firstSeen, rev, Orphaned)]
              && (forall p :: p in r.byPath <==> p in reg.byPath && p != a.path)
              && (forall p :: p in r.byPath ==> r.byPath[p] == reg.byPath[p]) && r.byHash == reg.byHash
            else r == reg
  {
  }

  // ---- Index invariant ------------------------------------------------------------

  /** How many times `id` is listed under hash `h`. */
  ghost function Listed(reg: Registry, h: ContentHash, id: DurableId): nat {
    multiset(ListAt(reg.byHash, h))[id]
  }

  /** Every anchor is listed exactly once, under its current hash; no hash keeps an
      empty list; every path entry points to an anchor that stores that path. */
  ghost predicate Indexed(reg: Registry) {
    && (forall id :: id in reg.byId ==> reg.byId[id].id == id)
    && (forall h :: h in reg.byHash ==> reg.byHash[h] != [])
    && (forall h, id :: Listed(reg, h, id) == if id in reg.byId && reg.byId[id].hash == h then 1 else 0)
    && (forall p :: p in reg.byPath ==> reg.byPath[p] in reg.byId && reg.byId[reg.byPath[p]].path == p)
  }

  ghost predicate Live(reg: Registry, id: DurableId) {
    id in reg.byId && reg.byId[id].status != Orphaned
  }

  /** The path index lists exactly the live anchors, each under its own path. */
  ghost predicate PathExact(reg: Registry) {
    forall id :: id in reg.byId ==>
      (Live(reg, id) <==> reg.byId[id].path in reg.byPath && reg.byPath[reg.byId[id].path] == id)
  }

  lemma {:induction false} WithoutCount(s: seq<DurableId>, id: DurableId)
    ensures forall x :: multiset(Without(s, id))[x] == if x == id then 0 else multiset(s)[x]
  {
    if s != [] {
      WithoutCount(s[1..], id);
      assert s == [s[0]] + s[1..];
    }
  }

  lemma HashListed(reg: Registry, h: ContentHash, id: DurableId)
    requires Indexed(reg)
    ensures id in ListAt(reg.byHash, h) <==> id in reg.byId && reg.byId[id].hash == h
  {
    assert Listed(reg, h, id) == if id in reg.byId && reg.byId[id].hash == h then 1 else 0;
    assert id in ListAt(reg.byHash, h) <==> id in multiset(ListAt(reg.byHash, h));
  }

  lemma DropCount(byHash: map<ContentHash, seq<DurableId>>, was: ContentHash, id: DurableId, h: ContentHash, x: DurableId)
    ensures multiset(ListAt(DropFromHash(byHash, was, id), h))[x] ==
            if h == was && x == id then 0 else multiset(ListAt(byHash, h))[x]
  {
    if was in byHash {
      WithoutCount(byHash[was], id);
    }
  }

  lemma InsertedListed(reg: Registry, a: Anchor, h: ContentHash, id: DurableId)
    requires Indexed(reg)
    ensures Listed(Inserted(reg, a), h, id) ==
            if id == a.id then (if h == a.hash then 1 else 0) else Listed(reg, h, id)
  {
    assert Listed(reg, h, a.id) == if a.id in reg.byId && reg.byId[a.id].hash == h then 1 else 0;
    if a.id in reg.byId {
      DropCount(reg.byHash, reg.byId[a.id].hash, a.id, h, id);
    }
  }

  lemma InsertedKeepsIndexes(reg: Registry, a: Anchor)
    requires Indexed(reg)
    ensures Indexed(Inserted(reg, a))
  {
    var r := Inserted(reg, a);
    forall h, id
      ensures Listed(r, h, id) == if id in r.byId && r.byId[id].hash == h then 1 else 0
    {
      InsertedListed(reg, a, h, id);
      assert Listed(reg, h, id) == if id in reg.byId && reg.byId[id].hash == h then 1 else 0;
    }
  }

  lemma StatusKeepsIndexes(reg: Registry, id: DurableId, status: Status)
    requires Indexed(reg)
    ensures Indexed(WithStatus(reg, id, status))
  {
    var r := WithStatus(reg, id, status);
    forall h, x
      ensures Listed(r, h, x) == if x in r.byId && r.byId[x].hash == h then 1 else 0
    {
      assert Listed(reg, h, x) == if x in reg.byId && reg.byId[x].hash == h then 1 else 0;
    }
  }

  lemma RetiredKeepsIndexes(reg: Registry, id: DurableId, rev: Revision)
    requires Indexed(reg)
    ensures Indexed(Retired(reg, id, rev))
  {
    var r := Retired(reg, id, rev);
    forall h, x
      ensures Listed(r, h, x) == if x in r.byId && r.byId[x].hash == h then 1 else 0
    {
      assert Listed(reg, h, x) == if x in reg.byId && reg.byId[x].hash == h then 1 else 0;
    }
  }

  // ---- The mutable registry ----------------------------------------------------------

  class IdentityRegistry {
    var byId: map<DurableId, Anchor>
    var byPath: map<string, DurableId>
    var byHash: map<ContentHash, seq<DurableId>>

    ghost function State(): Registry
      reads this
    {
      Registry(byId, byPath, byHash)
    }

    /** The three indexes agree. */
    ghost predicate Valid()
      reads this
    {
      Indexed(State())
    }

    constructor ()
      ensures Valid() && State() == EMPTY
    {
      byId, byPath, byHash := map[], map[], map[];
    }

    /** Puts back an earlier state, as a rollback does. */
    method Restore(reg: Registry)
      requires Indexed(reg)
      modifies this
      ensures Valid() && State() == reg
    {
      byId, byPath, byHash := reg.byId, reg.byPath, reg.byHash;
    }

    method RemoveFromHashIndex(hash: ContentHash, id: DurableId)
      modifies this`byHash
      ensures byHash == DropFromHash(old(byHash), hash, id)
    {
      if hash in byHash {
        var kept: seq<DurableId> := [];
        var ids := byHash[hash];
        for i := 0 to |ids|
          invariant kept + Without(ids[i..], id) == Without(ids, id)
        {
          assert ids[i..][1..] == ids[i + 1..];
          if ids[i] != id {
            kept := kept + [ids[i]];
          }
        }
        assert kept == Without(ids, id);
        byHash := byHash[hash := kept];
        if kept == [] {
          byHash := byHash - {hash};
          assert byHash == old(byHash) - {hash};
        }
      }
    }

    method Insert(anchor: Anchor)
      requires Valid()
      modifies this
      ensures Valid() && State() == Inserted(old(State()), anchor)
    {
      InsertedKeepsIndexes(State(), anchor);
      if anchor.id in byId {
        var prior := byId[anchor.id];
        byPath := byPath - {prior.path};
        RemoveFromHashIndex(prior.hash, anchor.id);
      }
      byPath := byPath[anchor.path := anchor.id];
      byHash := byHash[anchor.hash := ListAt(byHash, anchor.hash) + [anchor.id]];
      byId := byId[anchor.id := anchor];
    }

    method Rebind(id: DurableId, path: string, hash: ContentHash, rev: Revision)
      requires Valid()
      modifies this
      ensures Valid() && State() == Rebound(old(State()), id, path, hash, rev)
    {
      if id !in byId {
        return;
      }
      var prior := byId[id];
      InsertedKeepsIndexes(State(), prior.(path := path, hash := hash, lastSeen := rev));
      byPath := byPath - {prior.path};
      RemoveFromHashIndex(prior.hash, id);
      byId := byId[id := prior.(path := path, hash := hash, lastSeen := rev)];
      byPath := byPath[path := id];
      byHash := byHash[hash := ListAt(byHash, hash) + [id]];
    }

    method Retire(id: DurableId, rev: Revision)
      requires Valid()
      modifies this
      ensures Valid() && State() == Retired(old(State()), id, rev)
    {
      RetiredKeepsIndexes(State(), id, rev);
      if id !in byId || byId[id].status == Orphaned {
        return;
      }
      var path := byId[id].path;
      byId := byId[id := byId[id].(lastSeen := rev, status := Orphaned)];
      byPath := byPath - {path};
    }

    method SetStatus(id: DurableId, status: Status)
      requires Valid()
      modifies this
      ensures Valid() && State() == WithStatus(old(State()), id, status)
    {
      StatusKeepsIndexes(State(), id, status);
      if id in byId {
        byId := byId[id := byId[id].(status := status)];
      }
    }
  }
}
