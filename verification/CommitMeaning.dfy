/** What each kind of write does, said of the disk, the events and the registry: what a reader
    then sees at each path, when a commit fails, and what its delta announces. */
module CommitMeaning {
  import opened Wrappers
  import opened ContentStore
  import opened StoreRuns
  import opened Deltas
  import opened CommitPlan
  import opened CommitRuns
  import I = Identity
  import M = Matching
  import R = Reconcile
  import T = ReconcileTheorems
  import C = Classification
  import L = CodeLayer

  // ---- Watcher events -------------------------------------------------------------------

  /** The event says that a file without an unsaved buffer was created, changed or deleted. */
  predicate Tells(e: ChangeEvent, unsaved: set<string>, p: string) {
    match e
    case CreatedAt(q) => q == p && p !in unsaved
    case ChangedAt(q) => q == p && p !in unsaved
    case DeletedAt(q) => q == p && p !in unsaved
    case OtherAt(_) => false
    case Pathless => false
    case Rescan => false
  }

  /** The last event that tells of `p`. */
  ghost predicate LastTold(events: seq<ChangeEvent>, unsaved: set<string>, p: string, k: nat) {
    k < |events| && Tells(events[k], unsaved, p) && forall j :: k < j < |events| ==> !Tells(events[j], unsaved, p)
  }

  ghost predicate ToldOf(events: seq<ChangeEvent>, unsaved: set<string>, p: string) {
    exists e :: e in events && Tells(e, unsaved, p)
  }

  /** What is on the disk: the text of a readable file, else nothing. */
  function OnDisk(disk: string -> DiskRead, p: string): Reading {
    match disk(p)
    case Readable(text) => Content(text)
    case Missing => Tombstone
    case Unreadable => Tombstone
  }

  lemma {:induction false} PollWrites(events: seq<ChangeEvent>, unsaved: set<string>, disk: string -> DiskRead, p: string)
    ensures !ToldOf(events, unsaved, p) ==> LastWrite(PollChanges(events, unsaved, disk), p) == None
    ensures forall k: nat :: LastTold(events, unsaved, p, k) ==>
              LastWrite(PollChanges(events, unsaved, disk), p) ==
                Some(if events[k].DeletedAt? then Tombstone else OnDisk(disk, p))
  {
    if events != [] {
      var n := |events| - 1;
      PollWrites(events[..n], unsaved, disk, p);
      var before, all := PollChanges(events[..n], unsaved, disk), PollChanges(events, unsaved, disk);
      assert all != before ==> all[..|all| - 1] == before;
      forall k: nat | LastTold(events, unsaved, p, k)
        ensures LastWrite(all, p) == Some(if events[k].DeletedAt? then Tombstone else OnDisk(disk, p))
      {
        if k < n {
          assert LastTold(events[..n], unsaved, p, k);
          assert !Tells(events[n], unsaved, p);
        }
      }
      if !ToldOf(events, unsaved, p) {
        assert !Tells(events[n], unsaved, p);
      }
    }
  }

  lemma {:induction false} LastTellerExists(events: seq<ChangeEvent>, unsaved: set<string>, p: string) returns (k: nat)
    requires ToldOf(events, unsaved, p)
    ensures LastTold(events, unsaved, p, k)
  {
    var n := |events| - 1;
    if Tells(events[n], unsaved, p) {
      k := n;
    } else {
      k := LastTellerExists(events[..n], unsaved, p);
    }
  }

  lemma {:induction false} SurvivingTells(events: seq<ChangeEvent>, unsaved: set<string>, p: string)
    ensures (exists e :: e in Surviving(events, unsaved) && EventPath(e) == Some(p)) <==> ToldOf(events, unsaved, p)
  {
    if events != [] {
      var n := |events| - 1;
      SurvivingTells(events[..n], unsaved, p);
      assert Survives(events[n], unsaved) && EventPath(events[n]) == Some(p) <==> Tells(events[n], unsaved, p);
      assert forall e :: e in events <==> e in events[..n] || e == events[n];
      assert forall e :: e in Surviving(events, unsaved) <==>
          e in Surviving(events[..n], unsaved) || (e == events[n] && Survives(events[n], unsaved));
    }
  }

  lemma {:induction false} SurvivorsHavePaths(events: seq<ChangeEvent>, unsaved: set<string>)
    ensures forall e :: e in Surviving(events, unsaved) ==> EventPath(e).Some?
  {
    if events != [] {
      SurvivorsHavePaths(events[..|events| - 1], unsaved);
    }
  }

  /** The scope of a set of changed paths: its source files, or none at all. */
  ghost predicate ScopedBy(scope: Option<set<string>>, isSource: string -> bool, changed: string -> bool) {
    if exists p :: changed(p) && isSource(p) then scope.Some? && forall p :: p in scope.value <==> changed(p) && isSource(p)
    else scope == None
  }

  lemma ScopeMeans(events: seq<ChangeEvent>, isSource: string -> bool, changed: string -> bool)
    requires forall p :: changed(p) <==> exists e :: e in events && EventPath(e) == Some(p)
    ensures ScopedBy(ScopeOf(events, isSource), isSource, changed)
  {
    var scope := set e | e in events && EventPath(e).Some? && isSource(EventPath(e).value) :: EventPath(e).value;
    forall p
      ensures p in scope <==> changed(p) && isSource(p)
    {
      if changed(p) && isSource(p) {
        var e :| e in events && EventPath(e) == Some(p);
      }
    }
    if p :| changed(p) && isSource(p) {
      assert p in scope;
    }
  }

  // ---- Polls ----------------------------------------------------------------------------------

  /** A poll with no call for a rescan plans a commit exactly if some event tells of a path. At
      each such path the content is then what its last event says, the disk or nothing; every
      other path reads as before, and those paths are what is touched. */
  lemma PollPicksUp(s: HeadState, events: seq<ChangeEvent>, w: World)
    requires Rescan !in events
    ensures PlanOf(s, Poll(events), w).Ok?
    ensures PlanOf(s, Poll(events), w).value.Some? <==> exists p :: ToldOf(events, s.unsaved, p)
    ensures PlanOf(s, Poll(events), w).value.Some? ==>
              var plan := PlanOf(s, Poll(events), w).value.value.plan;
              && (forall p, k: nat :: LastTold(events, s.unsaved, p, k) ==>
                    Read(plan.content, p) == if events[k].DeletedAt? then Tombstone else OnDisk(w.disk, p))
              && (forall p :: !ToldOf(events, s.unsaved, p) ==> Read(plan.content, p) == Read(s.store.generation, p))
              && (forall p :: p in plan.touched <==> ToldOf(events, s.unsaved, p))
              && ScopedBy(plan.scope, w.isSource, p => ToldOf(events, s.unsaved, p))
              && plan.reconcile && !plan.rescan
  {
    var kept := Surviving(events, s.unsaved);
    SurvivorsHavePaths(events, s.unsaved);
    forall p
      ensures (exists e :: e in kept && EventPath(e) == Some(p)) <==> ToldOf(events, s.unsaved, p)
    {
      SurvivingTells(events, s.unsaved, p);
    }
    if kept != [] {
      assert kept[0] in kept && EventPath(kept[0]).Some?;
      assert ToldOf(events, s.unsaved, EventPath(kept[0]).value);
      ScopeMeans(kept, w.isSource, p => ToldOf(events, s.unsaved, p));
      PollReads(s, events, w);
    }
  }

  lemma PollReads(s: HeadState, events: seq<ChangeEvent>, w: World)
    ensures var content := StagedFrom(s.store, PollChanges(events, s.unsaved, w.disk)).content;
            && (forall p, k: nat :: LastTold(events, s.unsaved, p, k) ==>
                  Read(content, p) == if events[k].DeletedAt? then Tombstone else OnDisk(w.disk, p))
            && (forall p :: !ToldOf(events, s.unsaved, p) ==> Read(content, p) == Read(s.store.generation, p))
  {
    var changes := PollChanges(events, s.unsaved, w.disk);
    forall p
      ensures !ToldOf(events, s.unsaved, p) ==> LastWrite(changes, p) == None
      ensures forall k: nat :: LastTold(events, s.unsaved, p, k) ==>
                LastWrite(changes, p) == Some(if events[k].DeletedAt? then Tombstone else OnDisk(w.disk, p))
      ensures Read(StagedFrom(s.store, changes).content, p) ==
              match LastWrite(changes, p) case Some(r) => r case None => Read(s.store.generation, p)
    {
      PollWrites(events, s.unsaved, w.disk, p);
      StageReads(Staging(s.store.generation, s.store.versionCounter), changes, p);
    }
  }

  /** A poll that calls for a rescan leaves the content and asks for everything. */
  lemma PollRescans(s: HeadState, events: seq<ChangeEvent>, w: World)
    requires Rescan in events
    ensures Reconciles(s, Poll(events), w)
    ensures var plan := PlanIn(s, Poll(events), w);
            plan.content == s.store.generation && plan.rescan && plan.scope == None && plan.touched == {}
  {
  }

  // ---- Syncs --------------------------------------------------------------------------------------

  /** Syncing a path makes it read as the disk, whether or not it had an unsaved buffer. */
  lemma SyncPathReads(s: HeadState, path: string, w: World)
    ensures Reconciles(s, SyncPath(path), w)
    ensures var plan := PlanIn(s, SyncPath(path), w);
            && (forall p :: Read(plan.content, p) == if p == path then OnDisk(w.disk, p) else Read(s.store.generation, p))
            && plan.touched == {path} && (plan.rescan <==> w.isConfig(path))
            && (plan.scope == if !w.isConfig(path) && w.isSource(path) then Some({path}) else None)
  {
    var st := Staging(s.store.generation, s.store.versionCounter);
    var change := DiskChange(path, w.disk(path));
    forall p
      ensures Read(StagedFrom(s.store, [change]).content, p) == if p == path then OnDisk(w.disk, p) else Read(s.store.generation, p)
    {
      assert [change][..0] == [];
      StageReads(st, [change], p);
    }
    var event := SyncEvent(path, w.disk);
    assert EventPath(event) == Some(path) && forall e :: e in [event] <==> e == event;
    ScopeMeans([event], w.isSource, p => p == path);
    assert w.isSource(path) ==> ScopeOf([event], w.isSource).value == {path};
  }

  lemma {:induction false} ReingestWrites(walked: seq<string>, unsaved: set<string>, disk: string -> DiskRead, p: string)
    ensures LastWrite(ReingestChanges(walked, unsaved, disk), p) ==
            if p in walked && p !in unsaved && !disk(p).Unreadable? then Some(OnDisk(disk, p)) else None
  {
    if walked != [] {
      var n := |walked| - 1;
      ReingestWrites(walked[..n], unsaved, disk, p);
      var before, all := ReingestChanges(walked[..n], unsaved, disk), ReingestChanges(walked, unsaved, disk);
      assert all != before ==> all[..|all| - 1] == before;
      assert p in walked <==> p in walked[..n] || p == walked[n];
    }
  }

  /** A full sync makes every walked path read as the disk, except those with an unsaved
      buffer and those that cannot be read. */
  lemma SyncAllReads(s: HeadState, w: World)
    ensures Reconciles(s, SyncAll, w)
    ensures var plan := PlanIn(s, SyncAll, w);
            && (forall p :: Read(plan.content, p) ==
                  if p in w.walked && p !in s.unsaved && !w.disk(p).Unreadable? then OnDisk(w.disk, p)
                  else Read(s.store.generation, p))
            && plan.rescan && plan.scope == None && plan.touched == {}
  {
    var changes := ReingestChanges(w.walked, s.unsaved, w.disk);
    forall p
      ensures Read(StagedFrom(s.store, changes).content, p) ==
              if p in w.walked && p !in s.unsaved && !w.disk(p).Unreadable? then OnDisk(w.disk, p)
              else Read(s.store.generation, p)
    {
      ReingestWrites(w.walked, s.unsaved, w.disk, p);
      StageReads(Staging(s.store.generation, s.store.versionCounter), changes, p);
    }
  }

  /** An edit makes each path read as its last change says, in the scope of its events. */
  lemma EditReads(s: HeadState, m: Mutation, w: World)
    requires m.Overlay?
    ensures Reconciles(s, m, w)
    ensures var plan := PlanIn(s, m, w);
            && (forall p :: Read(plan.content, p) ==
                  match LastWrite(m.changes, p) case Some(r) => r case None => Read(s.store.generation, p))
            && plan.touched == m.touched && !plan.rescan
            && ScopedBy(plan.scope, w.isSource, p => exists e :: e in m.events && EventPath(e) == Some(p))
  {
    forall p
      ensures Read(StagedFrom(s.store, m.changes).content, p) ==
              match LastWrite(m.changes, p) case Some(r) => r case None => Read(s.store.generation, p)
    {
      StageReads(Staging(s.store.generation, s.store.versionCounter), m.changes, p);
    }
    ScopeMeans(m.events, w.isSource, p => exists e :: e in m.events && EventPath(e) == Some(p));
  }

  // ---- The state after a commit -----------------------------------------------------------------------

  /** A commit fails exactly if its write is invalid or one of the steps that it reaches fails. */
  lemma FailsIff(s: HeadState, m: Mutation, w: World, produced: L.Layer)
    ensures Committed(s, m, w, produced).result.Err? <==>
            if m.Author? then m.layer !in s.authoredLayers || m.id !in s.registry.byId
                              || w.failing * {AuthoredSerialise, AuthoredFault, AuthoredWrite} != {}
            else PlanOf(s, m, w).value.Some? && w.failing * {CodeLayerFault, IdentityFault, IdentitySerialise, IdentityWrite} != {}
  {
    var coded, filed := w.failing * {CodeLayerFault, IdentityFault, IdentitySerialise, IdentityWrite},
      w.failing * {AuthoredSerialise, AuthoredFault, AuthoredWrite};
    assert coded == {} <==> (CodeLayerFault !in w.failing && IdentityFault !in w.failing && IdentitySerialise !in w.failing
                             && IdentityWrite !in w.failing) by {
      assert forall x :: x in coded <==> x in w.failing && x in {CodeLayerFault, IdentityFault, IdentitySerialise, IdentityWrite};
    }
    assert filed == {} <==> AuthoredSerialise !in w.failing && AuthoredFault !in w.failing && AuthoredWrite !in w.failing by {
      assert forall x :: x in filed <==> x in w.failing && x in {AuthoredSerialise, AuthoredFault, AuthoredWrite};
    }
  }

  /** After a successful commit the store holds the planned content, and a path is unsaved iff
      it was edited now, or was unsaved before and was not synced now. */
  lemma UnsavedAfter(s: HeadState, m: Mutation, w: World, produced: L.Layer)
    requires Succeeded(Committed(s, m, w, produced))
    ensures var s' := Committed(s, m, w, produced).state;
            && s'.store.generation == PlanOf(s, m, w).value.value.plan.content && s'.store.revision == s.store.revision + 1
            && forall p :: p in s'.unsaved <==>
                 if m.Overlay? && p in m.unsaved then true else p in s.unsaved && m != SyncPath(p)
  {
    ConcludedContent(s, PlanOf(s, m, w), w, produced, EffectsOf(w));
  }

  /** The head after an authored plan has gone through. */
  lemma AuthoredPlanRuns(s: HeadState, ap: AuthoredPlan, w: World, produced: L.Layer, fx: Effects)
    requires AuthoredFault !in w.failing && AuthoredWrite !in w.failing
    ensures var plan := Plan(s.store.generation, {}, false, None, false, Some(ap), {}, {});
            var o := Concluded(s, Ok(Some(Planned(plan, s.store.versionCounter))), w, produced, fx);
            && o.result == Ok(Some(AuthoredDelta(s.store.revision + 1, plan, w)))
            && o.state.authored == s.authored[ap.key := ap.record] && o.state.recordFiles == s.recordFiles[ap.key := ap.record]
            && o.state.registry == s.registry && o.state.layer == s.layer && o.state.store.generation == s.store.generation
  {
  }

  /** An authored write records the value under the revision it makes and the hash that the
      entity has now, keeps the record before it if its layer keeps history, and touches no
      other record, no content, no identity and no layer. */
  lemma AuthorRecords(s: HeadState, m: Mutation, w: World, produced: L.Layer)
    requires m.Author? && Committed(s, m, w, produced).result.Ok?
    ensures m.layer in s.authoredLayers && m.id in s.registry.byId
    ensures var o := Committed(s, m, w, produced); var key := (m.layer, m.id);
            && o.result.value.Some? && key in o.state.authored
            && o.state.authored == s.authored[key := o.state.authored[key]]
            && o.state.authored[key].current == Version(m.value, s.store.revision + 1, s.registry.byId[m.id].hash)
            && o.state.authored[key].history ==
               (if key in s.authored && s.authoredLayers[m.layer] then s.authored[key].history + [s.authored[key].current] else [])
            && o.state.registry == s.registry && o.state.layer == s.layer && o.state.store.generation == s.store.generation
    ensures var d := Committed(s, m, w, produced).result.value.value;
            && d.authored == {L.EntityId(m.id)} && d.changed == {} && d.created == {} && d.deleted == {} && d.moved == {}
            && d.affected == {}
  {
    FailsIff(s, m, w, produced);
    AuthoredPlanRuns(s, AuthoredPlan((m.layer, m.id), NextRecord(s, m.layer, m.id, m.value)), w, produced, EffectsOf(w));
    assert EntityIds({m.id}) == {L.EntityId(m.id)};
  }
}
