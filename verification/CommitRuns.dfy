/** What holds over every run of commits, whichever steps of them fail. */
module CommitRuns {
  import opened Wrappers
  import opened ContentStore
  import opened StoreRuns
  import opened Deltas
  import opened CommitPlan
  import L = CodeLayer

  /** A write, the world that it reads, and the layer that its producer would make. */
  datatype Attempt = Attempt(m: Mutation, w: World, produced: L.Layer)

  ghost function Tries(s: HeadState, a: Attempt): Outcome {
    Committed(s, a.m, a.w, a.produced)
  }

  ghost function Tried(s: HeadState, attempts: seq<Attempt>): HeadState {
    if attempts == [] then s
    else
      var n := |attempts| - 1;
      Tries(Tried(s, attempts[..n]), attempts[n]).state
  }

  predicate Succeeded(o: Outcome) {
    o.result.Ok? && o.result.value.Some?
  }

  // ---- Atomicity --------------------------------------------------------------------------

  /** Between commits the live overlay is the store's generation, and what is on disk is
      what is in memory. */
  ghost predicate InSync(s: HeadState) {
    s.overlay == s.store.generation && s.identityFile == s.registry.byId && s.recordFiles == s.authored
  }

  /** Nothing observable differs: revision, generation, retained window, registry, authored
      records, code layer, unsaved set, overlay and sidecar files are the same. */
  ghost predicate Untouched(s: HeadState, s': HeadState) {
    s' == s.(store := s.store.(versionCounter := s'.store.versionCounter)) && s.store.versionCounter <= s'.store.versionCounter
  }

  lemma {:induction false} StagingDraws(s: Staging, changes: seq<Change>)
    ensures s.counter <= OverlaidAll(s, changes).counter
  {
    if changes != [] {
      StagingDraws(s, changes[..|changes| - 1]);
    }
  }

  lemma PlanDraws(s: HeadState, m: Mutation, w: World)
    ensures var r := PlanOf(s, m, w); r.Ok? && r.value.Some? ==> s.store.versionCounter <= r.value.value.counter
  {
    var st := Staging(s.store.generation, s.store.versionCounter);
    match m
    case Overlay(changes, _, _, _) => StagingDraws(st, changes);
    case SyncPath(path) => StagingDraws(st, [DiskChange(path, w.disk(path))]);
    case SyncAll => StagingDraws(st, ReingestChanges(w.walked, s.unsaved, w.disk));
    case Author(_, _, _) =>
    case Poll(events) => StagingDraws(st, PollChanges(events, s.unsaved, w.disk));
  }

  /** Whatever was planned and whatever it does, concluding it is all or nothing. */
  lemma ConcludedIsAtomic(s: HeadState, planned: Result<Option<Planned>, Failure>, w: World, produced: L.Layer, fx: Effects)
    requires InSync(s)
    requires planned.Ok? && planned.value.Some? ==> s.store.versionCounter <= planned.value.value.counter
    ensures var o := Concluded(s, planned, w, produced, fx);
            && InSync(o.state)
            && (!Succeeded(o) ==> Untouched(s, o.state))
            && (Succeeded(o) ==> o.state.store.revision == s.store.revision + 1)
  {
  }

  /** A failed or no-op commit changes nothing observable; a successful one advances the
      revision by exactly one. Memory, overlay and disk are in step after either. */
  lemma CommitIsAtomic(s: HeadState, m: Mutation, w: World, produced: L.Layer)
    requires InSync(s)
    ensures var o := Committed(s, m, w, produced);
            && InSync(o.state)
            && (!Succeeded(o) ==> Untouched(s, o.state))
            && (Succeeded(o) ==> o.state.store.revision == s.store.revision + 1)
  {
    PlanDraws(s, m, w);
    ConcludedIsAtomic(s, PlanOf(s, m, w), w, produced, EffectsOf(w));
  }

  ghost function Successes(s: HeadState, attempts: seq<Attempt>): nat {
    if attempts == [] then 0
    else
      var n := |attempts| - 1;
      Successes(s, attempts[..n]) +
      if Succeeded(Tries(Tried(s, attempts[..n]), attempts[n])) then 1 else 0
  }

  /** Over every run with arbitrary failures, memory, overlay and disk stay in step and the
      revision counts the successful commits. */
  lemma {:induction false} RunsAreAtomic(s: HeadState, attempts: seq<Attempt>)
    requires InSync(s)
    ensures InSync(Tried(s, attempts)) && Tried(s, attempts).store.revision == s.store.revision + Successes(s, attempts)
  {
    if attempts != [] {
      var n := |attempts| - 1;
      RunsAreAtomic(s, attempts[..n]);
      CommitIsAtomic(Tried(s, attempts[..n]), attempts[n].m, attempts[n].w, attempts[n].produced);
    }
  }

  // ---- Unsaved buffers win ------------------------------------------------------------------

  /** An overlay edit writes text to exactly the paths it marks as unsaved. */
  ghost predicate EditsItsPaths(m: Mutation) {
    m.Overlay? ==> forall p :: if p in m.unsaved then LastWrite(m.changes, p).Some? && LastWrite(m.changes, p).value.Content?
                               else LastWrite(m.changes, p).None?
  }

  /** The text of the last successful overlay edit of each path. */
  ghost function Edited(edits: map<string, string>, m: Mutation): map<string, string>
    requires EditsItsPaths(m)
  {
    if m.Overlay? then edits + map p | p in m.unsaved :: LastWrite(m.changes, p).value.text else edits
  }

  ghost predicate AllEdit(attempts: seq<Attempt>) {
    forall k :: 0 <= k < |attempts| ==> EditsItsPaths(attempts[k].m)
  }

  ghost function Edits(s: HeadState, attempts: seq<Attempt>): map<string, string>
    requires AllEdit(attempts)
  {
    if attempts == [] then map[]
    else
      var n := |attempts| - 1;
      var before := Edits(s, attempts[..n]);
      if Succeeded(Tries(Tried(s, attempts[..n]), attempts[n])) then Edited(before, attempts[n].m) else before
  }

  /** The store holds the edited text of every unsaved path. */
  ghost predicate BuffersWin(unsaved: set<string>, content: ContentMap, edits: map<string, string>) {
    forall p :: p in unsaved ==> p in edits && Read(content, p) == Content(edits[p])
  }

  lemma {:induction false} ReingestSparesUnsaved(walked: seq<string>, unsaved: set<string>,
                                                 disk: string -> DiskRead, p: string)
    requires p in unsaved
    ensures LastWrite(ReingestChanges(walked, unsaved, disk), p) == None
  {
    if walked != [] {
      var n := |walked| - 1;
      var before, all := ReingestChanges(walked[..n], unsaved, disk), ReingestChanges(walked, unsaved, disk);
      ReingestSparesUnsaved(walked[..n], unsaved, disk, p);
      if all != before {
        assert all[..|all| - 1] == before;
      }
    }
  }

  lemma {:induction false} PollSparesUnsaved(events: seq<ChangeEvent>, unsaved: set<string>,
                                             disk: string -> DiskRead, p: string)
    requires p in unsaved
    ensures LastWrite(PollChanges(events, unsaved, disk), p) == None
  {
    if events != [] {
      var n := |events| - 1;
      var before, all := PollChanges(events[..n], unsaved, disk), PollChanges(events, unsaved, disk);
      PollSparesUnsaved(events[..n], unsaved, disk, p);
      if all != before {
        assert all[..|all| - 1] == before;
      }
    }
  }

  /** What a plan puts at a path that stays unsaved: the new edit, or what was there. */
  lemma PlanReads(s: HeadState, m: Mutation, w: World, p: string)
    requires EditsItsPaths(m) && PlanOf(s, m, w).Ok? && PlanOf(s, m, w).value.Some?
    ensures var plan := PlanOf(s, m, w).value.value.plan;
            p in s.unsaved + plan.unsavedInsert - plan.unsavedRemove ==>
              if m.Overlay? && p in m.unsaved then Read(plan.content, p) == LastWrite(m.changes, p).value
              else p in s.unsaved && Read(plan.content, p) == Read(s.store.generation, p)
  {
    var st := Staging(s.store.generation, s.store.versionCounter);
    match m
    case Overlay(changes, _, _, _) => StageReads(st, changes, p);
    case SyncPath(path) =>
      var change := DiskChange(path, w.disk(path));
      assert [change][..0] == [];
      StageReads(st, [change], p);
    case SyncAll =>
      if p in s.unsaved {
        ReingestSparesUnsaved(w.walked, s.unsaved, w.disk, p);
        StageReads(st, ReingestChanges(w.walked, s.unsaved, w.disk), p);
      }
    case Author(_, _, _) =>
    case Poll(events) =>
      if p in s.unsaved {
        PollSparesUnsaved(events, s.unsaved, w.disk, p);
        StageReads(st, PollChanges(events, s.unsaved, w.disk), p);
      }
  }

  /** Where the content of a concluded commit comes from. */
  lemma ConcludedContent(s: HeadState, planned: Result<Option<Planned>, Failure>, w: World, produced: L.Layer, fx: Effects)
    ensures var o := Concluded(s, planned, w, produced, fx);
            if Succeeded(o)
            then planned.Ok? && planned.value.Some?
                 && o.state.store.generation == planned.value.value.plan.content
                 && o.state.unsaved == s.unsaved + planned.value.value.plan.unsavedInsert - planned.value.value.plan.unsavedRemove
            else o.state.store.generation == s.store.generation && o.state.unsaved == s.unsaved
  {
  }

  lemma CommitKeepsBuffers(s: HeadState, m: Mutation, w: World, produced: L.Layer, edits: map<string, string>)
    requires EditsItsPaths(m) && BuffersWin(s.unsaved, s.store.generation, edits)
    ensures var o := Committed(s, m, w, produced);
            BuffersWin(o.state.unsaved, o.state.store.generation, if Succeeded(o) then Edited(edits, m) else edits)
  {
    ConcludedContent(s, PlanOf(s, m, w), w, produced, EffectsOf(w));
    if Succeeded(Committed(s, m, w, produced)) {
      PlannedBuffers(s, m, w, edits);
    }
  }

  lemma PlannedBuffers(s: HeadState, m: Mutation, w: World, edits: map<string, string>)
    requires EditsItsPaths(m) && BuffersWin(s.unsaved, s.store.generation, edits)
    requires PlanOf(s, m, w).Ok? && PlanOf(s, m, w).value.Some?
    ensures var plan := PlanOf(s, m, w).value.value.plan;
            BuffersWin(s.unsaved + plan.unsavedInsert - plan.unsavedRemove, plan.content, Edited(edits, m))
  {
    var plan := PlanOf(s, m, w).value.value.plan;
    forall p | p in s.unsaved + plan.unsavedInsert - plan.unsavedRemove
      ensures p in Edited(edits, m) && Read(plan.content, p) == Content(Edited(edits, m)[p])
    {
      PlanReads(s, m, w, p);
    }
  }

  /** Through any interleaving of edits, polls, rescans, full syncs, authored writes and
      failed commits, every unsaved path holds the text of its last successful edit. */
  lemma {:induction false} UnsavedBuffersWin(s: HeadState, attempts: seq<Attempt>)
    requires AllEdit(attempts) && s.unsaved == {}
    ensures BuffersWin(Tried(s, attempts).unsaved, Tried(s, attempts).store.generation, Edits(s, attempts))
  {
    if attempts != [] {
      var n := |attempts| - 1;
      UnsavedBuffersWin(s, attempts[..n]);
      CommitKeepsBuffers(Tried(s, attempts[..n]), attempts[n].m, attempts[n].w, attempts[n].produced, Edits(s, attempts[..n]));
    }
  }
}
