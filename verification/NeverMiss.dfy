/** From commit to subscriber: commits, the locked region of each publication, the fan-out to
    each subscriber, polls, registrations and closes run in any interleaving. The
    revision-order assertion never fires, and no affected id that an open subscriber asked
    for is missed. */
module NeverMiss {
  import opened Wrappers
  import opened Deltas
  import opened Subscriptions
  import opened Bus
  import opened CommitPlan
  import CommitRuns
  import L = CodeLayer
  import R = Reconcile
  import C = Classification

  /** Where the writer is: commits and their publications are serialised, so the next
      commit waits until the fan-out of the last one is over. */
  datatype Writer =
    | Idle
    | Announcing(delta: Delta)
    | FanningOut(delta: Delta, left: set<nat>)
    | Raised

  /** `log` are the deltas of the successful commits and `since[k]` is how many of them there
      were when subscription `k` was registered. */
  datatype System = System(head: HeadState, bus: BusState, log: seq<CommitDelta>, since: seq<nat>, writer: Writer)

  datatype Action =
    | Committing(m: Mutation, w: World, produced: L.Layer, extraLayers: set<string>)
    | Admitting
    | Delivering(k: nat)
    | Subscribing(i: Interest)
    | Stepping(k: nat, e: Event)
    | Unregistering(k: nat)
    | Shutting

  predicate Free(w: Writer) {
    w.Idle? || (w.FanningOut? && w.left == {})
  }

  ghost function AfterCommit(sys: System, m: Mutation, w: World, produced: L.Layer, extra: set<string>): System {
    var o := Committed(sys.head, m, w, produced);
    if CommitRuns.Succeeded(o)
    then Announced(sys, o.state, o.result.value.value, extra)
    else sys.(head := o.state)
  }

  function Announced(sys: System, head: HeadState, d: CommitDelta, extra: set<string>): System {
    sys.(head := head, log := sys.log + [d], writer := Announcing(FromCommitDelta(d, extra)))
  }

  function AfterAdmitting(sys: System, d: Delta): System {
    match Admit(sys.bus, d.revision)
    case Blocked => sys
    case Skipped => sys.(writer := Idle)
    case OutOfOrder => sys.(writer := Raised)
    case Admitted(targets) => sys.(bus := AfterAdmit(sys.bus, d.revision), writer := FanningOut(d, targets))
  }

  /** What a consumer, an off-thread producer or a closing thread may do to a subscription: a
      subscription is drained only after it was marked closed. */
  predicate Allowed(m: Member, e: Event) {
    !e.Offering? && (e.Draining? ==> m.trace.state.closed)
  }

  ghost function After(sys: System, a: Action): System {
    match a
    case Committing(m, w, produced, extra) => if Free(sys.writer) then AfterCommit(sys, m, w, produced, extra) else sys
    case Admitting => if sys.writer.Announcing? then AfterAdmitting(sys, sys.writer.delta) else sys
    case Delivering(k) =>
      if sys.writer.FanningOut? && k in sys.writer.left && k < |sys.bus.members|
      then sys.(bus := Delivered(sys.bus, k, sys.writer.delta), writer := FanningOut(sys.writer.delta, sys.writer.left - {k}))
      else sys
    case Subscribing(i) =>
      var bus := Subscribed(sys.bus, i);
      sys.(bus := bus, since := if |bus.members| > |sys.bus.members| then sys.since + [|sys.log|] else sys.since)
    case Stepping(k, e) =>
      if k < |sys.bus.members| && Allowed(sys.bus.members[k], e) then sys.(bus := StepAt(sys.bus, k, e)) else sys
    case Unregistering(k) => if k < |sys.bus.members| then sys.(bus := Unregistered(sys.bus, k)) else sys
    case Shutting => sys.(bus := Shut(sys.bus))
  }

  ghost function RanFrom(sys: System, actions: seq<Action>): System {
    if actions == [] then sys else After(RanFrom(sys, actions[..|actions| - 1]), actions[|actions| - 1])
  }

  ghost function Ran(head: HeadState, capacity: int, overflow: Overflow, actions: seq<Action>): System {
    RanFrom(System(head, NewBus(capacity, overflow), [], [], Idle), actions)
  }

  // ---- Every changed or deleted id is affected ----------------------------------------------

  lemma SeedsAreAffected(next: L.Layer, prev: L.Layer, seeds: set<L.NodeId>, deleted: set<L.NodeId>)
    ensures seeds <= AffectedIds(next, prev, seeds, deleted)
  {
    forall x | x in seeds
      ensures x in AffectedIds(next, prev, seeds, deleted)
    {
      L.SeedIsAffected(next, prev, seeds, deleted, x);
    }
  }

  lemma AnnouncedSeeds(o: R.Outcome, next: nat, prev: L.Layer, produced: L.Layer, plan: Plan, w: World)
    ensures var d := AnnouncedBy(o, next, prev, produced, plan, w); d.changed + d.deleted <= d.affected && d.revision == next
  {
    var classes := C.Classify(C.ByPath(w.entities(plan.scope)), o.bindings);
    var changed := EntityIds(set id | id in classes.changed);
    SeedsAreAffected(produced, prev, changed + EntityIds(o.retired), EntityIds(o.retired));
  }

  lemma ConcludedCovers(s: HeadState, planned: Result<Option<Planned>, Failure>, w: World, produced: L.Layer, fx: Effects)
    requires Means(fx, w) && CommitRuns.Succeeded(Concluded(s, planned, w, produced, fx))
    ensures var o := Concluded(s, planned, w, produced, fx); var d := o.result.value.value;
            d.changed + d.deleted <= d.affected && d.revision == s.store.revision + 1 == o.state.store.revision
  {
    var plan := planned.value.value.plan;
    if plan.reconcile {
      var o := fx.outcome(s.registry, s.store.revision + 1, plan);
      assert AnnouncesAt(fx, w, o, s.store.revision + 1, s.layer, produced, plan);
      AnnouncedSeeds(o, s.store.revision + 1, s.layer, produced, plan, w);
    }
  }

  /** A successful commit announces its own revision, and what it changed or deleted is
      among what it affected. */
  lemma DeltaCoversChanges(s: HeadState, m: Mutation, w: World, produced: L.Layer)
    requires CommitRuns.Succeeded(Committed(s, m, w, produced))
    ensures var o := Committed(s, m, w, produced); var d := o.result.value.value;
            d.changed + d.deleted <= d.affected && d.revision == s.store.revision + 1 == o.state.store.revision
  {
    EffectsMean(w);
    ConcludedCovers(s, PlanOf(s, m, w), w, produced, EffectsOf(w));
  }

  lemma {:induction false} GatheredHas(ds: seq<Delta>, field: Delta -> set<L.NodeId>, x: L.NodeId)
    ensures x in Gathered(ds, field) <==> exists k :: 0 <= k < |ds| && x in field(ds[k])
  {
    if ds != [] {
      var n := |ds| - 1;
      GatheredHas(ds[..n], field, x);
      if x in Gathered(ds[..n], field) {
        var k :| 0 <= k < n && x in field(ds[..n][k]);
        assert x in field(ds[k]);
      }
    }
  }

  // ---- One subscription ----------------------------------------------------------------------

  /** The last logged delta has yet to be offered. */
  predicate Pending(w: Writer, k: nat) {
    w.Announcing? || (w.FanningOut? && k in w.left)
  }

  /** No revision offered to the subscription so far is above this one. */
  function Bound(sys: System, k: nat): int {
    if sys.writer.FanningOut? && k in sys.writer.left then sys.writer.delta.revision - 1 else sys.bus.lastPublished
  }

  ghost predicate IdInterested(i: Interest) {
    i.ids != {} && !i.all
  }

  ghost predicate AllScoped(ds: seq<Delta>, i: Interest) {
    forall j :: 0 <= j < |ds| ==> InterestedOnly(i, ds[j])
  }

  /** Every id asked for that a commit from `lo` to `hi` affected has been offered as
      affected. */
  ghost predicate Covers(i: Interest, offered: seq<Delta>, log: seq<CommitDelta>, lo: nat, hi: int) {
    forall j, x :: lo <= j < hi && j < |log| && x in i.ids && x in log[j].affected ==>
      x in Gathered(offered, (d: Delta) => d.affected)
  }

  /** The received deltas are in order and in scope. */
  ghost predicate Orderly(m: Member, bound: int) {
    && Bounded(m.trace.state)
    && Increasing(Received(m.trace)) && AllBelow(Received(m.trace), bound)
    && (IdInterested(m.interest) ==> AllScoped(Received(m.trace), m.interest))
  }

  ghost predicate Listening(m: Member) {
    m.registered && !m.trace.state.closed && m.trace.state.overflow.Coalesce?
  }

  /** A listening subscription has received as affected whatever it was offered as affected,
      and has been offered what it asked for. */
  ghost predicate Informed(m: Member, log: seq<CommitDelta>, lo: nat, hi: int) {
    Listening(m) ==>
      && Gathered(Received(m.trace), (d: Delta) => d.affected) == Gathered(m.trace.offered, (d: Delta) => d.affected)
      && Covers(m.interest, m.trace.offered, log, lo, hi)
  }

  lemma OfferKeepsScoped(t: Trace, d: Delta, i: Interest)
    requires Bounded(t.state) && AllScoped(Received(t), i) && InterestedOnly(i, d)
    ensures AllScoped(Received(Next(t, Offering(d))), i)
  {
    var r := Received(t);
    ReceivedAfterOffer(t, d);
    if r != [] {
      assert InterestedOnly(i, r[|r| - 1]);
    }
  }

  lemma OfferKeepsOrderly(m: Member, d: Delta, slice: Delta, bound: int)
    requires Orderly(m, bound) && bound < d.revision && Offered(m.interest, d) == Some(slice)
    ensures Orderly(m.(trace := Next(m.trace, Offering(slice))), d.revision)
  {
    NextKeepsBounded(m.trace, Offering(slice));
    OfferKeepsIncreasing(m.trace, slice, bound);
    if IdInterested(m.interest) {
      OfferIsScoped(m.interest, d);
      OfferKeepsScoped(m.trace, slice, m.interest);
    }
  }

  /** Being offered its slice of the last delta brings a subscription up to date. */
  lemma OfferInforms(m: Member, d: Delta, log: seq<CommitDelta>, lo: nat)
    requires Bounded(m.trace.state) && log != [] && Informed(m, log, lo, |log| - 1)
    requires d.affected == log[|log| - 1].affected
    ensures match Offered(m.interest, d)
            case None => Informed(m, log, lo, |log|)
            case Some(slice) => Informed(m.(trace := Next(m.trace, Offering(slice))), log, lo, |log|)
  {
    if Listening(m) {
      var offer := Offered(m.interest, d);
      var offered := if offer.Some? then m.trace.offered + [offer.value] else m.trace.offered;
      if offer.Some? {
        OfferConserves(m.trace, offer.value, (d: Delta) => d.affected);
        GatheredMore(m.trace.offered, offer.value, (d: Delta) => d.affected);
      }
      forall j, x | lo <= j < |log| && x in m.interest.ids && x in log[j].affected
        ensures x in Gathered(offered, (d: Delta) => d.affected)
      {
        if j == |log| - 1 {
          AffectedIsOffered(m.interest, d, x);
        }
      }
    }
  }

  lemma StepKeepsOrderly(m: Member, e: Event, bound: int)
    requires Orderly(m, bound) && Allowed(m, e)
    ensures Orderly(m.(trace := Next(m.trace, e)), bound)
  {
    NextKeepsBounded(m.trace, e);
    var r := Received(m.trace);
    var r' := Received(Next(m.trace, e));
    if e.Polling? {
      PollKeepsReceived(m.trace);
    } else if e.Draining? {
      assert r' == r[..|m.trace.consumed|];
    } else {
      assert r' == r;
    }
  }

  lemma StepKeepsInformed(m: Member, e: Event, log: seq<CommitDelta>, lo: nat, hi: int)
    requires Informed(m, log, lo, hi) && Allowed(m, e)
    ensures Informed(m.(trace := Next(m.trace, e)), log, lo, hi)
  {
    if e.Polling? {
      PollKeepsReceived(m.trace);
    } else if Listening(m.(trace := Next(m.trace, e))) {
      assert Received(Next(m.trace, e)) == Received(m.trace);
    }
  }

  // ---- The whole system ----------------------------------------------------------------------------

  /** The delta being published is the last one logged. */
  ghost predicate Speaks(d: Delta, sys: System) {
    && sys.log != [] && d.revision == sys.head.store.revision
    && d.affected == sys.log[|sys.log| - 1].affected
  }

  ghost predicate WriterOk(sys: System) {
    && CommitRuns.InSync(sys.head) && |sys.since| == |sys.bus.members|
    && sys.bus.lastPublished <= sys.head.store.revision
    && (sys.bus.closed ==> Registered(sys.bus) == {})
    && match sys.writer
       case Idle => true
       case Announcing(d) => Speaks(d, sys) && sys.bus.lastPublished < d.revision
       case FanningOut(d, _) => Speaks(d, sys) && sys.bus.lastPublished == d.revision
       case Raised => false
  }

  /** How far into the log the subscription is up to date. */
  function UpTo(sys: System, k: nat): int {
    if Pending(sys.writer, k) then |sys.log| - 1 else |sys.log|
  }

  ghost predicate MemberOk(sys: System, k: nat)
    requires k < |sys.bus.members| && k < |sys.since|
  {
    && sys.since[k] <= |sys.log|
    && Orderly(sys.bus.members[k], Bound(sys, k))
    && Informed(sys.bus.members[k], sys.log, sys.since[k], UpTo(sys, k))
  }

  ghost predicate MembersOk(sys: System)
    requires |sys.since| == |sys.bus.members|
  {
    forall k: nat :: k < |sys.bus.members| ==> MemberOk(sys, k)
  }

  ghost predicate Sound(sys: System) {
    WriterOk(sys) && MembersOk(sys)
  }

  lemma MemberCarries(sys: System, sys': System, k: nat)
    requires k < |sys.bus.members| && k < |sys.since| && MemberOk(sys, k)
    requires k < |sys'.bus.members| && k < |sys'.since| && sys'.bus.members[k] == sys.bus.members[k]
    requires sys'.since[k] == sys.since[k] && sys'.log == sys.log
    requires Bound(sys', k) == Bound(sys, k) && UpTo(sys', k) == UpTo(sys, k)
    ensures MemberOk(sys', k)
  {
  }

  lemma InformedLonger(m: Member, log: seq<CommitDelta>, d: CommitDelta, lo: nat)
    requires Informed(m, log, lo, |log|)
    ensures Informed(m, log + [d], lo, |log|)
  {
  }

  lemma AnnouncementKeepsSound(sys: System, head: HeadState, d: CommitDelta, extra: set<string>)
    requires Sound(sys) && Free(sys.writer) && CommitRuns.InSync(head)
    requires d.revision == head.store.revision == sys.head.store.revision + 1
    ensures Sound(Announced(sys, head, d, extra))
  {
    var sys' := Announced(sys, head, d, extra);
    forall k: nat | k < |sys'.bus.members|
      ensures MemberOk(sys', k)
    {
      assert MemberOk(sys, k);
      InformedLonger(sys.bus.members[k], sys.log, d, sys.since[k]);
    }
  }

  lemma CommitKeepsSound(sys: System, m: Mutation, w: World, produced: L.Layer, extra: set<string>)
    requires Sound(sys) && Free(sys.writer)
    ensures Sound(AfterCommit(sys, m, w, produced, extra))
  {
    var o := Committed(sys.head, m, w, produced);
    CommitRuns.CommitIsAtomic(sys.head, m, w, produced);
    if CommitRuns.Succeeded(o) {
      DeltaCoversChanges(sys.head, m, w, produced);
      AnnouncementKeepsSound(sys, o.state, o.result.value.value, extra);
    } else {
      SameRevisionKeepsSound(sys, o.state);
    }
  }

  lemma SameRevisionKeepsSound(sys: System, head: HeadState)
    requires Sound(sys) && CommitRuns.InSync(head) && head.store.revision == sys.head.store.revision
    ensures Sound(sys.(head := head))
  {
    var sys' := sys.(head := head);
    forall k: nat | k < |sys'.bus.members|
      ensures MemberOk(sys', k)
    {
      assert MemberOk(sys, k);
    }
  }

  /** The revision-order assertion does not fire: the delta is newer than the last one. */
  lemma AdmittingKeepsSound(sys: System)
    requires Sound(sys) && sys.writer.Announcing?
    ensures !Admit(sys.bus, sys.writer.delta.revision).OutOfOrder?
    ensures Sound(AfterAdmitting(sys, sys.writer.delta))
  {
    var sys' := AfterAdmitting(sys, sys.writer.delta);
    forall k: nat | k < |sys'.bus.members|
      ensures MemberOk(sys', k)
    {
      assert MemberOk(sys, k);
      assert sys.bus.members[k].registered <==> k in Registered(sys.bus);
    }
  }

  lemma DeliveringKeepsSound(sys: System, k: nat)
    requires Sound(sys) && sys.writer.FanningOut? && k in sys.writer.left && k < |sys.bus.members|
    ensures Sound(After(sys, Delivering(k)))
  {
    var d := sys.writer.delta;
    var sys' := After(sys, Delivering(k));
    forall j: nat | j < |sys'.bus.members|
      ensures MemberOk(sys', j)
    {
      assert MemberOk(sys, j);
      if j == k {
        DeliveryKeepsMember(sys, k);
      } else {
        MemberCarries(sys, sys', j);
      }
    }
    SameRegistered(sys.bus, sys'.bus);
  }

  lemma DeliveryKeepsMember(sys: System, k: nat)
    requires WriterOk(sys) && sys.writer.FanningOut? && k in sys.writer.left && k < |sys.bus.members| && MemberOk(sys, k)
    ensures MemberOk(After(sys, Delivering(k)), k)
  {
    var m, d := sys.bus.members[k], sys.writer.delta;
    OfferInforms(m, d, sys.log, sys.since[k]);
    if Offered(m.interest, d).Some? {
      OfferKeepsOrderly(m, d, Offered(m.interest, d).value, d.revision - 1);
    }
  }

  lemma SameRegistered(a: BusState, b: BusState)
    requires |a.members| == |b.members| && forall k :: 0 <= k < |a.members| ==> a.members[k].registered == b.members[k].registered
    ensures Registered(a) == Registered(b)
  {
  }

  lemma SubscribingKeepsSound(sys: System, i: Interest)
    requires Sound(sys)
    ensures Sound(After(sys, Subscribing(i)))
  {
    var sys' := After(sys, Subscribing(i));
    forall k: nat | k < |sys'.bus.members|
      ensures MemberOk(sys', k)
    {
      if k < |sys.bus.members| {
        assert MemberOk(sys, k);
      }
    }
    if sys.bus.closed {
      SameRegistered(sys.bus, sys'.bus);
    }
  }

  lemma SteppingKeepsSound(sys: System, k: nat, e: Event)
    requires Sound(sys) && k < |sys.bus.members| && Allowed(sys.bus.members[k], e)
    ensures Sound(After(sys, Stepping(k, e)))
  {
    var sys' := After(sys, Stepping(k, e));
    forall j: nat | j < |sys'.bus.members|
      ensures MemberOk(sys', j)
    {
      assert MemberOk(sys, j);
      if j == k {
        StepKeepsMember(sys, k, e);
      } else {
        MemberCarries(sys, sys', j);
      }
    }
    SameRegistered(sys.bus, sys'.bus);
  }

  lemma StepKeepsMember(sys: System, k: nat, e: Event)
    requires k < |sys.bus.members| && k < |sys.since| && MemberOk(sys, k) && Allowed(sys.bus.members[k], e)
    ensures MemberOk(After(sys, Stepping(k, e)), k)
  {
    StepKeepsOrderly(sys.bus.members[k], e, Bound(sys, k));
    StepKeepsInformed(sys.bus.members[k], e, sys.log, sys.since[k], UpTo(sys, k));
  }

  /** Unregistering subscriptions leaves fewer to answer for. */
  lemma UnregisteringKeepsSound(sys: System, bus: BusState)
    requires Sound(sys) && bus.lastPublished == sys.bus.lastPublished && |bus.members| == |sys.bus.members|
    requires forall k :: 0 <= k < |bus.members| ==>
               bus.members[k] == sys.bus.members[k] || bus.members[k] == sys.bus.members[k].(registered := false)
    requires bus.closed ==> Registered(bus) == {}
    ensures Sound(sys.(bus := bus))
  {
    var sys' := sys.(bus := bus);
    forall k: nat | k < |bus.members|
      ensures MemberOk(sys', k)
    {
      assert MemberOk(sys, k);
    }
  }

  lemma ActionKeepsSound(sys: System, a: Action)
    requires Sound(sys)
    ensures Sound(After(sys, a))
  {
    match a
    case Committing(m, w, produced, extra) =>
      if Free(sys.writer) {
        CommitKeepsSound(sys, m, w, produced, extra);
      }
    case Admitting =>
      if sys.writer.Announcing? {
        AdmittingKeepsSound(sys);
      }
    case Delivering(k) =>
      if sys.writer.FanningOut? && k in sys.writer.left && k < |sys.bus.members| {
        DeliveringKeepsSound(sys, k);
      }
    case Subscribing(i) => SubscribingKeepsSound(sys, i);
    case Stepping(k, e) =>
      if k < |sys.bus.members| && Allowed(sys.bus.members[k], e) {
        SteppingKeepsSound(sys, k, e);
      }
    case Unregistering(k) =>
      if k < |sys.bus.members| {
        var bus := Unregistered(sys.bus, k);
        assert Registered(bus) <= Registered(sys.bus);
        UnregisteringKeepsSound(sys, bus);
      }
    case Shutting =>
      UnregisteringKeepsSound(sys, Shut(sys.bus));
  }

  lemma {:induction false} RunIsSound(head: HeadState, capacity: int, overflow: Overflow, actions: seq<Action>)
    requires CommitRuns.InSync(head)
    ensures Sound(Ran(head, capacity, overflow, actions))
  {
    if actions != [] {
      var n := |actions| - 1;
      RunIsSound(head, capacity, overflow, actions[..n]);
      ActionKeepsSound(Ran(head, capacity, overflow, actions[..n]), actions[n]);
    }
  }

  // ---- What every run keeps -----------------------------------------------------------------------------

  /** Over any interleaving the revision-order assertion never fires: no admitted delta is
      older than, or the same as, the last one. */
  lemma AssertionNeverFires(head: HeadState, capacity: int, overflow: Overflow, actions: seq<Action>)
    requires CommitRuns.InSync(head)
    ensures var sys := Ran(head, capacity, overflow, actions);
            && !sys.writer.Raised?
            && (sys.writer.Announcing? ==> !Admit(sys.bus, sys.writer.delta.revision).OutOfOrder?)
  {
    RunIsSound(head, capacity, overflow, actions);
  }

  /** The subscription listens, and has been served everything logged up to `j`, which was
      logged since it registered. */
  ghost predicate Served(sys: System, k: nat, j: nat) {
    && k < |sys.bus.members| && k < |sys.since| && Listening(sys.bus.members[k])
    && sys.since[k] <= j < UpTo(sys, k) && j < |sys.log|
  }

  /** The id is affected in a delta that the subscription has consumed or still has queued. */
  ghost predicate Told(m: Member, x: L.NodeId) {
    var r := Received(m.trace); exists i :: 0 <= i < |r| && x in r[i].affected
  }

  /** End to end: over any interleaving of commits, failed ones included, publications,
      polls, registrations and closes, each id that a listening coalescing subscription asked
      for and that a commit since its registration affected is in the affected set of a delta
      that it has consumed or still has queued, once it has been served. */
  lemma NeverMisses(head: HeadState, capacity: int, actions: seq<Action>, k: nat, j: nat, x: L.NodeId)
    requires CommitRuns.InSync(head) && Served(Ran(head, capacity, Coalesce, actions), k, j)
    requires x in Ran(head, capacity, Coalesce, actions).bus.members[k].interest.ids
    requires x in Ran(head, capacity, Coalesce, actions).log[j].affected
    ensures Told(Ran(head, capacity, Coalesce, actions).bus.members[k], x)
  {
    RunIsSound(head, capacity, Coalesce, actions);
    var sys := Ran(head, capacity, Coalesce, actions);
    assert MemberOk(sys, k);
    MissesNothing(sys.bus.members[k], sys.log, sys.since[k], UpTo(sys, k), j, x);
  }

  /** Every logged delta affects what it changed or deleted. */
  lemma {:induction false} LogCoversChanges(head: HeadState, capacity: int, overflow: Overflow, actions: seq<Action>, j: nat)
    requires j < |Ran(head, capacity, overflow, actions).log|
    ensures var d := Ran(head, capacity, overflow, actions).log[j]; d.changed + d.deleted <= d.affected
  {
    if actions != [] {
      var n := |actions| - 1;
      var sys, a := Ran(head, capacity, overflow, actions[..n]), actions[n];
      if j < |sys.log| {
        LogCoversChanges(head, capacity, overflow, actions[..n], j);
      } else {
        DeltaCoversChanges(sys.head, a.m, a.w, a.produced);
      }
    }
  }

  /** In particular an id that a commit changed or deleted is not missed. */
  lemma ChangesAreTold(head: HeadState, capacity: int, actions: seq<Action>, k: nat, j: nat, x: L.NodeId)
    requires CommitRuns.InSync(head) && Served(Ran(head, capacity, Coalesce, actions), k, j)
    requires x in Ran(head, capacity, Coalesce, actions).bus.members[k].interest.ids
    requires x in Ran(head, capacity, Coalesce, actions).log[j].changed + Ran(head, capacity, Coalesce, actions).log[j].deleted
    ensures Told(Ran(head, capacity, Coalesce, actions).bus.members[k], x)
  {
    LogCoversChanges(head, capacity, Coalesce, actions, j);
    NeverMisses(head, capacity, actions, k, j, x);
  }

  lemma MissesNothing(m: Member, log: seq<CommitDelta>, lo: nat, hi: int, j: nat, x: L.NodeId)
    requires Listening(m) && Informed(m, log, lo, hi) && lo <= j < hi && j < |log|
    requires x in m.interest.ids && x in log[j].affected
    ensures Told(m, x)
  {
    var affected := (d: Delta) => d.affected;
    var r := Received(m.trace);
    GatheredHas(r, affected, x);
    var i :| 0 <= i < |r| && x in affected(r[i]);
    assert x in r[i].affected;
  }

  /** An id-interested subscription sees ids outside its interest only in a rescan delta, and
      every subscription consumes strictly increasing revisions. */
  lemma SeesOnlyItsSlice(head: HeadState, capacity: int, overflow: Overflow, actions: seq<Action>, k: nat)
    requires CommitRuns.InSync(head) && k < |Ran(head, capacity, overflow, actions).bus.members|
    ensures var m := Ran(head, capacity, overflow, actions).bus.members[k];
            && (IdInterested(m.interest) ==> AllScoped(Received(m.trace), m.interest))
            && Increasing(m.trace.consumed)
  {
    RunIsSound(head, capacity, overflow, actions);
    var sys := Ran(head, capacity, overflow, actions);
    assert MemberOk(sys, k);
    var t := sys.bus.members[k].trace;
    assert t.consumed == Received(t)[..|t.consumed|];
  }

  lemma JammedStays(sys: System, a: Action)
    requires sys.bus.jammed
    ensures After(sys, a).bus.jammed && |After(sys, a).bus.members| == |sys.bus.members|
    ensures After(sys, a).bus.lastPublished == sys.bus.lastPublished
    ensures sys.writer.Announcing? ==> After(sys, a).writer == sys.writer && After(sys, a).log == sys.log
  {
  }

  /** Once a thread has subscribed to a closed bus, the bus lock is never free again: whatever
      happens, nobody registers and nothing is admitted, and a writer that has a delta to
      publish never gets past it. */
  lemma {:induction false} JammedForever(sys: System, i: Interest, actions: seq<Action>)
    requires sys.bus.closed
    ensures var end := RanFrom(After(sys, Subscribing(i)), actions);
            && end.bus.jammed && |end.bus.members| == |sys.bus.members| && end.bus.lastPublished == sys.bus.lastPublished
            && (sys.writer.Announcing? ==> end.writer == sys.writer && end.log == sys.log)
  {
    if actions != [] {
      var n := |actions| - 1;
      JammedForever(sys, i, actions[..n]);
      JammedStays(RanFrom(After(sys, Subscribing(i)), actions[..n]), actions[n]);
    }
  }
}
