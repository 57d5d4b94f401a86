/** One subscriber's bounded queues. Each lock-protected body is one atomic step, and the
    theorems range over every interleaving of such steps. */
module Subscriptions {
  import opened Wrappers
  import opened Deltas

  datatype Overflow = Coalesce | DropAndMarkLagged | ErrorAndClose

  /** The advisory messages of the refinement and derived-fresh channels are opaque. */
  type Advice = nat

  datatype Endpoint = Endpoint(
    capacity: nat,
    overflow: Overflow,
    queue: seq<Delta>,
    refinements: seq<Advice>,
    derived: seq<Advice>,
    closed: bool,
    lagged: bool)

  function NewEndpoint(capacity: int, overflow: Overflow): Endpoint {
    Endpoint(if capacity < 1 then 1 else capacity, overflow, [], [], [], false, false)
  }

  // ---- The atomic steps --------------------------------------------------------------

  function CoalesceIntoTail(queue: seq<Delta>, d: Delta): seq<Delta> {
    if queue == [] then [d] else queue[..|queue| - 1] + [Merge(queue[|queue| - 1], d)]
  }

  function AfterOffer(s: Endpoint, d: Delta): Endpoint {
    if s.closed then s
    else if |s.queue| < s.capacity then s.(queue := s.queue + [d])
    else if s.overflow.Coalesce? then s.(queue := CoalesceIntoTail(s.queue, d))
    else s.(lagged := true)
  }

  /** A consumer takes from the front, also while the subscription is being closed. */
  function AfterPoll(s: Endpoint): (Endpoint, Option<Delta>) {
    if s.queue == [] then (s, None) else (s.(queue := s.queue[1..]), Some(s.queue[0]))
  }

  /** Appends advice, dropping the oldest beyond capacity. */
  function Advised(queue: seq<Advice>, capacity: nat, a: Advice): seq<Advice> {
    var q := queue + [a];
    if |q| > capacity then q[1..] else q
  }

  /** Closing marks the endpoint first and drains it in a second step. */
  function Marked(s: Endpoint): Endpoint {
    s.(closed := true)
  }

  function Drained(s: Endpoint): Endpoint {
    s.(queue := [], refinements := [], derived := [])
  }

  // ---- Traces -----------------------------------------------------------------------------

  datatype Event =
    | Offering(delta: Delta)
    | Polling
    | Refining(advice: Advice)
    | Freshening(advice: Advice)
    | Marking
    | Draining

  /** The endpoint so far, with everything offered to and consumed from the endpoint. */
  datatype Trace = Trace(state: Endpoint, offered: seq<Delta>, consumed: seq<Delta>)

  function NewTrace(capacity: int, overflow: Overflow): Trace {
    Trace(NewEndpoint(capacity, overflow), [], [])
  }

  /** An offer that overflows a subscription which then has to be closed. */
  predicate Overflows(s: Endpoint) {
    s.overflow.ErrorAndClose? && !s.closed && |s.queue| >= s.capacity
  }

  function Next(t: Trace, e: Event): Trace {
    match e
    case Offering(d) => Trace(AfterOffer(t.state, d), t.offered + [d], t.consumed)
    case Polling =>
      var (s, d) := AfterPoll(t.state);
      Trace(s, t.offered, if d.Some? then t.consumed + [d.value] else t.consumed)
    case Refining(a) =>
      if t.state.closed then t
      else t.(state := t.state.(refinements := Advised(t.state.refinements, t.state.capacity, a)))
    case Freshening(a) =>
      if t.state.closed then t
      else t.(state := t.state.(derived := Advised(t.state.derived, t.state.capacity, a)))
    case Marking => t.(state := Marked(t.state))
    case Draining => t.(state := Drained(t.state))
  }

  class Subscription {
    const interest: Interest
    const capacity: nat
    const overflow: Overflow
    var queue: seq<Delta>
    var refinements: seq<Advice>
    var derived: seq<Advice>
    var closed: bool
    var lagged: bool
    /** Everything offered to and consumed from this subscription. */
    ghost var offered: seq<Delta>
    ghost var consumed: seq<Delta>

    ghost function Value(): Trace
      reads this
    {
      Trace(Endpoint(capacity, overflow, queue, refinements, derived, closed, lagged), offered, consumed)
    }

    constructor (interest: Interest, capacity: int, overflow: Overflow)
      ensures this.interest == interest && Value() == NewTrace(capacity, overflow)
    {
      this.interest, this.overflow := interest, overflow;
      this.capacity := if capacity < 1 then 1 else capacity;
      queue, refinements, derived, closed, lagged, offered, consumed := [], [], [], false, false, [], [];
    }

    /** Never blocks; reports whether the caller must close the subscription. */
    method Offer(delta: Delta) returns (shouldClose: bool)
      modifies this`queue, this`lagged, this`offered
      ensures Value() == Next(old(Value()), Offering(delta))
      ensures shouldClose == Overflows(old(Value()).state)
    {
      shouldClose := false;
      offered := offered + [delta];
      if closed {
        return;
      }
      if |queue| < capacity {
        queue := queue + [delta];
        return;
      }
      if overflow == Coalesce {
        CoalesceTail(delta);
      } else if overflow == ErrorAndClose {
        lagged := true;
        shouldClose := true;
      } else {
        lagged := true;
      }
    }

    method CoalesceTail(incoming: Delta)
      modifies this`queue
      ensures queue == CoalesceIntoTail(old(queue), incoming)
    {
      if queue == [] {
        queue := [incoming];
        return;
      }
      var tail := queue[|queue| - 1];
      queue := queue[..|queue| - 1];
      var revision := if tail.revision < incoming.revision then incoming.revision else tail.revision;
      var merged := Delta(
        revision,
        tail.created + incoming.created,
        tail.changed + incoming.changed,
        tail.deleted + incoming.deleted,
        tail.moved + incoming.moved,
        tail.authored + incoming.authored,
        tail.affected + incoming.affected,
        tail.rescan || incoming.rescan,
        tail.files + incoming.files,
        tail.layers + incoming.layers);
      queue := queue + [merged];
    }

    method Poll() returns (delta: Option<Delta>)
      modifies this`queue, this`consumed
      ensures Value() == Next(old(Value()), Polling) && delta == AfterPoll(old(Value()).state).1
    {
      delta := None;
      if queue != [] {
        delta := Some(queue[0]);
        queue, consumed := queue[1..], consumed + [queue[0]];
      }
    }

    method OfferRefinement(ref: Advice)
      modifies this`refinements
      ensures Value() == Next(old(Value()), Refining(ref))
    {
      if !closed {
        refinements := refinements + [ref];
        if |refinements| > capacity {
          refinements := refinements[1..];
        }
      }
    }

    method OfferDerived(msg: Advice)
      modifies this`derived
      ensures Value() == Next(old(Value()), Freshening(msg))
    {
      if !closed {
        derived := derived + [msg];
        if |derived| > capacity {
          derived := derived[1..];
        }
      }
    }

    /** The first locked region of `close`; false if it was closed before. */
    method MarkClosed() returns (first: bool)
      modifies this`closed
      ensures first == !old(closed) && Value() == Next(old(Value()), Marking)
    {
      first := !closed;
      closed := true;
    }

    method Drain()
      modifies this`queue, this`refinements, this`derived
      ensures Value() == Next(old(Value()), Draining)
    {
      queue, refinements, derived := [], [], [];
    }
  }

  // ---- Runs ------------------------------------------------------------------------------

  function RunFrom(t: Trace, events: seq<Event>): Trace {
    if events == [] then t else Next(RunFrom(t, events[..|events| - 1]), events[|events| - 1])
  }

  function Run(capacity: int, overflow: Overflow, events: seq<Event>): Trace {
    RunFrom(NewTrace(capacity, overflow), events)
  }

  ghost predicate StaysOpen(events: seq<Event>) {
    forall k :: 0 <= k < |events| ==> !events[k].Marking? && !events[k].Draining?
  }

  /** What the subscriber has consumed, followed by what it still has queued. */
  function Received(t: Trace): seq<Delta> {
    t.consumed + t.state.queue
  }

  ghost predicate Bounded(s: Endpoint) {
    s.capacity >= 1 && |s.queue| <= s.capacity && |s.refinements| <= s.capacity && |s.derived| <= s.capacity
  }

  lemma NextKeepsBounded(t: Trace, e: Event)
    requires Bounded(t.state)
    ensures var s := Next(t, e).state; Bounded(s) && s.overflow == t.state.overflow && s.capacity == t.state.capacity
  {
  }

  /** Every queue stays within capacity over every run, closed or not. */
  lemma {:induction false} QueuesStayBounded(capacity: int, overflow: Overflow, events: seq<Event>)
    ensures var s := Run(capacity, overflow, events).state;
            Bounded(s) && s.overflow == overflow && s.capacity == (if capacity < 1 then 1 else capacity)
  {
    if events != [] {
      var n := |events| - 1;
      QueuesStayBounded(capacity, overflow, events[..n]);
      NextKeepsBounded(Run(capacity, overflow, events[..n]), events[n]);
    }
  }

  lemma PollKeepsReceived(t: Trace)
    ensures Received(Next(t, Polling)) == Received(t) && Next(t, Polling).offered == t.offered
  {
    if t.state.queue != [] {
      assert t.state.queue == [t.state.queue[0]] + t.state.queue[1..];
    }
  }

  lemma {:induction false} OpenUntilMarked(capacity: int, overflow: Overflow, events: seq<Event>)
    requires StaysOpen(events)
    ensures !Run(capacity, overflow, events).state.closed
  {
    if events != [] {
      OpenUntilMarked(capacity, overflow, events[..|events| - 1]);
    }
  }

  lemma {:induction false} MarkedStaysClosed(capacity: int, overflow: Overflow, events: seq<Event>, i: nat)
    requires i < |events| && events[i].Marking?
    ensures Run(capacity, overflow, events).state.closed
  {
    if i < |events| - 1 {
      MarkedStaysClosed(capacity, overflow, events[..|events| - 1], i);
    }
  }

  /** Once closing is through, nothing is held and nothing is taken in again. */
  lemma {:induction false} ClosedHoldsNothing(capacity: int, overflow: Overflow, events: seq<Event>, i: nat, j: nat)
    requires i < j < |events| && events[i].Marking? && events[j].Draining?
    ensures var s := Run(capacity, overflow, events).state;
            s.closed && s.queue == [] && s.refinements == [] && s.derived == []
  {
    MarkedStaysClosed(capacity, overflow, events, i);
    if j < |events| - 1 {
      ClosedHoldsNothing(capacity, overflow, events[..|events| - 1], i, j);
    }
  }

  // ---- Under coalescing nothing is lost ---------------------------------------------------

  function Gathered<T>(ds: seq<Delta>, field: Delta -> set<T>): set<T> {
    if ds == [] then {} else Gathered(ds[..|ds| - 1], field) + field(ds[|ds| - 1])
  }

  lemma GatheredMore<T>(ds: seq<Delta>, d: Delta, field: Delta -> set<T>)
    ensures Gathered(ds + [d], field) == Gathered(ds, field) + field(d)
  {
    assert (ds + [d])[..|ds|] == ds;
  }

  ghost predicate MergesByUnion<T>(field: Delta -> set<T>) {
    forall a, b :: field(Merge(a, b)) == field(a) + field(b)
  }

  lemma CoalesceGathers<T>(consumed: seq<Delta>, queue: seq<Delta>, d: Delta, field: Delta -> set<T>)
    requires MergesByUnion(field) && queue != []
    ensures Gathered(consumed + CoalesceIntoTail(queue, d), field) == Gathered(consumed + queue, field) + field(d)
  {
    var front, tail := queue[..|queue| - 1], queue[|queue| - 1];
    assert consumed + queue == (consumed + front) + [tail];
    assert consumed + CoalesceIntoTail(queue, d) == (consumed + front) + [Merge(tail, d)];
    GatheredMore(consumed + front, tail, field);
    GatheredMore(consumed + front, Merge(tail, d), field);
  }

  /** Under coalescing, an id set gathered over everything received is that over
      everything offered. */
  lemma {:induction false} CoalescingConserves<T>(capacity: int, events: seq<Event>, field: Delta -> set<T>)
    requires StaysOpen(events) && MergesByUnion(field)
    ensures var t := Run(capacity, Coalesce, events); Gathered(Received(t), field) == Gathered(t.offered, field)
  {
    if events != [] {
      var n := |events| - 1;
      var t := Run(capacity, Coalesce, events[..n]);
      CoalescingConserves(capacity, events[..n], field);
      QueuesStayBounded(capacity, Coalesce, events[..n]);
      OpenUntilMarked(capacity, Coalesce, events[..n]);
      match events[n]
      case Offering(d) => OfferConserves(t, d, field);
      case Polling => PollKeepsReceived(t);
      case Refining(_) =>
      case Freshening(_) =>
    }
  }

  lemma OfferConserves<T>(t: Trace, d: Delta, field: Delta -> set<T>)
    requires MergesByUnion(field) && Bounded(t.state) && !t.state.closed && t.state.overflow == Coalesce
    requires Gathered(Received(t), field) == Gathered(t.offered, field)
    ensures var t' := Next(t, Offering(d)); Gathered(Received(t'), field) == Gathered(t'.offered, field)
  {
    GatheredMore(t.offered, d, field);
    if |t.state.queue| < t.state.capacity {
      assert t.consumed + (t.state.queue + [d]) == t.consumed + t.state.queue + [d];
      GatheredMore(Received(t), d, field);
    } else {
      CoalesceGathers(t.consumed, t.state.queue, d, field);
    }
  }

  /** All eight sets at once. */
  lemma NothingCoalescedIsLost(capacity: int, events: seq<Event>)
    requires StaysOpen(events)
    ensures var t := Run(capacity, Coalesce, events); var r := Received(t);
            && Gathered(r, (d: Delta) => d.created) == Gathered(t.offered, (d: Delta) => d.created)
            && Gathered(r, (d: Delta) => d.changed) == Gathered(t.offered, (d: Delta) => d.changed)
            && Gathered(r, (d: Delta) => d.deleted) == Gathered(t.offered, (d: Delta) => d.deleted)
            && Gathered(r, (d: Delta) => d.moved) == Gathered(t.offered, (d: Delta) => d.moved)
            && Gathered(r, (d: Delta) => d.authored) == Gathered(t.offered, (d: Delta) => d.authored)
            && Gathered(r, (d: Delta) => d.affected) == Gathered(t.offered, (d: Delta) => d.affected)
            && Gathered(r, (d: Delta) => d.files) == Gathered(t.offered, (d: Delta) => d.files)
            && Gathered(r, (d: Delta) => d.layers) == Gathered(t.offered, (d: Delta) => d.layers)
  {
    CoalescingConserves(capacity, events, (d: Delta) => d.created);
    CoalescingConserves(capacity, events, (d: Delta) => d.changed);
    CoalescingConserves(capacity, events, (d: Delta) => d.deleted);
    CoalescingConserves(capacity, events, (d: Delta) => d.moved);
    CoalescingConserves(capacity, events, (d: Delta) => d.authored);
    CoalescingConserves(capacity, events, (d: Delta) => d.affected);
    CoalescingConserves(capacity, events, (d: Delta) => d.files);
    CoalescingConserves(capacity, events, (d: Delta) => d.layers);
  }

  /** The call for a rescan as a set, to be gathered. */
  function RescanFlag(d: Delta): set<bool> {
    if d.rescan then {true} else {}
  }

  /** Whether the revision is at least `r`, as a set. */
  function ReachesFlag(r: int): Delta -> set<bool> {
    (d: Delta) => if r <= d.revision then {true} else {}
  }

  lemma {:induction false} FlagGathered(ds: seq<Delta>, flag: Delta -> set<bool>)
    ensures true in Gathered(ds, flag) <==> exists d :: d in ds && true in flag(d)
  {
    if ds != [] {
      var n := |ds| - 1;
      FlagGathered(ds[..n], flag);
      assert forall d :: d in ds <==> d in ds[..n] || d == ds[n];
    }
  }

  lemma FlagConserved(capacity: int, events: seq<Event>, flag: Delta -> set<bool>)
    requires StaysOpen(events) && MergesByUnion(flag)
    ensures var t := Run(capacity, Coalesce, events);
            (exists d :: d in Received(t) && true in flag(d)) <==> (exists d :: d in t.offered && true in flag(d))
  {
    var t := Run(capacity, Coalesce, events);
    CoalescingConserves(capacity, events, flag);
    FlagGathered(Received(t), flag);
    FlagGathered(t.offered, flag);
  }

  /** Under coalescing a call for a rescan is neither lost nor made up. */
  lemma RescanIsNotLost(capacity: int, events: seq<Event>)
    requires StaysOpen(events)
    ensures var t := Run(capacity, Coalesce, events);
            (exists d :: d in Received(t) && d.rescan) <==> (exists d :: d in t.offered && d.rescan)
  {
    FlagConserved(capacity, events, RescanFlag);
  }

  /** Under coalescing the greatest revision received is the greatest one offered, and the
      subscriber is never lagged. */
  lemma NewestRevisionIsKept(capacity: int, events: seq<Event>, r: int)
    requires StaysOpen(events)
    ensures var t := Run(capacity, Coalesce, events);
            && ((exists d :: d in Received(t) && r <= d.revision) <==> (exists d :: d in t.offered && r <= d.revision))
            && !t.state.lagged
  {
    FlagConserved(capacity, events, ReachesFlag(r));
    CoalescingNeverLags(capacity, events);
  }

  lemma {:induction false} CoalescingNeverLags(capacity: int, events: seq<Event>)
    ensures !Run(capacity, Coalesce, events).state.lagged
  {
    if events != [] {
      CoalescingNeverLags(capacity, events[..|events| - 1]);
      QueuesStayBounded(capacity, Coalesce, events[..|events| - 1]);
    }
  }

  /** Without coalescing nothing that was accepted is taken back or altered. */
  lemma {:induction false} AcceptedIsKept(capacity: int, overflow: Overflow, events: seq<Event>, n: nat)
    requires StaysOpen(events) && !overflow.Coalesce? && n <= |events|
    ensures Received(Run(capacity, overflow, events[..n])) <= Received(Run(capacity, overflow, events))
    decreases |events|
  {
    if n == |events| {
      assert events[..n] == events;
    } else {
      var k := |events| - 1;
      var t := Run(capacity, overflow, events[..k]);
      AcceptedIsKept(capacity, overflow, events[..k], n);
      assert events[..k][..n] == events[..n];
      QueuesStayBounded(capacity, overflow, events[..k]);
      match events[k]
      case Offering(d) =>
        assert t.consumed + (t.state.queue + [d]) == Received(t) + [d];
      case Polling => PollKeepsReceived(t);
      case Refining(_) =>
      case Freshening(_) =>
    }
  }

  // ---- Whoever keeps up receives every delta as it was offered -----------------------------------

  /** Never more than `capacity` deltas are waiting. */
  ghost predicate KeepsUp(capacity: int, overflow: Overflow, events: seq<Event>) {
    forall n :: 0 <= n <= |events| ==>
      var t := Run(capacity, overflow, events[..n]); |t.offered| - |t.consumed| <= if capacity < 1 then 1 else capacity
  }

  /** A subscriber that is never more than its capacity behind has every delta as it was
      offered, in order, and is not lagged, whatever the policy. */
  lemma {:induction false} KeepingUpSeesAll(capacity: int, overflow: Overflow, events: seq<Event>)
    requires StaysOpen(events) && KeepsUp(capacity, overflow, events)
    ensures var t := Run(capacity, overflow, events); Received(t) == t.offered && !t.state.lagged
  {
    if events != [] {
      var n := |events| - 1;
      forall k | 0 <= k <= n
        ensures events[..n][..k] == events[..k]
      {
      }
      assert KeepsUp(capacity, overflow, events[..n]);
      var t := Run(capacity, overflow, events[..n]);
      KeepingUpSeesAll(capacity, overflow, events[..n]);
      QueuesStayBounded(capacity, overflow, events[..n]);
      OpenUntilMarked(capacity, overflow, events[..n]);
      assert events[..n + 1] == events;
      match events[n]
      case Offering(d) =>
        assert |t.state.queue| < t.state.capacity;
        assert t.consumed + (t.state.queue + [d]) == Received(t) + [d];
      case Polling => PollKeepsReceived(t);
      case Refining(_) =>
      case Freshening(_) =>
    }
  }

  // ---- Advice: the newest is kept ------------------------------------------------------------------

  function Refined(events: seq<Event>): seq<Advice> {
    if events == [] then []
    else
      var n := |events| - 1;
      if events[n].Refining? then Refined(events[..n]) + [events[n].advice] else Refined(events[..n])
  }

  function Freshened(events: seq<Event>): seq<Advice> {
    if events == [] then []
    else
      var n := |events| - 1;
      if events[n].Freshening? then Freshened(events[..n]) + [events[n].advice] else Freshened(events[..n])
  }

  /** The last `capacity` of them, or all if there are no more. */
  ghost predicate Newest(kept: seq<Advice>, all: seq<Advice>, capacity: nat) {
    && |kept| == (if |all| < capacity then |all| else capacity)
    && forall i :: 0 <= i < |kept| ==> kept[i] == all[|all| - |kept| + i]
  }

  lemma AdvisedKeepsNewest(kept: seq<Advice>, all: seq<Advice>, capacity: nat, a: Advice)
    requires Newest(kept, all, capacity) && capacity >= 1
    ensures Newest(Advised(kept, capacity, a), all + [a], capacity)
  {
  }

  lemma AdviceStep(t: Trace, e: Event, refined: seq<Advice>, freshened: seq<Advice>)
    requires !t.state.closed && t.state.capacity >= 1 && !e.Draining?
    requires Newest(t.state.refinements, refined, t.state.capacity) && Newest(t.state.derived, freshened, t.state.capacity)
    ensures var s := Next(t, e).state;
            && Newest(s.refinements, if e.Refining? then refined + [e.advice] else refined, s.capacity)
            && Newest(s.derived, if e.Freshening? then freshened + [e.advice] else freshened, s.capacity)
  {
    if e.Refining? {
      AdvisedKeepsNewest(t.state.refinements, refined, t.state.capacity, e.advice);
    } else if e.Freshening? {
      AdvisedKeepsNewest(t.state.derived, freshened, t.state.capacity, e.advice);
    }
  }

  /** Each advisory channel of an open subscription holds the newest messages sent on it. */
  lemma {:induction false} NewestAdviceIsKept(capacity: int, overflow: Overflow, events: seq<Event>)
    requires StaysOpen(events)
    ensures var s := Run(capacity, overflow, events).state;
            Newest(s.refinements, Refined(events), s.capacity) && Newest(s.derived, Freshened(events), s.capacity)
  {
    if events != [] {
      var n := |events| - 1;
      NewestAdviceIsKept(capacity, overflow, events[..n]);
      OpenUntilMarked(capacity, overflow, events[..n]);
      QueuesStayBounded(capacity, overflow, events[..n]);
      AdviceStep(Run(capacity, overflow, events[..n]), events[n], Refined(events[..n]), Freshened(events[..n]));
    }
  }

  // ---- Without coalescing, an unlagged subscriber receives every delta ------------------------

  /** A subscriber that does not coalesce has received exactly what was offered if and only
      if it is not marked lagged. */
  lemma {:induction false} UnlaggedIffComplete(capacity: int, overflow: Overflow, events: seq<Event>)
    requires StaysOpen(events) && !overflow.Coalesce?
    ensures var t := Run(capacity, overflow, events);
            (Received(t) == t.offered <==> !t.state.lagged) && |Received(t)| <= |t.offered|
            && (t.state.lagged ==> |Received(t)| < |t.offered|)
  {
    if events != [] {
      var n := |events| - 1;
      var t := Run(capacity, overflow, events[..n]);
      UnlaggedIffComplete(capacity, overflow, events[..n]);
      QueuesStayBounded(capacity, overflow, events[..n]);
      OpenUntilMarked(capacity, overflow, events[..n]);
      match events[n]
      case Offering(d) =>
        assert t.consumed + (t.state.queue + [d]) == Received(t) + [d];
      case Polling => PollKeepsReceived(t);
      case Refining(_) =>
      case Freshening(_) =>
    }
  }

  // ---- Revisions only go up -----------------------------------------------------------------------

  ghost predicate Increasing(ds: seq<Delta>) {
    forall i, j :: 0 <= i < j < |ds| ==> ds[i].revision < ds[j].revision
  }

  ghost predicate AllBelow(ds: seq<Delta>, r: int) {
    forall i :: 0 <= i < |ds| ==> ds[i].revision <= r
  }

  function LastRevision(ds: seq<Delta>): int {
    if ds == [] then -1 else ds[|ds| - 1].revision
  }

  lemma AppendIncreases(ds: seq<Delta>, d: Delta, r: int)
    requires Increasing(ds) && AllBelow(ds, r) && r < d.revision
    ensures Increasing(ds + [d]) && AllBelow(ds + [d], d.revision)
  {
  }

  lemma ReplaceLastIncreases(ds: seq<Delta>, d: Delta, r: int)
    requires ds != [] && Increasing(ds) && AllBelow(ds, r) && r < d.revision
    ensures Increasing(ds[..|ds| - 1] + [d]) && AllBelow(ds[..|ds| - 1] + [d], d.revision)
  {
    var front := ds[..|ds| - 1];
    assert Increasing(front) && AllBelow(front, r);
    AppendIncreases(front, d, r);
  }

  /** What a received sequence becomes when a delta is offered. */
  lemma ReceivedAfterOffer(t: Trace, d: Delta)
    requires Bounded(t.state)
    ensures var r, r' := Received(t), Received(Next(t, Offering(d)));
            || r' == r
            || r' == r + [d]
            || (r != [] && r' == r[..|r| - 1] + [Merge(r[|r| - 1], d)])
  {
    var q := t.state.queue;
    if !t.state.closed {
      if |q| < t.state.capacity {
        assert t.consumed + (q + [d]) == t.consumed + q + [d];
      } else {
        var front := q[..|q| - 1];
        assert (t.consumed + q)[..|t.consumed| + |q| - 1] == t.consumed + front;
        assert t.consumed + (front + [Merge(q[|q| - 1], d)]) == t.consumed + front + [Merge(q[|q| - 1], d)];
      }
    }
  }

  lemma OfferKeepsIncreasing(t: Trace, d: Delta, bound: int)
    requires Bounded(t.state) && Increasing(Received(t)) && AllBelow(Received(t), bound) && bound < d.revision
    ensures var t' := Next(t, Offering(d)); Increasing(Received(t')) && AllBelow(Received(t'), d.revision)
  {
    var r, r' := Received(t), Received(Next(t, Offering(d)));
    ReceivedAfterOffer(t, d);
    AppendIncreases(r, d, bound);
    if r != [] {
      assert r[|r| - 1].revision <= bound;
      ReplaceLastIncreases(r, Merge(r[|r| - 1], d), bound);
    }
  }

  lemma {:induction false} ReceivedIncreases(capacity: int, overflow: Overflow, events: seq<Event>)
    requires Increasing(Run(capacity, overflow, events).offered)
    ensures var t := Run(capacity, overflow, events);
            Increasing(Received(t)) && AllBelow(Received(t), LastRevision(t.offered))
  {
    if events != [] {
      var n := |events| - 1;
      var t := Run(capacity, overflow, events[..n]);
      var t' := Run(capacity, overflow, events);
      assert t.offered == t'.offered[..|t.offered|];
      ReceivedIncreases(capacity, overflow, events[..n]);
      QueuesStayBounded(capacity, overflow, events[..n]);
      match events[n]
      case Offering(d) =>
        assert t'.offered[|t.offered|] == d;
        OfferKeepsIncreasing(t, d, LastRevision(t.offered));
      case Polling => PollKeepsReceived(t);
      case Refining(_) =>
      case Freshening(_) =>
      case Marking =>
      case Draining =>
        assert Received(t') == Received(t)[..|t.consumed|];
    }
  }

  /** If offered revisions increase, so do consumed revisions, whatever the policy and
      whenever the subscription is closed. */
  lemma ConsumedIncreases(capacity: int, overflow: Overflow, events: seq<Event>)
    requires Increasing(Run(capacity, overflow, events).offered)
    ensures Increasing(Run(capacity, overflow, events).consumed)
  {
    ReceivedIncreases(capacity, overflow, events);
    var t := Run(capacity, overflow, events);
    assert t.consumed == Received(t)[..|t.consumed|];
  }
}
