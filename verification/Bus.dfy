/** The bus: registration, fan-out in revision order, and its lock. Each locked region is
    one step on the value of the bus, and the class carries out those steps. */
module Bus {
  import opened Wrappers
  import opened Orders
  import opened Deltas
  import opened Subscriptions

  // ---- The bus as a value -----------------------------------------------------------------

  datatype Member = Member(interest: Interest, trace: Trace, registered: bool)

  /** `members` are all subscriptions ever handed out; `jammed` says that a thread waits
      for the bus lock while holding it, so that nobody will ever get it again. */
  datatype BusState = BusState(
    capacity: int,
    overflow: Overflow,
    members: seq<Member>,
    lastPublished: int,
    closed: bool,
    jammed: bool)

  function NewBus(capacity: int, overflow: Overflow): BusState {
    BusState(capacity, overflow, [], -1, false, false)
  }

  function Registered(b: BusState): set<nat> {
    set k: nat | k < |b.members| && b.members[k].registered
  }

  /** Registers a new subscription. On a closed bus the call closes it while it holds the
      bus lock, and closing asks for that lock again. */
  function Subscribed(b: BusState, i: Interest): BusState {
    if b.jammed then b
    else if b.closed then b.(jammed := true)
    else b.(members := b.members + [Member(i, NewTrace(b.capacity, b.overflow), true)])
  }

  /** What the locked region of `publish` decides. */
  datatype Admission = Blocked | Skipped | OutOfOrder | Admitted(targets: set<nat>)

  function Admit(b: BusState, revision: int): Admission {
    if b.jammed then Blocked
    else if b.closed || Registered(b) == {} then Skipped
    else if revision <= b.lastPublished then OutOfOrder
    else Admitted(Registered(b))
  }

  function AfterAdmit(b: BusState, revision: int): BusState {
    if Admit(b, revision).Admitted? then b.(lastPublished := revision) else b
  }

  function StepAt(b: BusState, k: nat, e: Event): BusState
    requires k < |b.members|
  {
    b.(members := b.members[k := b.members[k].(trace := Next(b.members[k].trace, e))])
  }

  /** One subscriber is offered its slice of the delta. */
  function Delivered(b: BusState, k: nat, d: Delta): BusState
    requires k < |b.members|
  {
    match Offered(b.members[k].interest, d)
    case None => b
    case Some(slice) => StepAt(b, k, Offering(slice))
  }

  function Unregistered(b: BusState, k: nat): BusState
    requires k < |b.members|
  {
    if b.jammed then b else b.(members := b.members[k := b.members[k].(registered := false)])
  }

  function AllUnregistered(members: seq<Member>): seq<Member> {
    seq(|members|, k requires 0 <= k < |members| => members[k].(registered := false))
  }

  /** The locked region of `close`. */
  function Shut(b: BusState): BusState {
    if b.jammed || b.closed then b else b.(closed := true, members := AllUnregistered(b.members))
  }

  // ---- What admission and service mean ----------------------------------------------------------

  /** A delta is fanned out exactly if the bus is open and free, somebody is registered, and
      its revision is newer than the last one; with somebody there, an older one is refused. */
  lemma AdmittedIff(b: BusState, revision: int)
    ensures var listening := !b.jammed && !b.closed && exists k: nat :: k < |b.members| && b.members[k].registered;
            && (Admit(b, revision).Admitted? <==> listening && revision > b.lastPublished)
            && (Admit(b, revision).OutOfOrder? <==> listening && revision <= b.lastPublished)
            && (AfterAdmit(b, revision).lastPublished == if listening && revision > b.lastPublished then revision else b.lastPublished)
            && (forall k :: Admit(b, revision).Admitted? ==>
                  (k in Admit(b, revision).targets <==> 0 <= k < |b.members| && b.members[k].registered))
  {
    if k: nat :| k < |b.members| && b.members[k].registered {
      assert k in Registered(b);
    }
  }

  /** A new subscription on an open bus is registered, open and empty. */
  lemma SubscribedListens(b: BusState, i: Interest)
    requires !b.jammed && !b.closed
    ensures var b' := Subscribed(b, i); var k := |b.members|;
            && |b'.members| == k + 1 && b'.members[..k] == b.members && b'.members[k].registered && b'.members[k].interest == i
            && !b'.members[k].trace.state.closed && Received(b'.members[k].trace) == []
            && b'.members[k].trace.state.overflow == b.overflow
            && b'.members[k].trace.state.capacity == (if b.capacity < 1 then 1 else b.capacity)
  {
  }

  // ---- The bus as an object ---------------------------------------------------------------------

  /** Whether a call came back. */
  datatype Call<+T> = Returned(value: T) | Hung

  ghost function MembersOf(roster: seq<Subscription>, subs: set<Subscription>): seq<Member>
    reads roster
  {
    seq(|roster|, k requires 0 <= k < |roster| reads roster =>
      Member(roster[k].interest, roster[k].Value(), roster[k] in subs))
  }

  class Bus {
    const capacity: int
    const overflow: Overflow
    var subs: set<Subscription>
    var closed: bool
    var lastPublished: int
    /** The non-reentrant lock is taken. */
    var locked: bool
    ghost var roster: seq<Subscription>

    ghost function Value(): BusState
      reads this, roster
    {
      BusState(capacity, overflow, MembersOf(roster, subs), lastPublished, closed, locked)
    }

    ghost predicate Valid()
      reads this
    {
      Distinct(roster) && forall s :: s in subs ==> s in roster
    }

    constructor (capacity: int, overflow: Overflow)
      ensures Valid() && roster == [] && Value() == NewBus(capacity, overflow)
    {
      this.capacity, this.overflow := capacity, overflow;
      subs, closed, lastPublished, locked, roster := {}, false, -1, false, [];
    }

    /** Asking for the lock while it is taken never ends: whoever holds it between calls
        is a thread that waits for itself. */
    method Acquire() returns (got: bool)
      modifies this`locked
      ensures got == !old(locked) && locked
    {
      got := !locked;
      locked := true;
    }

    /** The call returns if and only if the bus is open. On a closed bus it closes the new
        subscription while holding the lock; that unregisters it, which takes the lock. */
    method Subscribe(interest: Interest) returns (sub: Call<Subscription>)
      requires Valid()
      modifies this`subs, this`locked, this`roster
      ensures Valid() && Value() == Subscribed(old(Value()), interest)
      ensures sub.Returned? <==> !old(closed) && !old(locked)
      ensures sub.Returned? ==> fresh(sub.value) && roster == old(roster) + [sub.value] && sub.value.interest == interest
    {
      var s := new Subscription(interest, capacity, overflow);
      var got := Acquire();
      if !got {
        return Hung;
      }
      if closed {
        var _ := s.MarkClosed();
        var again := Acquire();
        assert !again;
        return Hung;
      }
      subs, roster := subs + {s}, roster + [s];
      locked := false;
      sub := Returned(s);
    }

    lemma SubsAreRegistered()
      requires Valid()
      ensures forall k: nat :: k in Registered(Value()) <==> k < |roster| && roster[k] in subs
      ensures Registered(Value()) == {} <==> subs == {}
    {
      if subs != {} {
        var s :| s in subs;
        var k :| 0 <= k < |roster| && roster[k] == s;
        assert k in Registered(Value());
      }
      if Registered(Value()) != {} {
        var k :| k in Registered(Value());
        assert roster[k] in subs;
      }
    }

    /** The locked region of `publish`: the subscribers to serve, or nothing when the
        revision-order assertion fires. */
    method AdmitDelta(revision: int) returns (a: Call<Option<set<Subscription>>>)
      requires Valid()
      modifies this`lastPublished
      ensures Value() == AfterAdmit(old(Value()), revision)
      ensures match Admit(old(Value()), revision)
              case Blocked => a == Hung
              case Skipped => a == Returned(Some({}))
              case OutOfOrder => a == Returned(None)
              case Admitted(_) => a == Returned(Some(subs))
    {
      if locked {
        return Hung;
      }
      SubsAreRegistered();
      if closed || subs == {} {
        return Returned(Some({}));
      }
      if revision <= lastPublished {
        return Returned(None);
      }
      lastPublished := revision;
      a := Returned(Some(subs));
    }

    /** Offers one subscriber its slice; reports whether it has to be closed. */
    method FanOut(sub: Subscription, delta: Delta, ghost k: nat) returns (shouldClose: bool)
      requires Valid() && k < |roster| && roster[k] == sub
      modifies sub
      ensures Value() == Delivered(old(Value()), k, delta)
      ensures shouldClose == (Offered(sub.interest, delta).Some? && Overflows(old(sub.Value()).state))
    {
      var interest := sub.interest;
      shouldClose := false;
      if interest.all || delta.rescan {
        shouldClose := sub.Offer(ScopedTo(delta, interest));
      } else if Matches(interest, delta.affected, delta.files, delta.layers) {
        var scoped := ScopedTo(delta, interest);
        if !IsEmpty(scoped) {
          shouldClose := sub.Offer(scoped);
        }
      }
      assert Value().members == Delivered(old(Value()), k, delta).members;
    }

    method Poll(sub: Subscription, ghost k: nat) returns (delta: Option<Delta>)
      requires Valid() && k < |roster| && roster[k] == sub
      modifies sub
      ensures Value() == StepAt(old(Value()), k, Polling) && delta == AfterPoll(old(sub.Value()).state).1
    {
      delta := sub.Poll();
      assert Value().members == StepAt(old(Value()), k, Polling).members;
    }

    /** Closes one subscription: mark, unregister, drain. Closing again changes nothing. */
    method CloseSubscription(sub: Subscription, ghost k: nat) returns (r: Call<bool>)
      requires Valid() && k < |roster| && roster[k] == sub
      modifies this`subs, sub
      ensures Valid() && (r.Hung? <==> !old(sub.closed) && locked)
      ensures Value() == SubscriptionClosed(old(Value()), k) && subs <= old(subs)
    {
      var first := sub.MarkClosed();
      if first {
        if locked {
          assert Value().members == SubscriptionClosed(old(Value()), k).members;
          return Hung;
        }
        subs := subs - {sub};
        sub.Drain();
      }
      assert Value().members == SubscriptionClosed(old(Value()), k).members;
      r := Returned(first);
    }

    method ServeOne(sub: Subscription, delta: Delta, ghost k: nat)
      requires Valid() && k < |roster| && roster[k] == sub && !locked
      modifies this`subs, sub
      ensures Valid() && Value() == Served(old(Value()), {k}, delta)
    {
      var shouldClose := FanOut(sub, delta, k);
      if shouldClose {
        var _ := CloseSubscription(sub, k);
      }
      assert Value().members == Served(old(Value()), {k}, delta).members;
    }

    /** Fans a delta out to everyone registered when it is admitted. The result is false
        when the revision-order assertion fires, and then nothing has changed. */
    method Publish(delta: Delta) returns (r: Call<bool>)
      requires Valid()
      modifies this`subs, this`lastPublished, subs
      ensures Valid()
      ensures match Admit(old(Value()), delta.revision)
              case Blocked => r == Hung && Value() == old(Value())
              case Skipped => r == Returned(true) && Value() == old(Value())
              case OutOfOrder => r == Returned(false) && Value() == old(Value())
              case Admitted(targets) => r == Returned(true) && Value() == Served(AfterAdmit(old(Value()), delta.revision), targets, delta)
    {
      SubsAreRegistered();
      ghost var targets := Registered(Value());
      var snapshot := AdmitDelta(delta.revision);
      if snapshot.Hung? {
        return Hung;
      }
      if snapshot.value.None? {
        return Returned(false);
      }
      if snapshot.value.value == {} {
        return Returned(true);
      }
      ServeAll(snapshot.value.value, delta, targets);
      r := Returned(true);
    }

    method ServeAll(snapshot: set<Subscription>, delta: Delta, ghost targets: set<nat>)
      requires Valid() && !locked && snapshot <= subs && Indexes(targets, snapshot)
      modifies this`subs, snapshot
      ensures Valid() && Value() == Served(old(Value()), targets, delta)
    {
      var rest := snapshot;
      ghost var left := targets;
      ghost var change := m => ServedMember(m, delta);
      ChangedNone(Value(), change);
      assert targets - left == {};
      while rest != {}
        invariant Valid() && rest <= snapshot && left <= targets && Indexes(left, rest)
        invariant Value() == Changed(old(Value()), targets - left, change)
        decreases |rest|
      {
        var sub :| sub in rest;
        ghost var k := IndexOf(left, rest, sub);
        ChangedMore(old(Value()), targets - left, k, change);
        assert targets - (left - {k}) == targets - left + {k};
        ServeOne(sub, delta, k);
        rest, left := rest - {sub}, left - {k};
      }
      assert targets - left == targets;
    }

    /** Unregisters everyone, then closes each subscription. */
    method Close() returns (r: Call<bool>)
      requires Valid()
      modifies this`closed, this`subs, subs
      ensures Valid() && (r.Hung? <==> locked)
      ensures Value() == if locked || old(closed) then old(Value())
                         else Changed(Shut(old(Value())), Registered(old(Value())), ClosedMember)
    {
      if locked {
        return Hung;
      }
      if closed {
        return Returned(false);
      }
      SubsAreRegistered();
      ghost var targets := Registered(Value());
      var snapshot := subs;
      closed, subs := true, {};
      assert Value().members == Shut(old(Value())).members;
      CloseAll(snapshot, targets);
      r := Returned(true);
    }

    method CloseAll(snapshot: set<Subscription>, ghost targets: set<nat>)
      requires Valid() && !locked && subs == {} && Indexes(targets, snapshot)
      modifies this`subs, snapshot
      ensures Valid() && Value() == Changed(old(Value()), targets, ClosedMember)
    {
      var rest := snapshot;
      ghost var left := targets;
      ChangedNone(Value(), ClosedMember);
      assert targets - left == {};
      while rest != {}
        invariant Valid() && subs == {} && rest <= snapshot && left <= targets && Indexes(left, rest)
        invariant Value() == Changed(old(Value()), targets - left, ClosedMember)
        decreases |rest|
      {
        var sub :| sub in rest;
        ghost var k := IndexOf(left, rest, sub);
        ChangedMore(old(Value()), targets - left, k, ClosedMember);
        assert targets - (left - {k}) == targets - left + {k};
        CloseOne(sub, k);
        rest, left := rest - {sub}, left - {k};
      }
      assert targets - left == targets;
    }

    method CloseOne(sub: Subscription, ghost k: nat)
      requires Valid() && !locked && subs == {} && k < |roster| && roster[k] == sub
      modifies this`subs, sub
      ensures Valid() && subs == {} && Value() == Changed(old(Value()), {k}, ClosedMember)
    {
      var _ := CloseSubscription(sub, k);
      assert Value().members == Changed(old(Value()), {k}, ClosedMember).members;
    }

    /** The roster positions of the given subscriptions. */
    ghost predicate Indexes(ks: set<nat>, some: set<Subscription>)
      reads this`roster
    {
      (forall s :: s in some ==> s in roster) && forall k: nat :: k in ks <==> k < |roster| && roster[k] in some
    }

    lemma IndexOf(ks: set<nat>, some: set<Subscription>, sub: Subscription) returns (k: nat)
      requires Valid() && Indexes(ks, some) && sub in some
      ensures k < |roster| && roster[k] == sub && k in ks && Indexes(ks - {k}, some - {sub})
    {
      k :| 0 <= k < |roster| && roster[k] == sub;
    }
  }

  /** The three steps of closing a subscription, of which a jammed bus stops the last two. */
  function SubscriptionClosed(b: BusState, k: nat): BusState
    requires k < |b.members|
  {
    if b.members[k].trace.state.closed then b
    else
      var marked := StepAt(b, k, Marking);
      if b.jammed then marked else StepAt(Unregistered(marked, k), k, Draining)
  }

  /** A subscriber after its part of the fan-out. */
  function ServedMember(m: Member, d: Delta): Member {
    match Offered(m.interest, d)
    case None => m
    case Some(slice) =>
      var t := Next(m.trace, Offering(slice));
      if Overflows(m.trace.state) then Member(m.interest, Next(Next(t, Marking), Draining), false) else m.(trace := t)
  }

  /** Being served closes a subscription exactly if it has to give up on overflow, is full,
      and the delta is for it; it is then unregistered and empty. */
  lemma ServedClosesIff(m: Member, d: Delta)
    requires !m.trace.state.closed
    ensures var m' := ServedMember(m, d);
            && (m'.trace.state.closed <==>
                  m.trace.state.overflow.ErrorAndClose? && |m.trace.state.queue| >= m.trace.state.capacity && Offered(m.interest, d).Some?)
            && (m'.trace.state.closed ==> !m'.registered && m'.trace.state.queue == [] && m'.trace.state.lagged)
            && (!m'.trace.state.closed ==> m'.registered == m.registered)
  {
  }

  function Served(b: BusState, targets: set<nat>, d: Delta): BusState {
    Changed(b, targets, m => ServedMember(m, d))
  }

  /** A subscriber after its close. */
  function ClosedMember(m: Member): Member {
    if m.trace.state.closed then m else Member(m.interest, Next(Next(m.trace, Marking), Draining), false)
  }

  /** The members at the given positions change. */
  function Changed(b: BusState, targets: set<nat>, change: Member -> Member): BusState {
    b.(members := seq(|b.members|, k requires 0 <= k < |b.members| =>
         if k in targets then change(b.members[k]) else b.members[k]))
  }

  ghost predicate ClosedFor(m: Member, m': Member) {
    && !m'.registered && m'.interest == m.interest && m'.trace.consumed == m.trace.consumed
    && m'.trace.state.closed && m'.trace.state.queue == [] && m'.trace.state.refinements == [] && m'.trace.state.derived == []
  }

  /** Closing an open bus leaves nobody registered, closes and empties whoever was, and alters
      nothing of anybody else. */
  lemma ClosedBusMeans(b: BusState, k: nat)
    requires !b.jammed && !b.closed && k < |b.members| && (b.members[k].registered ==> !b.members[k].trace.state.closed)
    ensures var b' := Changed(Shut(b), Registered(b), ClosedMember);
            && b'.closed && !b'.jammed && b'.lastPublished == b.lastPublished && |b'.members| == |b.members|
            && if b.members[k].registered then ClosedFor(b.members[k], b'.members[k]) else b'.members[k] == b.members[k]
  {
    assert k in Registered(b) <==> b.members[k].registered;
    var m := Shut(b).members[k];
    assert m == b.members[k].(registered := false);
    assert b.members[k].registered ==> ClosedFor(m, ClosedMember(m));
    assert Changed(Shut(b), Registered(b), ClosedMember).members[k] == if b.members[k].registered then ClosedMember(m) else m;
  }

  /** Closing a subscription that is open closes, unregisters and empties it, and alters nothing
      else; closing it again does nothing. */
  lemma ClosedSubscriptionMeans(b: BusState, k: nat)
    requires !b.jammed && k < |b.members|
    ensures var b' := SubscriptionClosed(b, k);
            && b'.closed == b.closed && b'.lastPublished == b.lastPublished && |b'.members| == |b.members|
            && (forall j :: 0 <= j < |b.members| && j != k ==> b'.members[j] == b.members[j])
            && if b.members[k].trace.state.closed then b' == b else ClosedFor(b.members[k], b'.members[k])
  {
  }

  lemma ChangedNone(b: BusState, change: Member -> Member)
    ensures Changed(b, {}, change) == b
  {
  }

  lemma ChangedMore(b: BusState, done: set<nat>, k: nat, change: Member -> Member)
    requires k < |b.members| && k !in done
    ensures Changed(Changed(b, done, change), {k}, change) == Changed(b, done + {k}, change)
  {
  }
}
