/** From an edit to the subscribers of everything that depends on it: the code layer, the
    commits and the bus together. */
module Dependents {
  import opened Wrappers
  import opened Deltas
  import opened Subscriptions
  import opened CommitPlan
  import opened CommitRuns
  import opened LayerRuns
  import opened Announcements
  import I = Identity
  import opened NeverMiss
  import L = CodeLayer
  import N = NodeLists
  import B = Rebuild

  predicate Starts(sys: System, a: Action) {
    a.Committing? && Free(sys.writer)
  }

  function AttemptOf(a: Action): Attempt
    requires a.Committing?
  {
    Attempt(a.m, a.w, a.produced)
  }

  /** The commits that a run of the system attempts, in order. */
  ghost function AttemptsOf(sys: System, actions: seq<Action>): seq<Attempt> {
    if actions == [] then []
    else
      var n := |actions| - 1;
      AttemptsOf(sys, actions[..n]) + if Starts(RanFrom(sys, actions[..n]), actions[n]) then [AttemptOf(actions[n])] else []
  }

  lemma HeadAfter(sys: System, a: Action)
    ensures After(sys, a).head == if Starts(sys, a) then Tries(sys.head, AttemptOf(a)).state else sys.head
  {
  }

  /** Whatever the bus does meanwhile, the head goes through those commits. */
  lemma {:induction false} HeadIsTried(sys: System, actions: seq<Action>)
    ensures RanFrom(sys, actions).head == Tried(sys.head, AttemptsOf(sys, actions))
  {
    if actions != [] {
      var n := |actions| - 1;
      HeadIsTried(sys, actions[..n]);
      HeadAfter(RanFrom(sys, actions[..n]), actions[n]);
      var before, all := AttemptsOf(sys, actions[..n]), AttemptsOf(sys, actions);
      assert all != before ==> all[..|all| - 1] == before;
    }
  }

  lemma LogAfter(sys: System, a: Action)
    ensures After(sys, a).log == sys.log + if Starts(sys, a) && Succeeded(Tries(sys.head, AttemptOf(a)))
                                           then [Tries(sys.head, AttemptOf(a)).result.value.value] else []
  {
  }

  /** The log only grows. */
  lemma {:induction false} LogGrows(sys: System, actions: seq<Action>, n: nat)
    requires n <= |actions|
    ensures RanFrom(sys, actions[..n]).log <= RanFrom(sys, actions).log
  {
    var last := |actions| - 1;
    if n <= last {
      LogGrows(sys, actions[..last], n);
      assert actions[..last][..n] == actions[..n];
      LogAfter(RanFrom(sys, actions[..last]), actions[last]);
    } else {
      assert actions[..n] == actions;
    }
  }

  /** The delta of the commit at action `n` is the next one in the log of any longer run. */
  lemma LoggedAt(sys: System, actions: seq<Action>, n: nat)
    requires n < |actions| && Starts(RanFrom(sys, actions[..n]), actions[n])
    requires Succeeded(Tries(RanFrom(sys, actions[..n]).head, AttemptOf(actions[n])))
    ensures var before := RanFrom(sys, actions[..n]); var log := RanFrom(sys, actions).log;
            |before.log| < |log| && log[|before.log|] == Tries(before.head, AttemptOf(actions[n])).result.value.value
  {
    assert actions[..n + 1][..n] == actions[..n];
    LogAfter(RanFrom(sys, actions[..n]), actions[n]);
    LogGrows(sys, actions, n + 1);
  }

  ghost function Opened(head: HeadState, capacity: int): System {
    Ran(head, capacity, Coalesce, [])
  }

  /** The commit attempted after `before` installs a layer, and so far every installed change
      is one that its rebuild follows. */
  ghost predicate FollowedUpTo(head: HeadState, was: N.Project, before: seq<Attempt>, a: Attempt) {
    && AllProduced(head, was, before + [a]) && Installs(Tried(head, before), a)
    && forall k: nat :: k <= |before| ==> FollowsAt(head, was, before + [a], k)
  }

  /** The affected ids of such a commit are exact. */
  lemma ExactAfter(head: HeadState, was: N.Project, before: seq<Attempt>, a: Attempt, x: L.NodeId)
    requires B.Agrees(head.layer, was) && FollowedUpTo(head, was, before, a) && Usable(Tried(head, before), a.m, a.w)
    ensures var now := Tried(head, before); var o := Tries(now, a);
            x in o.result.value.value.affected <==>
            Reaches(a.w.engine, EngineOf(head, was, before), now.registry, o.state.registry, x)
  {
    var attempts := before + [a];
    assert attempts[..|before|] == before && attempts[|before|] == a;
    AffectedIsExact(head, was, attempts, |before|, x);
  }

  /** The run just before and just after action `n`. */
  ghost function Before(head: HeadState, capacity: int, actions: seq<Action>, n: nat): System
    requires n < |actions|
  {
    RanFrom(Opened(head, capacity), actions[..n])
  }

  ghost function Afterwards(head: HeadState, capacity: int, actions: seq<Action>, n: nat): System
    requires n < |actions|
  {
    RanFrom(Opened(head, capacity), actions[..n + 1])
  }

  /** Action `n` is a commit that goes through, over entities with paths of their own. */
  ghost predicate CommitsAt(head: HeadState, capacity: int, actions: seq<Action>, n: nat) {
    && n < |actions| && Starts(Before(head, capacity, actions, n), actions[n])
    && Installs(Before(head, capacity, actions, n).head, AttemptOf(actions[n]))
    && Usable(Before(head, capacity, actions, n).head, actions[n].m, actions[n].w)
  }

  lemma HeadAfterwards(head: HeadState, capacity: int, actions: seq<Action>, n: nat)
    requires CommitsAt(head, capacity, actions, n)
    ensures Afterwards(head, capacity, actions, n).head ==
            Tries(Before(head, capacity, actions, n).head, AttemptOf(actions[n])).state
  {
    assert actions[..n + 1][..n] == actions[..n];
    HeadAfter(Before(head, capacity, actions, n), actions[n]);
  }

  /** The subscription listens, was registered before the commit at action `n`, has been
      served that commit's delta, and asked for `x`. */
  ghost predicate Asked(head: HeadState, capacity: int, actions: seq<Action>, n: nat, k: nat, x: L.NodeId)
    requires n < |actions|
  {
    var end := RanFrom(Opened(head, capacity), actions);
    Served(end, k, |Before(head, capacity, actions, n).log|) && x in end.bus.members[k].interest.ids
  }

  lemma AffectedIsTold(head: HeadState, capacity: int, actions: seq<Action>, n: nat, k: nat, x: L.NodeId)
    requires InSync(head) && CommitsAt(head, capacity, actions, n) && Asked(head, capacity, actions, n, k, x)
    requires x in Tries(Before(head, capacity, actions, n).head, AttemptOf(actions[n])).result.value.value.affected
    ensures Told(RanFrom(Opened(head, capacity), actions).bus.members[k], x)
  {
    LoggedAt(Opened(head, capacity), actions, n);
    NeverMisses(head, capacity, actions, k, |Before(head, capacity, actions, n).log|, x);
  }

  /** Over any interleaving: an entity whose hash in the registry differs after a commit, or
      whose anchor that commit orphaned, is told to every listening subscription that was
      registered before it, has been served and asked for the entity. */
  lemma EditsAreTold(head: HeadState, capacity: int, actions: seq<Action>, n: nat, k: nat, id: I.DurableId)
    requires InSync(head) && CommitsAt(head, capacity, actions, n) && Asked(head, capacity, actions, n, k, L.EntityId(id))
    requires L.EntityId(id) in Disturbed(Before(head, capacity, actions, n).head.registry,
                                         Afterwards(head, capacity, actions, n).head.registry)
    ensures Told(RanFrom(Opened(head, capacity), actions).bus.members[k], L.EntityId(id))
  {
    var now, a := Before(head, capacity, actions, n).head, actions[n];
    HeadAfterwards(head, capacity, actions, n);
    SeedsAreDisturbed(now, a.m, a.w, a.produced);
    DeltaCoversChanges(now, a.m, a.w, a.produced);
    AffectedIsTold(head, capacity, actions, n, k, L.EntityId(id));
  }

  /** Over any interleaving: when a commit has edited or removed an entity, every listening
      subscription that was registered before it and has been served is told of each id it
      asked for that reaches the entity through the edges of a full build, however many
      references, imports and inheritances away. */
  lemma DependentsAreTold(head: HeadState, was: N.Project, capacity: int, actions: seq<Action>, n: nat, k: nat, x: L.NodeId)
    requires InSync(head) && B.Agrees(head.layer, was)
    requires CommitsAt(head, capacity, actions, n) && Asked(head, capacity, actions, n, k, x)
    requires FollowedUpTo(head, was, AttemptsOf(Opened(head, capacity), actions[..n]), AttemptOf(actions[n]))
    requires Reaches(actions[n].w.engine, EngineOf(head, was, AttemptsOf(Opened(head, capacity), actions[..n])),
                     Before(head, capacity, actions, n).head.registry, Afterwards(head, capacity, actions, n).head.registry, x)
    ensures Told(RanFrom(Opened(head, capacity), actions).bus.members[k], x)
  {
    HeadIsTried(Opened(head, capacity), actions[..n]);
    HeadAfterwards(head, capacity, actions, n);
    ExactAfter(head, was, AttemptsOf(Opened(head, capacity), actions[..n]), AttemptOf(actions[n]), x);
    AffectedIsTold(head, capacity, actions, n, k, x);
  }
}
