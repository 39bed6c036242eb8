/**
 The planner gets there. With the spec fixed, every action that changes anything leaves exactly
 one fewer to take, nothing the pods do adds or takes one, and the planner is done exactly at
 the spec: so every run that ends with nothing to do has taken exactly as many as were left.
 */
module PlannerProgress {
  import opened Wrappers
  import opened Planner
  import opened PlannerRuns
  import opened PlannerHandoffs

  // The actions between n settled pods and the spec.
  function Rest(n: nat, desired: nat): nat {
    if n <= desired then 2 * (desired - n) else 3 * (n - desired)
  }

  // The actions left, wherever a membership change stands.
  ghost function ActionsLeft(k: Cluster, desired: nat): nat {
    if k.configMap.None? then 2
    else
      var c := k.configMap.value.size;
      if k.replicas.None? then 1 + Rest(c, desired)
      else
        var n := k.replicas.value;
        if c == n + 1 then 1 + Rest(c, desired)
        else if c == n then
          if n >= 1 && exists i :: i in k.volumes && k.volumes[i] == Without(k) then 2 + Rest(n - 1, desired)
          else Rest(n, desired)
        else 1 + Rest(c, desired)
  }

  lemma AnnouncingProgresses(k: Cluster, desired: nat, k': Cluster)
    requires Settled(k) && k.replicas.value < desired
    requires k' == k.(configMap := Some(View(k.configMap.value.epoch + 1, k.replicas.value + 1)))
    ensures ActionsLeft(k', desired) + 1 == ActionsLeft(k, desired)
  {
    assert forall i :: i in k.volumes ==> k.volumes[i].epoch <= k.configMap.value.epoch;
  }

  lemma LeavingProgresses(k: Cluster, desired: nat, k': Cluster)
    requires AllLeft(k) && k' == k.(configMap := Some(View(k.configMap.value.epoch + 1, k.replicas.value - 1)))
    ensures ActionsLeft(k', desired) + 1 == ActionsLeft(k, desired)
  {
    var last := k.replicas.value - 1;
    assert last in k.volumes && k.volumes[last] == Without(k);
  }

  lemma WriteProgresses(k: Cluster, desired: nat, e: nat, m: MemberMap, k': Cluster)
    requires Sensible(k, WriteConfigMap(e, m)) && k' == k.(configMap := Some(View(e, |m|)))
    requires Settled(k) ==> k.replicas.value < desired
    requires Empty(k) ==> |m| == desired
    ensures ActionsLeft(k', desired) + 1 == ActionsLeft(k, desired)
  {
    if !Empty(k) {
      WriteCases(k, e, m);
      if |m| == k.replicas.value + 1 { AnnouncingProgresses(k, desired, k'); } else { LeavingProgresses(k, desired, k'); }
    }
  }

  lemma ScaleProgresses(k: Cluster, desired: nat, n: nat, k': Cluster)
    requires Phased(k) && Sensible(k, Scale(n)) && k' == k.(replicas := Some(n))
    ensures ActionsLeft(k', desired) + 1 == ActionsLeft(k, desired)
  {
    assert forall i :: i in k'.volumes ==> k'.volumes[i].epoch <= k'.configMap.value.epoch;
  }

  lemma PostProgresses(k: Cluster, desired: nat, a: Action, k': Cluster)
    requires a.Post? && Sensible(k, a) && k' == k.(volumes := k.volumes[a.ordinal := View(a.epoch, |a.members|)])
    requires desired < k.replicas.value
    ensures ActionsLeft(k', desired) + 1 == ActionsLeft(k, desired)
  {
    MembersSize(k.replicas.value - 1);
    assert 0 in k'.volumes && k'.volumes[0] == Without(k');
    assert forall i :: i in k.volumes ==> k.volumes[i].epoch <= k.configMap.value.epoch;
  }

  // From a settled cluster, the plan is what following the spec gives, or a wait.
  lemma SettledFollowsSpec(s: State, o: Observation)
    requires Sees(s, o) && s.desired >= 1 && Settled(s.k) && !Plan(o).Wait?
    ensures Following(s.k, s.desired, Plan(o)) && AllHealthy(o, s.k.replicas.value)
  {
    var v, set_ := s.k.configMap.value, o.statefulSet.value;
    SteadyLooksConverged(s, o);
    StepConverged(s, o);
    PlanIsStep(s, o, v, v, Converged(o, set_, v.epoch), None);
    ActsWhenSettled(s, o);
    FirstPodShows(s, o);
    FollowsSpec(s.k, o, set_);
  }

  lemma EmptyFollowsSpec(s: State, o: Observation)
    requires Sees(s, o) && Empty(s.k)
    ensures Plan(o) == WriteConfigMap(0, Members(s.desired))
  {
  }

  // ---------------------------------------------------------------- a whole state's count

  // The actions left, the template's included: a StatefulSet is created with the spec's.
  ghost function LeftIn(s: State): nat {
    ActionsLeft(s.k, s.desired) + (if s.stale && s.k.replicas.Some? then 1 else 0)
  }

  // What is pending is right for the spec as it is.
  ghost predicate Follows(s: State) {
    s.pending.Some? ==> ForSpec(s.k, s.desired, s.outdated, s.pending.value)
  }

  ghost predicate ForSpec(k: Cluster, desired: nat, outdated: bool, a: Action) {
    match a
    case WriteConfigMap(e, m) => (Empty(k) ==> |m| == desired) && (Settled(k) ==> k.replicas.value < desired)
    case Post(i, e, m) => k.replicas.Some? && desired < k.replicas.value
    case Scale(n) => k.replicas.None? ==> !outdated
    case UpdateTemplate(n) => !outdated
    case Wait(r) => true
    case Nothing => true
  }

  // Executing what is pending changes something.
  predicate Effective(s: State) {
    s.pending.Some? && Done(s) != s.(pending := None)
  }

  // ---------------------------------------------------------------- the pods' own steps

  ghost predicate Told(k: Cluster) {
    Both(k) && k.replicas.value >= 1 && exists i :: i in k.volumes && k.volumes[i] == Without(k)
  }

  // No pod is ahead of the membership without the last.
  lemma NoneAhead(k: Cluster, i: nat)
    requires Phased(k) && Both(k) && k.configMap.value.size == k.replicas.value && i in k.volumes
    ensures k.replicas.value >= 1 && k.volumes[i].epoch <= Without(k).epoch
  {
  }

  lemma AdoptKeepsTold(k: Cluster, i: nat, v: View)
    requires Phased(k) && MayAdopt(k, i, v) && k.configMap.value.size == k.replicas.value
    ensures Told(Adopted(k, i, v)) <==> Told(k)
  {
    var k' := Adopted(k, i, v);
    if Told(k) {
      var j :| j in k.volumes && k.volumes[j] == Without(k);
      if j == i && v != k.configMap.value {
        var h :| h in k.volumes && k.volumes[h] == v;
        NoneAhead(k, h);
      }
      assert j in k'.volumes && k'.volumes[j] == Without(k');
    }
    if Told(k') {
      var j :| j in k'.volumes && k'.volumes[j] == Without(k');
      if j == i {
        var h :| h in k.volumes && k.volumes[h] == v;
        assert k.volumes[h] == Without(k);
      } else {
        assert j in k.volumes && k.volumes[j] == Without(k);
      }
    }
  }

  lemma AdoptKeepsLeft(k: Cluster, i: nat, v: View, desired: nat)
    requires Phased(k) && MayAdopt(k, i, v)
    ensures ActionsLeft(Adopted(k, i, v), desired) == ActionsLeft(k, desired)
  {
    if k.configMap.value.size == k.replicas.value { AdoptKeepsTold(k, i, v); }
  }

  lemma AdoptKeepsSpec(k: Cluster, i: nat, v: View, desired: nat, outdated: bool, a: Action)
    requires Phased(k) && MayAdopt(k, i, v) && Sensible(k, a) && ForSpec(k, desired, outdated, a)
    ensures ForSpec(Adopted(k, i, v), desired, outdated, a)
  {
    AdoptKeepsPhase(k, i, v);
  }

  lemma AdoptKeepsCount(s: State, i: nat, v: View, s': State)
    requires Inv(s) && Follows(s) && MayAdopt(s.k, i, v) && s'.k == Adopted(s.k, i, v)
    requires s'.pending == s.pending && s'.desired == s.desired && s'.stale == s.stale && s'.outdated == s.outdated
    ensures LeftIn(s') == LeftIn(s) && Follows(s')
  {
    AdoptKeepsLeft(s.k, i, v, s.desired);
    if s.pending.Some? { AdoptKeepsSpec(s.k, i, v, s.desired, s.outdated, s.pending.value); }
  }

  lemma GoneKeepsCount(s: State, i: nat, s': State)
    requires Inv(s) && Follows(s) && Next(s, VolumeGone(i), s')
    ensures LeftIn(s') == LeftIn(s) && Follows(s')
  {
    assert Steady(s.k) && !Settled(s.k) && Steady(s'.k);
    assert !Told(s.k) && !Told(s'.k);
  }

  // ---------------------------------------------------------------- observing and acting

  lemma AnswersDoNotCount(k: Cluster, o: Observation, desired: nat)
    ensures ActionsLeft(Answered(k, o), desired) == ActionsLeft(k, desired)
  {
    var k' := Answered(k, o);
    assert k'.configMap == k.configMap && k'.replicas == k.replicas && k'.volumes == k.volumes;
  }

  // What is planned is planned for the spec.
  lemma PlanIsForSpec(s: State, o: Observation)
    requires Sees(s, o) && s.desired >= 1 && SeenTruly(s.seen, s.k) && Phased(s.k)
    ensures ForSpec(Answered(s.k, o), s.desired, false, Plan(o))
  {
    PlanIsSensible(s, o);
    if Settled(s.k) && !Plan(o).Wait? { SettledFollowsSpec(s, o); }
    if Empty(s.k) {
      EmptyFollowsSpec(s, o);
      MembersSize(s.desired);
    }
  }

  lemma ObserveKeepsCount(s: State, o: Observation, s': State)
    requires Inv(s) && Next(s, Observe(o), s')
    ensures LeftIn(s') == LeftIn(s) && Follows(s')
  {
    AnswersDoNotCount(s.k, o, s.desired);
    PlanIsForSpec(s, o);
  }

  // Right for the spec, executing it leaves one action fewer, if it changes anything.
  lemma ActCountsDown(s: State, s': State)
    requires Inv(s) && Follows(s) && s.pending.Some? && s' == Done(s)
    ensures if Effective(s) then LeftIn(s') + 1 == LeftIn(s) else LeftIn(s') == LeftIn(s)
  {
    match s.pending.value
    case WriteConfigMap(e, m) => WriteCountsDown(s, s');
    case Scale(n) => ScaleCountsDown(s, s');
    case Post(i, e, m) => PostCountsDown(s, s');
    case UpdateTemplate(n) => assert s'.k == s.k;
    case Wait(r) =>
    case Nothing =>
  }

  lemma WriteCountsDown(s: State, s': State)
    requires Inv(s) && Follows(s) && s.pending.Some? && s.pending.value.WriteConfigMap? && s' == Done(s)
    ensures LeftIn(s') + 1 == LeftIn(s) && Effective(s)
  {
    WriteProgresses(s.k, s.desired, s.pending.value.epoch, s.pending.value.members, s'.k);
  }

  lemma ScaleCountsDown(s: State, s': State)
    requires Inv(s) && Follows(s) && s.pending.Some? && s.pending.value.Scale? && s' == Done(s)
    ensures LeftIn(s') + 1 == LeftIn(s) && Effective(s)
  {
    ScaleProgresses(s.k, s.desired, s.pending.value.replicas, s'.k);
  }

  lemma PostCountsDown(s: State, s': State)
    requires Inv(s) && Follows(s) && s.pending.Some? && s.pending.value.Post? && s' == Done(s)
    ensures if Effective(s) then LeftIn(s') + 1 == LeftIn(s) else LeftIn(s') == LeftIn(s)
  {
    if Effective(s) { PostProgresses(s.k, s.desired, s.pending.value, s'.k); }
  }

  // Planned for a spec that has changed since, it leaves no fewer.
  lemma OldPlanDoesNot(s: State, s': State)
    requires Inv(s) && !Follows(s) && Effective(s) && s' == Done(s)
    ensures LeftIn(s') >= LeftIn(s)
  {
    match s.pending.value
    case WriteConfigMap(e, m) => OldWrite(s.k, s.desired, e, m, s'.k);
    case Post(i, e, m) => OldPost(s.k, s.desired, s.pending.value, s'.k);
    case Scale(n) =>
    case UpdateTemplate(n) => assert s'.k == s.k;
  }

  lemma OldWrite(k: Cluster, desired: nat, e: nat, m: MemberMap, k': Cluster)
    requires Sensible(k, WriteConfigMap(e, m)) && !ForSpec(k, desired, false, WriteConfigMap(e, m))
    requires k' == k.(configMap := Some(View(e, |m|)))
    ensures ActionsLeft(k', desired) >= ActionsLeft(k, desired)
  {
    if Settled(k) {
      WriteCases(k, e, m);
      assert !Told(k);
    }
  }

  lemma OldPost(k: Cluster, desired: nat, a: Action, k': Cluster)
    requires a.Post? && Sensible(k, a) && !ForSpec(k, desired, false, a)
    requires k' == k.(volumes := k.volumes[a.ordinal := View(a.epoch, |a.members|)])
    ensures ActionsLeft(k', desired) >= ActionsLeft(k, desired)
  {
    MembersSize(k.replicas.value - 1);
    assert !Told(k);
    assert 0 in k'.volumes && k'.volumes[0] == Without(k');
  }

  /** In every state of a run, executing a planned action that changes something leaves exactly one
      action fewer to take if it is right for the spec as it is then, and no fewer if it is not. */
  lemma CountsDownIff(states: seq<State>, events: seq<Event>, i: nat)
    requires Run(states, events) && i < |states| && Effective(states[i])
    ensures LeftIn(Done(states[i])) + 1 == LeftIn(states[i]) <==> Follows(states[i])
    ensures LeftIn(Done(states[i])) < LeftIn(states[i]) <==> Follows(states[i])
  {
    RunKeeps(states, events, i);
    if Follows(states[i]) { ActCountsDown(states[i], Done(states[i])); } else { OldPlanDoesNot(states[i], Done(states[i])); }
  }

  // ---------------------------------------------------------------- whole runs

  lemma EventCounts(s: State, e: Event, s': State)
    requires Inv(s) && Follows(s) && Next(s, e, s') && !e.ChangeSpec?
    ensures Follows(s')
    ensures if e.Act? && Effective(s) then LeftIn(s') + 1 == LeftIn(s) else LeftIn(s') == LeftIn(s)
  {
    match e
    case PodStarts(i, h) => AdoptKeepsCount(s, i, StartView(s, i), s');
    case Gossip(i, j) => AdoptKeepsCount(s, i, s.k.volumes[j], s');
    case VolumeGone(i) => GoneKeepsCount(s, i, s');
    case Observe(o) => ObserveKeepsCount(s, o, s');
    case Act => ActCountsDown(s, s');
    case ChangeSpec(d, stale, outdated) =>
    case PodStops(i) =>
    case HandoffDone(i) =>
    case Ping(i, j) =>
    case Drop =>
  }

  // The actions executed from state i to state j that change something.
  ghost function Executed(states: seq<State>, events: seq<Event>, i: nat, j: nat): nat
    requires i <= j <= |events| < |states|
    decreases j
  {
    if i == j then 0
    else Executed(states, events, i, j - 1) + (if events[j - 1].Act? && Effective(states[j - 1]) then 1 else 0)
  }

  /** Progress: in every run, from any state on in which nothing is pending that is not right for
      the spec, and as long as the spec does not change: the actions executed that change
      anything and those left add up to those left at the start, whatever the pods do meanwhile. */
  lemma {:induction false} ActionsAddUp(states: seq<State>, events: seq<Event>, i: nat, j: nat)
    requires Run(states, events) && i <= j <= |events| && Follows(states[i])
    requires forall k :: i <= k < j ==> !events[k].ChangeSpec?
    ensures Executed(states, events, i, j) + LeftIn(states[j]) == LeftIn(states[i]) && Follows(states[j])
    decreases j
  {
    if i < j {
      ActionsAddUp(states, events, i, j - 1);
      RunKeeps(states, events, j - 1);
      assert StepAt(states, events, j - 1);
      EventCounts(states[j - 1], events[j - 1], states[j]);
    }
  }

  // ---------------------------------------------------------------- when there is nothing to do

  // Only a settled cluster is left alone.
  lemma NothingIsSettled(s: State, o: Observation)
    requires Inv(s) && Observes(s, o) && Plan(o) == Nothing
    ensures Settled(s.k)
  {
    var action, exempt := StepIsSensible(s, o);
    var a, b := PhaseViews(s.k);
    PlanIsStep(s, o, a, b, action, exempt);
    SettledWhenNothing(s, o, action, exempt);
  }

  lemma SettledWhenNothing(s: State, o: Observation, action: Action, exempt: Option<nat>)
    requires Inv(s) && Observes(s, o) && Both(s.k) && AtStep(s.k, o, action, exempt) && action == Nothing && Phased(s.k)
    ensures Settled(s.k)
  {
    if !LooksConverged(s, o) {
      var a, e := StepOfChange(s, o);
    } else {
      StepConverged(s, o);
      ActsWhenSettled(s, o);
    }
  }

  lemma NothingIsAtSpec(s: State, o: Observation)
    requires Inv(s) && Observes(s, o) && Settled(s.k) && Plan(o) == Nothing
    ensures s.k.replicas.value == s.desired && !s.stale
  {
    var v, set_ := s.k.configMap.value, o.statefulSet.value;
    SteadyLooksConverged(s, o);
    StepConverged(s, o);
    PlanIsStep(s, o, v, v, Converged(o, set_, v.epoch), None);
    ActsWhenSettled(s, o);
    FirstPodShows(s, o);
    FollowSpecIs(o, set_, v.epoch);
  }

  lemma SettledHasNoneLeft(s: State)
    requires Settled(s.k) && s.k.replicas.value == s.desired && !s.stale
    ensures LeftIn(s) == 0
  {
    assert !Told(s.k);
  }

  // The planner has nothing to do only when the cluster is settled at the spec, with every pod's
  // handoff done.
  lemma DoneIsAtSpec(s: State, o: Observation)
    requires Inv(s) && Observes(s, o) && Plan(o) == Nothing
    ensures Settled(s.k) && s.k.replicas.value == s.desired && !s.stale && LeftIn(s) == 0 && AllHandedOff(s)
  {
    NothingIsSettled(s, o);
    SteadyLooksConverged(s, o);
    ActsOnlyHandedOff(s, o);
    NothingIsAtSpec(s, o);
    SettledHasNoneLeft(s);
  }

  /** Exact counts, for every run: from any state on in which nothing is pending that is not right
      for the spec, in every run that keeps the spec and comes to an observation with nothing to
      do, the actions executed that changed anything are exactly those left at the start, and
      the cluster is settled at the spec. */
  lemma FinishedRunsAreExact(states: seq<State>, events: seq<Event>, i: nat, j: nat, o: Observation)
    requires Run(states, events) && i <= j <= |events| && Follows(states[i])
    requires forall k :: i <= k < j ==> !events[k].ChangeSpec?
    requires Observes(states[j], o) && Plan(o) == Nothing
    ensures Executed(states, events, i, j) == LeftIn(states[i])
    ensures var s := states[j]; Settled(s.k) && s.k.replicas.value == s.desired && !s.stale && AllHandedOff(s)
  {
    ActionsAddUp(states, events, i, j);
    RunKeeps(states, events, j);
    DoneIsAtSpec(states[j], o);
  }
}
