/**
 One change at a time. The planner begins a membership change, or says that nothing is to do,
 only when every pod has handed off to the membership there is; and a change that it has begun
 to carry out was planned then.
 */
module PlannerHandoffs {
  import opened Wrappers
  import opened Planner
  import opened PlannerRuns

  // Every pod has completed its handoff to the ConfigMap's epoch.
  ghost predicate AllHandedOff(s: State) {
    Both(s.k) && forall i: nat :: i < s.k.replicas.value ==> HandedOff(s, i) >= s.k.configMap.value.epoch
  }

  // ---------------------------------------------------------------- when it is planned

  lemma FinishedIsHandedOff(s: State, o: Observation)
    requires LooksConverged(s, o) && Unfinished(o, o.statefulSet.value, s.k.configMap.value.epoch).None?
    ensures AllHandedOff(s)
  {
    var n, epoch := s.k.replicas.value, s.k.configMap.value.epoch;
    forall i: nat | i < n ensures HandedOff(s, i) >= epoch {
      assert Healthy(PodAt(o, i)) && Answers(o, n, i);
      assert !HandoffPending(o, n, epoch);
      assert ShowsPod(s, i, o.pods[i]);
    }
  }

  /** Whatever is observed of a cluster whose pods all show the ConfigMap's membership: unless the
      planner waits, the cluster is settled and every pod has handed off to that membership. */
  lemma ActsOnlyHandedOff(s: State, o: Observation)
    requires Inv(s) && LooksConverged(s, o) && !Plan(o).Wait?
    ensures Settled(s.k) && AllHandedOff(s)
  {
    var action := Converged(o, o.statefulSet.value, s.k.configMap.value.epoch);
    StepConverged(s, o);
    var a, b := PhaseViews(s.k);
    PlanIsStep(s, o, a, b, action, None);
    ActsWhenSettled(s, o);
    FinishedIsHandedOff(s, o);
  }

  // ---------------------------------------------------------------- until it is carried out

  // Where what is planned is planned from, and what only the operator ends.
  ghost predicate Held(k: Cluster) {
    Empty(k) || Settled(k) || AllLeft(k)
  }

  // Nothing but the operator's own actions moves a cluster from there.
  lemma StaysHeld(s: State, e: Event, s': State)
    requires Inv(s) && Next(s, e, s') && !e.Act? && Held(s.k)
    ensures s'.k.configMap == s.k.configMap && s'.k.replicas == s.k.replicas && s'.k.volumes == s.k.volumes
    ensures Held(s'.k) && (Settled(s'.k) <==> Settled(s.k))
  {
    SameCluster(s, e, s');
    HeldIgnoresAnswers(s.k, s'.k);
  }

  lemma SameCluster(s: State, e: Event, s': State)
    requires Inv(s) && Next(s, e, s') && !e.Act? && Held(s.k)
    ensures s'.k == s.k.(drained := s'.k.drained) && s.k.drained <= s'.k.drained
  {
    match e
    case PodStarts(i, h) => StartKeepsHeld(s, i, s');
    case Gossip(i, j) => AdoptKeepsPhase(s.k, i, s.k.volumes[j]);
    case VolumeGone(i) => NothingLingers(s.k, i);
    case _ =>
  }

  lemma NothingLingers(k: Cluster, i: nat)
    requires Held(k) && k.replicas.Some? && i >= k.replicas.value
    ensures i !in k.volumes
  {
  }

  lemma HeldIgnoresAnswers(k: Cluster, k': Cluster)
    requires Held(k) && k' == k.(drained := k'.drained) && k.drained <= k'.drained
    ensures Held(k') && (Settled(k') <==> Settled(k))
  {
  }

  lemma StartKeepsHeld(s: State, i: nat, s': State)
    requires Inv(s) && Held(s.k) && s.k.replicas.Some? && i < s.k.replicas.value && s.k.configMap.Some?
    requires s'.k == s.k.(volumes := s.k.volumes[i := StartView(s, i)])
    ensures s'.k == s.k
  {
    AdoptKeepsPhase(s.k, i, StartView(s, i));
  }

  predicate Starts(e: Event, i: nat) {
    e.PodStarts? && e.ordinal == i
  }

  // And a pod's handoff stays done while it runs.
  lemma StaysHandedOff(s: State, e: Event, s': State, i: nat)
    requires Inv(s) && Next(s, e, s') && !e.Act? && Settled(s.k) && i < s.k.replicas.value && !Starts(e, i)
    requires HandedOff(s, i) >= s.k.configMap.value.epoch
    ensures HandedOff(s', i) >= s.k.configMap.value.epoch
  {
  }

  // The observation a pending action was planned from.
  ghost predicate PlannedAt(states: seq<State>, events: seq<Event>, j: nat, k: nat)
    requires k < |states| == |events| + 1
  {
    && j < k && events[j].Observe? && states[k].pending == Some(Plan(events[j].obs))
    && forall l :: j < l < k ==> !events[l].Act?
  }

  lemma {:induction false} WasPlanned(states: seq<State>, events: seq<Event>, k: nat) returns (j: nat)
    requires Run(states, events) && k < |states| && states[k].pending.Some?
    ensures PlannedAt(states, events, j, k)
  {
    assert k > 0;
    assert StepAt(states, events, k - 1);
    if events[k - 1].Observe? {
      j := k - 1;
    } else {
      j := WasPlanned(states, events, k - 1);
    }
  }

  // From the observation on the cluster is as it was.
  lemma {:induction false} HeldSince(states: seq<State>, events: seq<Event>, j: nat, k: nat)
    requires Run(states, events) && j <= k < |states| && Held(states[j].k)
    requires forall l :: j <= l < k ==> !events[l].Act?
    ensures Held(states[k].k) && states[k].k.configMap == states[j].k.configMap && states[k].k.replicas == states[j].k.replicas
    ensures Settled(states[k].k) <==> Settled(states[j].k)
    decreases k
  {
    if j < k {
      HeldSince(states, events, j, k - 1);
      RunKeeps(states, events, k - 1);
      assert StepAt(states, events, k - 1);
      StaysHeld(states[k - 1], events[k - 1], states[k]);
    }
  }

  lemma {:induction false} HandedOffSince(states: seq<State>, events: seq<Event>, j: nat, k: nat, i: nat)
    requires Run(states, events) && j <= k < |states| && Settled(states[j].k) && i < states[j].k.replicas.value
    requires forall l :: j <= l < k ==> !events[l].Act? && !Starts(events[l], i)
    requires HandedOff(states[j], i) >= states[j].k.configMap.value.epoch
    ensures HandedOff(states[k], i) >= states[j].k.configMap.value.epoch
    decreases k
  {
    if j < k {
      HandedOffSince(states, events, j, k - 1, i);
      HeldSince(states, events, j, k - 1);
      RunKeeps(states, events, k - 1);
      assert StepAt(states, events, k - 1);
      StaysHandedOff(states[k - 1], events[k - 1], states[k], i);
    }
  }

  // A membership change from a settled cluster.
  predicate Begins(a: Action) {
    a.WriteConfigMap? || a.Post?
  }

  lemma PlannedFromHeld(s: State, o: Observation)
    requires Inv(s) && Observes(s, o) && Begins(Plan(o))
    ensures Held(Answered(s.k, o)) && (Settled(Answered(s.k, o)) <==> Settled(s.k))
    ensures Settled(s.k) ==> AllHandedOff(s)
  {
    PlanIsSensible(s, o);
    if Settled(s.k) {
      SteadyLooksConverged(s, o);
      ActsOnlyHandedOff(s, o);
    }
  }

  // Pod i has handed off, or has started again since it was seen to have.
  ghost predicate StillHandedOff(states: seq<State>, events: seq<Event>, j: nat, k: nat, i: nat)
    requires k < |states| == |events| + 1 && Both(states[k].k)
  {
    || HandedOff(states[k], i) >= states[k].k.configMap.value.epoch
    || exists l: nat :: j < l < k && Starts(events[l], i)
  }

  lemma PlannedReady(states: seq<State>, events: seq<Event>, j: nat)
    requires Run(states, events) && j < |events| && events[j].Observe? && Begins(Plan(events[j].obs))
    ensures Held(states[j + 1].k) && (Settled(states[j + 1].k) ==> Settled(states[j].k) && AllHandedOff(states[j]))
    ensures states[j + 1].k.configMap == states[j].k.configMap && states[j + 1].k.replicas == states[j].k.replicas
    ensures states[j + 1].handedOff == states[j].handedOff
  {
    RunKeeps(states, events, j);
    assert StepAt(states, events, j);
    PlannedFromHeld(states[j], events[j].obs);
  }

  /** In every run, when a membership change begins, from a settled cluster: it was planned when
      every pod had handed off to the membership there is, and each still has when it begins,
      unless it has been restarted in between. */
  lemma ChangesBeginHandedOff(states: seq<State>, events: seq<Event>, k: nat) returns (j: nat)
    requires Run(states, events) && k < |events| && events[k].Act?
    requires states[k].pending.Some? && Begins(states[k].pending.value) && Settled(states[k].k)
    ensures PlannedAt(states, events, j, k) && AllHandedOff(states[j])
    ensures states[j].k.configMap == states[k].k.configMap && states[j].k.replicas == states[k].k.replicas
    ensures forall i: nat :: i < states[k].k.replicas.value ==> StillHandedOff(states, events, j, k, i)
  {
    j := WasPlanned(states, events, k);
    PlannedReady(states, events, j);
    HeldSince(states, events, j + 1, k);
    forall i: nat | i < states[k].k.replicas.value ensures StillHandedOff(states, events, j, k, i) {
      KeptUntil(states, events, j, k, i);
    }
  }

  lemma KeptUntil(states: seq<State>, events: seq<Event>, j: nat, k: nat, i: nat)
    requires Run(states, events) && k < |events| && PlannedAt(states, events, j, k) && AllHandedOff(states[j])
    requires Settled(states[j + 1].k) && states[j + 1].k.configMap == states[j].k.configMap == states[k].k.configMap
    requires states[j + 1].k.replicas == states[j].k.replicas && Both(states[k].k) && i < states[j].k.replicas.value
    requires states[j + 1].handedOff == states[j].handedOff
    ensures StillHandedOff(states, events, j, k, i)
  {
    if forall l: nat :: j < l < k ==> !Starts(events[l], i) {
      assert HandedOff(states[j + 1], i) == HandedOff(states[j], i);
      HandedOffSince(states, events, j + 1, k, i);
    }
  }
}
