/**
 The planner over whole runs: the operator observes, plans, and acts some time later or not at
 all, while the spec changes, pods start, stop, restart on their volumes and adopt newer
 memberships from each other. Only the operator edits the ConfigMap and the StatefulSet. No
 run reaches a state the planner cannot explain, and a pod is removed only after it drained.
 */
module PlannerRuns {
  import opened Wrappers
  import opened Planner

  // A membership of the first `size` pods.
  datatype View = View(epoch: nat, size: nat)

  // What a membership change goes through.
  datatype Cluster = Cluster(
    configMap: Option<View>,
    replicas: Option<nat>,               // the StatefulSet's
    volumes: map<nat, View>,             // the view on each pod's volume, which its pod holds
    drained: set<(nat, nat)>             // (ordinal, epoch): pods that answered that they drained
  )

  datatype State = State(
    k: Cluster,
    desired: nat,                        // the spec's replicas
    stale: bool,                         // the StatefulSet's pod template is not the spec's
    running: set<nat>,
    handedOff: map<nat, nat>,            // the epoch of each pod's last completed handoff
    seen: map<(nat, nat), nat>,          // the epoch one pod last saw another at
    pending: Option<Action>,
    outdated: bool                       // what is pending would render another template than the spec's
  )

  datatype Event =
    | ChangeSpec(replicas: nat, stale: bool, outdated: bool)
    | PodStarts(ordinal: nat, handoff: nat)
    | PodStops(ordinal: nat)
    | VolumeGone(ordinal: nat)
    | Gossip(ordinal: nat, from: nat)
    | HandoffDone(ordinal: nat)
    | Ping(ordinal: nat, peer: nat)
    | Observe(obs: Observation)
    | Act
    | Drop

  function HandedOff(s: State, i: nat): nat {
    if i in s.handedOff then s.handedOff[i] else 0
  }

  function LastSeen(s: State, i: nat, j: nat): nat {
    if (i, j) in s.seen then s.seen[(i, j)] else 0
  }

  // A pod outside its own membership has handed off, and seen every member there.
  ghost predicate Drained(s: State, i: nat, epoch: nat) {
    && i in s.k.volumes && i >= s.k.volumes[i].size && HandedOff(s, i) >= epoch
    && forall j :: 0 <= j < s.k.volumes[i].size ==> LastSeen(s, i, j) >= epoch
  }

  // What an observation may show of pod i: nothing, or the truth.
  ghost predicate ShowsPod(s: State, i: nat, p: PodObs) {
    && (i in s.running ==> p.exists_)
    && (p.membership.Some? ==>
          && i in s.running && i in s.k.volumes && p.membership.value.epoch == s.k.volumes[i].epoch
          && p.membership.value.members == Members(s.k.volumes[i].size)
          && (p.membership.value.handoffDone ==> HandedOff(s, i) >= p.membership.value.handoffEpoch))
    && (p.drain.Some? && p.drain.value.drained ==> Drained(s, i, p.drain.value.epoch))
  }

  ghost predicate Observes(s: State, o: Observation) {
    && o.desired == s.desired && o.volumes == s.k.volumes.Keys
    && (s.k.configMap.None? ==> o.configMap.None?)
    && (s.k.configMap.Some? ==> o.configMap == Some(MapObs(s.k.configMap.value.epoch, Members(s.k.configMap.value.size), false)))
    && (s.k.replicas.None? ==> o.statefulSet.None?)
    && (s.k.replicas.Some? ==>
          o.statefulSet.Some? && o.statefulSet.value.replicas == s.k.replicas.value && (o.statefulSet.value.templateCurrent <==> !s.stale))
    && (forall i :: i in s.running ==> i < |o.pods|)
    && forall i: nat :: i < |o.pods| ==> ShowsPod(s, i, o.pods[i])
  }

  ghost function DrainAnswers(o: Observation): set<(nat, nat)> {
    set i | 0 <= i < |o.pods| && o.pods[i].drain.Some? && o.pods[i].drain.value.drained :: (i, o.pods[i].drain.value.epoch)
  }

  ghost function Answered(k: Cluster, o: Observation): Cluster {
    k.(drained := k.drained + DrainAnswers(o))
  }

  // The view a pod starts with: the ConfigMap's, unless its volume has a newer one.
  function StartView(s: State, i: nat): View
    requires s.k.configMap.Some?
  {
    if i in s.k.volumes && s.k.volumes[i].epoch >= s.k.configMap.value.epoch then s.k.volumes[i] else s.k.configMap.value
  }

  // What executing the planned action does. A membership no newer than the pod's is refused;
  // scaling leaves the pod template alone, unless it creates the StatefulSet.
  function Done(s: State): State
    requires s.pending.Some?
  {
    var t := s.(pending := None);
    match s.pending.value
    case WriteConfigMap(e, m) => t.(k := s.k.(configMap := Some(View(e, |m|))))
    case Scale(n) => t.(k := s.k.(replicas := Some(n)), stale := if s.k.replicas.None? then s.outdated else s.stale)
    case Post(i, e, m) =>
      if i in s.running && i in s.k.volumes && e > s.k.volumes[i].epoch then t.(k := s.k.(volumes := s.k.volumes[i := View(e, |m|)])) else t
    case UpdateTemplate(n) => t.(k := s.k.(replicas := Some(n)), stale := s.outdated)
    case Wait(r) => t
    case Nothing => t
  }

  ghost predicate Next(s: State, e: Event, s': State) {
    match e
    case ChangeSpec(d, stale, outdated) => d >= 1 && s' == s.(desired := d, stale := stale, outdated := outdated)
    case PodStarts(i, h) =>
      // A pod that the ConfigMap does not list fails to start.
      && s.k.replicas.Some? && i < s.k.replicas.value && i !in s.running && s.k.configMap.Some? && i < s.k.configMap.value.size
      && s' == s.(k := s.k.(volumes := s.k.volumes[i := StartView(s, i)]), running := s.running + {i},
                  handedOff := s.handedOff[i := h], seen := map p | p in s.seen && p.0 != i :: s.seen[p])
    case PodStops(i) => s' == s.(running := s.running - {i})
    case VolumeGone(i) =>
      && s.k.replicas.Some? && i >= s.k.replicas.value && i !in s.running && i in s.k.volumes
      && s' == s.(k := s.k.(volumes := s.k.volumes - {i}))
    case Gossip(i, j) =>
      && i in s.running && j in s.running && i in s.k.volumes && j in s.k.volumes
      && s.k.volumes[j].epoch > s.k.volumes[i].epoch
      && s' == s.(k := s.k.(volumes := s.k.volumes[i := s.k.volumes[j]]))
    case HandoffDone(i) =>
      i in s.running && i in s.k.volumes && s' == s.(handedOff := s.handedOff[i := s.k.volumes[i].epoch])
    case Ping(i, j) =>
      i in s.running && j in s.running && j in s.k.volumes && s' == s.(seen := s.seen[(i, j) := s.k.volumes[j].epoch])
    case Observe(o) =>
      Observes(s, o) && s' == s.(pending := Some(Plan(o)), outdated := false, k := Answered(s.k, o))
    case Act => s.pending.Some? && s' == Done(s)
    case Drop => s' == s.(pending := None)
  }

  // ---------------------------------------------------------------- the phases of a change

  function Upto(n: nat): (s: set<nat>)
    ensures forall i :: i in s <==> 0 <= i < n
  {
    if n == 0 then {} else Upto(n - 1) + {n - 1}
  }

  ghost predicate AllIn(k: Cluster, a: View, b: View) {
    forall i :: i in k.volumes ==> k.volumes[i] == a || k.volumes[i] == b
  }

  // Nothing exists yet, or only the ConfigMap.
  ghost predicate Empty(k: Cluster) {
    k.configMap.None? && k.replicas.None? && k.volumes == map[]
  }

  ghost predicate Created(k: Cluster) {
    k.configMap.Some? && k.configMap.value.epoch == 0 && k.configMap.value.size >= 1 && k.replicas.None? && k.volumes == map[]
  }

  ghost predicate Both(k: Cluster) {
    k.configMap.Some? && k.replicas.Some?
  }

  // No change in flight; a removed pod's volume may linger.
  ghost predicate Steady(k: Cluster) {
    && Both(k) && k.configMap.value.size == k.replicas.value >= 1
    && AllIn(k, k.configMap.value, k.configMap.value)
  }

  // U1 done: the ConfigMap names the new pod, whose place is free.
  ghost predicate Announced(k: Cluster) {
    && Both(k) && k.configMap.value.size == k.replicas.value + 1 && k.configMap.value.epoch >= 1 && k.replicas.value >= 1
    && k.volumes.Keys == Upto(k.replicas.value)
    && AllIn(k, View(k.configMap.value.epoch - 1, k.replicas.value), k.configMap.value)
  }

  // U2 done: the new pod may exist, and its membership spreads.
  ghost predicate Spreading(k: Cluster) {
    && Both(k) && k.configMap.value.size == k.replicas.value && k.configMap.value.epoch >= 1 && k.replicas.value >= 2
    && k.volumes.Keys <= Upto(k.replicas.value)
    && AllIn(k, View(k.configMap.value.epoch - 1, k.replicas.value - 1), k.configMap.value)
  }

  // The membership without the last pod.
  function Without(k: Cluster): View
    requires k.configMap.Some? && k.replicas.Some? && k.replicas.value >= 1
  {
    View(k.configMap.value.epoch + 1, k.replicas.value - 1)
  }

  // D1 done: the membership without the last pod spreads, and that pod drains.
  ghost predicate Leaving(k: Cluster) {
    && Both(k) && k.configMap.value.size == k.replicas.value >= 2
    && k.volumes.Keys == Upto(k.replicas.value)
    && AllIn(k, k.configMap.value, Without(k))
  }

  // D3 done: the last pod has drained, and every pod holds the ConfigMap's membership.
  ghost predicate Left(k: Cluster) {
    && Both(k) && k.configMap.value.size + 1 == k.replicas.value && k.configMap.value.size >= 1
    && k.volumes.Keys == Upto(k.replicas.value)
    && AllIn(k, k.configMap.value, k.configMap.value)
    && (k.replicas.value - 1, k.configMap.value.epoch) in k.drained
  }

  ghost predicate Phased(k: Cluster) {
    Empty(k) || Created(k) || Steady(k) || Announced(k) || Spreading(k) || Leaving(k) || Left(k)
  }

  // Steady, with exactly its own volumes: where a change may begin.
  ghost predicate Settled(k: Cluster) {
    Steady(k) && k.volumes.Keys == Upto(k.replicas.value)
  }

  // Leaving, with every pod at the new membership and the last one drained.
  ghost predicate AllLeft(k: Cluster) {
    && Leaving(k) && AllIn(k, Without(k), Without(k))
    && (k.replicas.value - 1, k.configMap.value.epoch + 1) in k.drained
  }

  // What a planned action still relies on when it is executed.
  ghost predicate Sensible(k: Cluster, a: Action) {
    match a
    case Nothing => true
    case Wait(r) => true
    case UpdateTemplate(n) => k.replicas == Some(n)
    case WriteConfigMap(e, m) =>
      || (Empty(k) && e == 0 && |m| >= 1 && m == Members(|m|))
      || (Settled(k) && e == k.configMap.value.epoch + 1 && m == Members(k.replicas.value + 1))
      || (AllLeft(k) && e == k.configMap.value.epoch + 1 && m == Members(k.replicas.value - 1))
    case Scale(n) =>
      || (Created(k) && n == k.configMap.value.size)
      || (Announced(k) && n == k.replicas.value + 1)
      || (Left(k) && n == k.configMap.value.size)
    case Post(i, e, m) =>
      Settled(k) && k.replicas.value >= 2 && i == 0 && e == k.configMap.value.epoch + 1 && m == Members(k.replicas.value - 1)
  }

  // No pod is remembered at an epoch it has not reached.
  ghost predicate SeenTruly(seen: map<(nat, nat), nat>, k: Cluster) {
    forall p :: p in seen ==>
      if p.1 in k.volumes then seen[p] <= k.volumes[p.1].epoch
      else k.configMap.Some? && seen[p] <= k.configMap.value.epoch
  }

  ghost predicate Planned(k: Cluster, pending: Option<Action>) {
    pending.Some? ==> Sensible(k, pending.value)
  }

  ghost predicate Inv(s: State) {
    && s.desired >= 1 && s.running <= s.k.volumes.Keys
    && Phased(s.k) && SeenTruly(s.seen, s.k) && Planned(s.k, s.pending)
  }

  // ---------------------------------------------------------------- what an observation shows

  ghost predicate Sees(s: State, o: Observation) {
    Observes(s, o) && s.running <= s.k.volumes.Keys
  }

  // A pod that answers shows its volume's view.
  lemma ShownTruly(s: State, o: Observation, n: nat, i: nat)
    requires Sees(s, o) && Answers(o, n, i)
    ensures i in s.k.volumes && i < |o.pods|
    ensures EpochOf(o, i) == s.k.volumes[i].epoch && MembersOf(o, i) == Members(s.k.volumes[i].size)
    ensures StateOf(o, i) == MemberState(s.k.volumes[i].epoch, s.k.volumes[i].size) && ValidMembers(MembersOf(o, i))
  {
    assert ShowsPod(s, i, o.pods[i]);
    MembersSize(s.k.volumes[i].size);
  }

  function StateAt(v: View): MemberState {
    MemberState(v.epoch, v.size)
  }

  // Views of one or two neighbouring memberships pass every check.
  lemma ViewsAreGood(s: State, o: Observation, n: nat, a: View, b: View)
    requires Sees(s, o) && AllIn(s.k, a, b) && (a == b || a.epoch + 1 == b.epoch)
    ensures BadViews(o, n) == None
    ensures Planner.AllIn(o, n, {StateAt(a), StateAt(b)})
  {
    forall i: nat | Answers(o, n, i)
      ensures ValidMembers(MembersOf(o, i)) && StateOf(o, i) in {StateAt(a), StateAt(b)}
      ensures MembersOf(o, i) == Members(StateOf(o, i).size) && EpochOf(o, i) == StateOf(o, i).epoch
    {
      ShownTruly(s, o, n, i);
    }
  }

  // A pod at a member state that is not the first is at the second.
  lemma OtherIsSeen(o: Observation, n: nat, a: MemberState, b: MemberState)
    requires Planner.AllIn(o, n, {a, b}) && !Planner.AllIn(o, n, {a})
    ensures Seen(o, n, b)
  {
    var i: nat :| i < n && Answers(o, n, i) && !(StateOf(o, i) in {a} && MembersOf(o, i) == Members(StateOf(o, i).size));
    assert StateOf(o, i) == b;
  }

  lemma NotSeen(s: State, o: Observation, n: nat, a: View, b: View, m: MemberState)
    requires Sees(s, o) && AllIn(s.k, a, b) && m.epoch != a.epoch && m.epoch != b.epoch
    ensures !Seen(o, n, m)
  {
    forall i: nat | Answers(o, n, i) ensures StateOf(o, i) != m {
      ShownTruly(s, o, n, i);
    }
  }

  // The members some pod shows at an epoch are the ones every volume there has.
  lemma ViewShown(s: State, o: Observation, i: nat, v: View)
    requires Sees(s, o) && i < |o.pods| && Reachable(o.pods[i]) && EpochOf(o, i) == v.epoch
    requires forall j :: j in s.k.volumes && s.k.volumes[j].epoch == v.epoch ==> s.k.volumes[j] == v
    ensures ViewAt(o.pods, v.epoch) == Members(v.size)
  {
    forall j | 0 <= j < |o.pods| && o.pods[j].membership.Some? && o.pods[j].membership.value.epoch == v.epoch
      ensures o.pods[j].membership.value.members == Members(v.size)
    {
      assert ShowsPod(s, j, o.pods[j]);
    }
    ViewAtIs(o.pods, v.epoch, Members(v.size));
  }

  // ---------------------------------------------------------------- a converged cluster's plan

  // Every answering pod holds the ConfigMap's membership, of as many pods as there are.
  ghost predicate LooksConverged(s: State, o: Observation) {
    && Sees(s, o) && Both(s.k) && s.k.configMap.value.size == s.k.replicas.value >= 1
    && Planner.AllIn(o, s.k.replicas.value, {StateAt(s.k.configMap.value)})
  }

  // A change begins only from a settled cluster.
  lemma ActsWhenSettled(s: State, o: Observation)
    requires LooksConverged(s, o) && Unfinished(o, o.statefulSet.value, s.k.configMap.value.epoch).None?
    ensures Settled(s.k) && AllHealthy(o, s.k.replicas.value)
  {
    var n := s.k.replicas.value;
    forall i | 0 <= i < n ensures i in s.k.volumes && s.k.volumes[i] == s.k.configMap.value {
      assert Healthy(PodAt(o, i)) && Answers(o, n, i);
      ShownTruly(s, o, n, i);
    }
    assert s.k.volumes.Keys == Upto(n);
  }

  lemma FirstPodShows(s: State, o: Observation)
    requires Sees(s, o) && Settled(s.k) && AllHealthy(o, s.k.replicas.value)
    ensures MembersOf(o, 0) == Members(s.k.replicas.value) == ViewAt(o.pods, s.k.configMap.value.epoch)
  {
    var v := s.k.configMap.value;
    assert Healthy(PodAt(o, 0)) && Answers(o, v.size, 0);
    ShownTruly(s, o, v.size, 0);
    ViewShown(s, o, 0, v);
  }

  // What following the spec can be.
  ghost predicate Following(k: Cluster, desired: nat, a: Action)
    requires Both(k)
  {
    || a.Nothing? || a == UpdateTemplate(k.replicas.value) || a == Wait(WaitingForOldVolume)
    || (k.replicas.value < desired && a == WriteConfigMap(k.configMap.value.epoch + 1, Members(k.replicas.value + 1)))
    || (1 <= desired < k.replicas.value && a == Post(0, k.configMap.value.epoch + 1, Members(k.replicas.value - 1)))
  }

  // With every pod showing the first n, the planned memberships are of one more or one fewer.
  lemma FollowSpecIs(o: Observation, set_: SetObs, epoch: nat)
    requires MembersOf(o, 0) == Members(set_.replicas) == ViewAt(o.pods, epoch)
    ensures FollowSpec(o, set_, epoch) ==
            if !set_.templateCurrent then UpdateTemplate(set_.replicas)
            else if set_.replicas < o.desired then
              if OrdinalTaken(o, set_.replicas) then Wait(WaitingForOldVolume)
              else WriteConfigMap(epoch + 1, Members(set_.replicas + 1))
            else if set_.replicas > o.desired then Post(0, epoch + 1, Members(set_.replicas - 1))
            else Nothing
  {
    MembersAdd(set_.replicas);
  }

  lemma FollowsSpec(k: Cluster, o: Observation, set_: SetObs)
    requires Both(k) && o.desired >= 1 && set_.replicas == k.replicas.value
    requires MembersOf(o, 0) == Members(k.replicas.value) == ViewAt(o.pods, k.configMap.value.epoch)
    ensures Following(k, o.desired, FollowSpec(o, set_, k.configMap.value.epoch))
  {
    FollowSpecIs(o, set_, k.configMap.value.epoch);
  }

  // A plan that is not for lack of an explanation.
  predicate Explained(a: Action) {
    !(a.Wait? && a.reason in {ConfigMapMissing, ConfigMapUnexpected, AddressMismatch, MembershipConflict, UnexplainedDivergence})
  }

  lemma FollowingIsSensible(k: Cluster, desired: nat, a: Action)
    requires Settled(k) && Following(k, desired, a)
    ensures Explained(a) && Sensible(k, a)
  {
  }

  lemma SettledIgnoresAnswers(k: Cluster, o: Observation)
    requires Settled(k)
    ensures Settled(Answered(k, o))
  {
  }

  lemma FollowSpecIsSensible(s: State, o: Observation)
    requires LooksConverged(s, o) && s.desired >= 1 && Unfinished(o, o.statefulSet.value, s.k.configMap.value.epoch).None?
    ensures var a := FollowSpec(o, o.statefulSet.value, s.k.configMap.value.epoch);
            Explained(a) && Sensible(Answered(s.k, o), a)
  {
    var set_, e := o.statefulSet.value, s.k.configMap.value.epoch;
    ActsWhenSettled(s, o);
    FirstPodShows(s, o);
    SettledFollows(s.k, o, set_, FollowSpec(o, set_, e));
  }

  lemma SettledFollows(k: Cluster, o: Observation, set_: SetObs, a: Action)
    requires Settled(k) && o.desired >= 1 && set_.replicas == k.replicas.value && a == FollowSpec(o, set_, k.configMap.value.epoch)
    requires MembersOf(o, 0) == Members(k.replicas.value) == ViewAt(o.pods, k.configMap.value.epoch)
    ensures Explained(a) && Sensible(Answered(k, o), a)
  {
    FollowsSpec(k, o, set_);
    SettledIgnoresAnswers(k, o);
    FollowingIsSensible(Answered(k, o), o.desired, a);
  }

  lemma UnfinishedIsExplained(o: Observation, set_: SetObs, epoch: nat)
    requires Unfinished(o, set_, epoch).Some?
    ensures Explained(Wait(Unfinished(o, set_, epoch).value))
  {
  }

  lemma ConvergedIsSensible(s: State, o: Observation)
    requires LooksConverged(s, o) && s.desired >= 1
    ensures var a := Converged(o, o.statefulSet.value, s.k.configMap.value.epoch);
            Explained(a) && Sensible(Answered(s.k, o), a)
  {
    var set_, e := o.statefulSet.value, s.k.configMap.value.epoch;
    if Unfinished(o, set_, e).None? {
      FollowSpecIsSensible(s, o);
    } else {
      UnfinishedIsExplained(o, set_, e);
    }
  }

  // ---------------------------------------------------------------- a drain's plan

  lemma AllHaveLeft(s: State, o: Observation)
    requires Sees(s, o) && SeenTruly(s.seen, s.k) && Leaving(s.k)
    requires HasDrained(o, s.k.replicas.value, s.k.configMap.value.epoch + 1)
    ensures AllLeft(Answered(s.k, o)) && s.k.volumes[s.k.replicas.value - 1] == Without(s.k)
  {
    var last, w := s.k.replicas.value - 1, Without(s.k);
    assert ShowsPod(s, last, o.pods[last]) && Drained(s, last, w.epoch);
    forall i | i in s.k.volumes ensures s.k.volumes[i] == w {
      if i < last {
        assert LastSeen(s, last, i) >= w.epoch;
        assert (last, i) in s.seen;
      }
    }
    assert (last, w.epoch) in DrainAnswers(o);
  }

  lemma DrainIsSensible(s: State, o: Observation)
    requires Sees(s, o) && SeenTruly(s.seen, s.k) && Leaving(s.k)
    ensures var a := DrainLast(o, s.k.replicas.value, s.k.configMap.value.epoch + 1);
            Explained(a) && Sensible(Answered(s.k, o), a)
  {
    var n, w := s.k.replicas.value, Without(s.k);
    if HasDrained(o, n, w.epoch) {
      AllHaveLeft(s, o);
      LeftIsShown(s, o, n - 1, w);
    }
  }

  lemma LeftIsShown(s: State, o: Observation, last: nat, w: View)
    requires Sees(s, o) && AllIn(s.k, w, w) && last < |o.pods| && Reachable(o.pods[last]) && EpochOf(o, last) == w.epoch
    ensures ViewAt(o.pods, w.epoch) == Members(w.size)
  {
    ViewShown(s, o, last, w);
  }

  // ---------------------------------------------------------------- classifying each phase

  ghost function Classified(k: Cluster, o: Observation): Step
    requires Both(k) && o.statefulSet.Some?
  {
    Classify(o, o.statefulSet.value, k.configMap.value.size, k.configMap.value.epoch)
  }

  // The observation is at a step whose action is explained and sensible.
  ghost predicate AtStep(k: Cluster, o: Observation, action: Action, exempt: Option<nat>) {
    && Both(k) && o.statefulSet.Some? && Classified(k, o) == Step(action, exempt)
    && Explained(action) && Sensible(Answered(k, o), action)
  }

  lemma ClassifyConverged(o: Observation, set_: SetObs, epoch: nat)
    requires Planner.AllIn(o, set_.replicas, {MemberState(epoch, set_.replicas)})
    ensures Classify(o, set_, set_.replicas, epoch) == Step(Converged(o, set_, epoch), None)
  {
  }

  lemma ClassifySpreading(o: Observation, set_: SetObs, epoch: nat, u: MemberState, v: MemberState)
    requires set_.replicas > 0 && epoch >= 1
    requires u == MemberState(epoch - 1, set_.replicas - 1) && v == MemberState(epoch, set_.replicas)
    requires Planner.AllIn(o, set_.replicas, {u, v}) && !Planner.AllIn(o, set_.replicas, {v}) && Seen(o, set_.replicas, u)
    ensures Classify(o, set_, set_.replicas, epoch) == Step(Wait(WaitingForEpoch), None)
  {
  }

  lemma ClassifyLeaving(o: Observation, set_: SetObs, epoch: nat, v: MemberState, w: MemberState)
    requires set_.replicas > 0
    requires v == MemberState(epoch, set_.replicas) && w == MemberState(epoch + 1, set_.replicas - 1)
    requires Planner.AllIn(o, set_.replicas, {v, w}) && !Planner.AllIn(o, set_.replicas, {v}) && Seen(o, set_.replicas, w)
    requires epoch >= 1 ==> !Seen(o, set_.replicas, MemberState(epoch - 1, set_.replicas - 1))
    ensures Classify(o, set_, set_.replicas, epoch) == Step(DrainLast(o, set_.replicas, epoch + 1), Some(set_.replicas - 1))
  {
  }

  lemma StepConverged(s: State, o: Observation)
    requires LooksConverged(s, o) && s.desired >= 1
    ensures AtStep(s.k, o, Converged(o, o.statefulSet.value, s.k.configMap.value.epoch), None)
  {
    ClassifyConverged(o, o.statefulSet.value, s.k.configMap.value.epoch);
    ConvergedIsSensible(s, o);
  }

  lemma SteadyLooksConverged(s: State, o: Observation)
    requires Sees(s, o) && Steady(s.k)
    ensures LooksConverged(s, o)
  {
    var v := s.k.configMap.value;
    ViewsAreGood(s, o, v.size, v, v);
    assert {StateAt(v), StateAt(v)} == {StateAt(v)};
  }

  lemma ScaleUpIsSensible(k: Cluster, o: Observation)
    requires Announced(k)
    ensures Explained(ScaleUp(o, k.replicas.value)) && Sensible(Answered(k, o), ScaleUp(o, k.replicas.value))
  {
  }

  lemma StepAnnounced(s: State, o: Observation)
    requires Sees(s, o) && Announced(s.k)
    ensures AtStep(s.k, o, ScaleUp(o, s.k.replicas.value), None)
  {
    var v, n := s.k.configMap.value, s.k.replicas.value;
    var u := View(v.epoch - 1, n);
    ViewsAreGood(s, o, n, u, v);
    assert {StateAt(u), StateAt(v)} == {MemberState(v.epoch, n + 1)} + {MemberState(v.epoch - 1, n)};
    ScaleUpIsSensible(s.k, o);
  }

  lemma OlderIsSeen(s: State, o: Observation, n: nat, u: View, v: View)
    requires Sees(s, o) && AllIn(s.k, u, v) && v.epoch == u.epoch + 1 && !Planner.AllIn(o, n, {StateAt(v)})
    ensures Planner.AllIn(o, n, {StateAt(u), StateAt(v)}) && Seen(o, n, StateAt(u))
  {
    ViewsAreGood(s, o, n, u, v);
    assert {StateAt(v), StateAt(u)} == {StateAt(u), StateAt(v)};
    OtherIsSeen(o, n, StateAt(v), StateAt(u));
  }

  lemma StepSpreading(s: State, o: Observation)
    requires Sees(s, o) && Spreading(s.k) && !Planner.AllIn(o, s.k.replicas.value, {StateAt(s.k.configMap.value)})
    ensures AtStep(s.k, o, Wait(WaitingForEpoch), None)
  {
    var v, n := s.k.configMap.value, s.k.replicas.value;
    var u := View(v.epoch - 1, n - 1);
    OlderIsSeen(s, o, n, u, v);
    ClassifySpreading(o, o.statefulSet.value, v.epoch, StateAt(u), StateAt(v));
  }

  // Some pod shows the membership without the last one, and none an older one.
  lemma LeavingIsSeen(s: State, o: Observation, n: nat, v: View, w: View)
    requires Sees(s, o) && AllIn(s.k, v, w) && w.epoch == v.epoch + 1 && !Planner.AllIn(o, n, {StateAt(v)})
    ensures Planner.AllIn(o, n, {StateAt(v), StateAt(w)}) && Seen(o, n, StateAt(w))
    ensures v.epoch >= 1 && n >= 1 ==> !Seen(o, n, MemberState(v.epoch - 1, n - 1))
  {
    ViewsAreGood(s, o, n, v, w);
    if v.epoch >= 1 && n >= 1 { NotSeen(s, o, n, v, w, MemberState(v.epoch - 1, n - 1)); }
    OtherIsSeen(o, n, StateAt(v), StateAt(w));
  }

  lemma StepLeaving(s: State, o: Observation)
    requires Sees(s, o) && SeenTruly(s.seen, s.k) && Leaving(s.k)
    requires !Planner.AllIn(o, s.k.replicas.value, {StateAt(s.k.configMap.value)})
    ensures AtStep(s.k, o, DrainLast(o, s.k.replicas.value, s.k.configMap.value.epoch + 1), Some(s.k.replicas.value - 1))
  {
    var v, n, w := s.k.configMap.value, s.k.replicas.value, Without(s.k);
    LeavingIsSeen(s, o, n, v, w);
    ClassifyLeaving(o, o.statefulSet.value, v.epoch, StateAt(v), StateAt(w));
    DrainIsSensible(s, o);
  }

  lemma StepLeft(s: State, o: Observation)
    requires Sees(s, o) && Left(s.k)
    ensures AtStep(s.k, o, Scale(s.k.configMap.value.size), Some(s.k.replicas.value - 1))
  {
    var v := s.k.configMap.value;
    ViewsAreGood(s, o, s.k.replicas.value, v, v);
    assert {StateAt(v), StateAt(v)} == {MemberState(v.epoch, v.size)};
  }

  // The step of a cluster in the middle of a change.
  lemma StepOfChange(s: State, o: Observation) returns (action: Action, exempt: Option<nat>)
    requires Sees(s, o) && SeenTruly(s.seen, s.k) && !LooksConverged(s, o)
    requires Announced(s.k) || Spreading(s.k) || Leaving(s.k) || Left(s.k)
    ensures AtStep(s.k, o, action, exempt)
  {
    if Announced(s.k) {
      StepAnnounced(s, o);
      action, exempt := ScaleUp(o, s.k.replicas.value), None;
    } else if Spreading(s.k) {
      StepSpreading(s, o);
      action, exempt := Wait(WaitingForEpoch), None;
    } else if Leaving(s.k) {
      StepLeaving(s, o);
      action, exempt := DrainLast(o, s.k.replicas.value, s.k.configMap.value.epoch + 1), Some(s.k.replicas.value - 1);
    } else {
      StepLeft(s, o);
      action, exempt := Scale(s.k.configMap.value.size), Some(s.k.replicas.value - 1);
    }
  }

  // The step of a cluster that exists.
  lemma StepIsSensible(s: State, o: Observation) returns (action: Action, exempt: Option<nat>)
    requires Sees(s, o) && s.desired >= 1 && SeenTruly(s.seen, s.k) && Phased(s.k) && !Empty(s.k) && !Created(s.k)
    ensures AtStep(s.k, o, action, exempt)
  {
    if Steady(s.k) { SteadyLooksConverged(s, o); }
    if LooksConverged(s, o) {
      StepConverged(s, o);
      action, exempt := Converged(o, o.statefulSet.value, s.k.configMap.value.epoch), None;
    } else {
      action, exempt := StepOfChange(s, o);
    }
  }

  // ---------------------------------------------------------------- the plan

  lemma PlanBegins(s: State, o: Observation)
    requires Observes(s, o) && s.desired >= 1 && (Empty(s.k) || Created(s.k))
    ensures Explained(Plan(o)) && Sensible(Answered(s.k, o), Plan(o))
  {
    MembersSize(s.desired);
    if Created(s.k) { MembersSize(s.k.configMap.value.size); }
  }

  // The two neighbouring views the pods of an existing cluster hold.
  lemma PhaseViews(k: Cluster) returns (a: View, b: View)
    requires Phased(k) && !Empty(k) && !Created(k)
    ensures Both(k) && AllIn(k, a, b) && (a == b || a.epoch + 1 == b.epoch)
  {
    var v, n := k.configMap.value, k.replicas.value;
    a, b := v, v;
    if Announced(k) { a := View(v.epoch - 1, n); }
    else if Spreading(k) { a := View(v.epoch - 1, n - 1); }
    else if Leaving(k) { b := Without(k); }
  }

  // Past the checks, the plan is the classified step's action.
  lemma PlanIsStep(s: State, o: Observation, a: View, b: View, action: Action, exempt: Option<nat>)
    requires Sees(s, o) && Both(s.k) && AllIn(s.k, a, b) && (a == b || a.epoch + 1 == b.epoch)
    requires Classified(s.k, o) == Step(action, exempt)
    ensures Plan(o) == action || Plan(o) == Wait(PodUnavailable)
  {
    ViewsAreGood(s, o, s.k.replicas.value, a, b);
    MembersSize(s.k.configMap.value.size);
  }

  /** Whatever an observation shows, the plan is explained and relies only on what will still
      hold when it is executed. */
  lemma PlanIsSensible(s: State, o: Observation)
    requires Sees(s, o) && s.desired >= 1 && SeenTruly(s.seen, s.k) && Phased(s.k)
    ensures Explained(Plan(o)) && Sensible(Answered(s.k, o), Plan(o))
  {
    if Empty(s.k) || Created(s.k) {
      PlanBegins(s, o);
    } else {
      var action, exempt := StepIsSensible(s, o);
      var a, b := PhaseViews(s.k);
      PlanIsStep(s, o, a, b, action, exempt);
    }
  }

  // ---------------------------------------------------------------- events

  // A view a pod may come to hold: the ConfigMap's if its own is no newer, or a peer's newer one.
  ghost predicate MayAdopt(k: Cluster, i: nat, v: View) {
    && Both(k) && (i in k.volumes || i < k.replicas.value)
    && (i in k.volumes ==> k.volumes[i] == v || k.volumes[i].epoch < v.epoch)
    && (v == k.configMap.value || (i in k.volumes && exists j :: j in k.volumes && k.volumes[j] == v))
  }

  function Adopted(k: Cluster, i: nat, v: View): Cluster {
    k.(volumes := k.volumes[i := v])
  }

  lemma AdoptKeepsPhase(k: Cluster, i: nat, v: View)
    requires Phased(k) && MayAdopt(k, i, v)
    ensures Phased(Adopted(k, i, v))
    ensures Announced(k) ==> Announced(Adopted(k, i, v))
    ensures Settled(k) || AllLeft(k) || Left(k) ==> Adopted(k, i, v) == k
  {
    var k' := Adopted(k, i, v);
    if Settled(k) || Announced(k) || Leaving(k) || Left(k) { assert k'.volumes.Keys == k.volumes.Keys; }
    if Settled(k) || AllLeft(k) || Left(k) { assert k'.volumes == k.volumes; }
  }

  lemma AdoptKeepsPlan(k: Cluster, i: nat, v: View, a: Action)
    requires Phased(k) && MayAdopt(k, i, v) && Sensible(k, a)
    ensures Sensible(Adopted(k, i, v), a)
  {
    AdoptKeepsPhase(k, i, v);
  }

  lemma AdoptKeepsSeen(seen: map<(nat, nat), nat>, k: Cluster, i: nat, v: View, seen': map<(nat, nat), nat>)
    requires SeenTruly(seen, k) && MayAdopt(k, i, v) && forall p :: p in seen' ==> p in seen && seen'[p] == seen[p]
    ensures SeenTruly(seen', Adopted(k, i, v))
  {
  }

  // A pod comes to hold a view, by starting or by gossip.
  lemma AdoptKeeps(s: State, i: nat, v: View, s': State)
    requires Inv(s) && MayAdopt(s.k, i, v) && s'.k == Adopted(s.k, i, v) && s'.pending == s.pending && s'.desired == s.desired
    requires s'.running <= s.running + {i} && forall p :: p in s'.seen ==> p in s.seen && s'.seen[p] == s.seen[p]
    ensures Inv(s')
  {
    AdoptKeepsPhase(s.k, i, v);
    AdoptKeepsSeen(s.seen, s.k, i, v, s'.seen);
    if s.pending.Some? { AdoptKeepsPlan(s.k, i, v, s.pending.value); }
  }

  // Only a lingering volume goes, and only while no change is in flight.
  lemma VolumeGoneKeeps(s: State, i: nat, s': State)
    requires Inv(s) && Next(s, VolumeGone(i), s')
    ensures Inv(s')
  {
    assert Steady(s.k) && !Settled(s.k);
    assert Steady(s'.k);
  }

  lemma WritingAnnounces(k: Cluster, k': Cluster)
    requires Settled(k) && k' == k.(configMap := Some(View(k.configMap.value.epoch + 1, k.replicas.value + 1)))
    ensures Announced(k')
  {
  }

  lemma WritingLeaves(k: Cluster, k': Cluster)
    requires AllLeft(k) && k' == k.(configMap := Some(View(k.configMap.value.epoch + 1, k.replicas.value - 1)))
    ensures Left(k')
  {
  }

  // The three writes the planner makes, told apart by their size.
  lemma WriteCases(k: Cluster, e: nat, m: MemberMap)
    requires Sensible(k, WriteConfigMap(e, m)) && !Empty(k)
    ensures Both(k) && e == k.configMap.value.epoch + 1
    ensures (Settled(k) && |m| == k.replicas.value + 1) || (AllLeft(k) && |m| == k.replicas.value - 1)
  {
    var n := k.replicas.value;
    if Settled(k) && m == Members(n + 1) {
      MembersSize(n + 1);
    } else {
      assert AllLeft(k) && m == Members(n - 1);
      MembersSize(n - 1);
    }
  }

  lemma WrittenKeepsPhase(k: Cluster, e: nat, m: MemberMap, k': Cluster)
    requires Sensible(k, WriteConfigMap(e, m)) && k' == k.(configMap := Some(View(e, |m|)))
    ensures Phased(k') && (k.configMap.Some? ==> e >= k.configMap.value.epoch)
  {
    if !Empty(k) {
      WriteCases(k, e, m);
      if |m| == k.replicas.value + 1 { WritingAnnounces(k, k'); } else { WritingLeaves(k, k'); }
    }
  }

  lemma ScaledKeepsPhase(k: Cluster, n: nat, k': Cluster)
    requires Phased(k) && Sensible(k, Scale(n)) && k' == k.(replicas := Some(n))
    ensures Phased(k')
  {
    if Announced(k) { assert Spreading(k'); } else { assert Steady(k'); }
  }

  lemma PostedKeepsPhase(k: Cluster, a: Action, k': Cluster)
    requires a.Post? && Sensible(k, a) && k' == k.(volumes := k.volumes[a.ordinal := View(a.epoch, |a.members|)])
    ensures Leaving(k') && k'.volumes.Keys == k.volumes.Keys && k.volumes[0].epoch < a.epoch
  {
    assert View(a.epoch, |a.members|) == Without(k) by { MembersSize(k.replicas.value - 1); }
    PostedLeaves(k, k');
  }

  lemma PostedLeaves(k: Cluster, k': Cluster)
    requires Settled(k) && k.replicas.value >= 2 && k' == k.(volumes := k.volumes[0 := Without(k)])
    ensures Leaving(k') && k'.volumes.Keys == k.volumes.Keys && k.volumes[0].epoch < Without(k).epoch
  {
    assert 0 in k.volumes;
    assert k'.volumes.Keys == k.volumes.Keys;
    assert Without(k') == Without(k);
    forall i | i in k'.volumes ensures k'.volumes[i] == k'.configMap.value || k'.volumes[i] == Without(k') {
      if i != 0 { assert k'.volumes[i] == k.volumes[i]; }
    }
  }

  lemma PostKeeps(s: State, s': State)
    requires Inv(s) && s.pending.Some? && s.pending.value.Post? && s' == Done(s)
    ensures Inv(s')
  {
    var a := s.pending.value;
    if a.ordinal in s.running && a.ordinal in s.k.volumes && a.epoch > s.k.volumes[a.ordinal].epoch {
      PostedKeepsPhase(s.k, a, s'.k);
      assert SeenTruly(s'.seen, s'.k);
    }
  }

  lemma WriteKeeps(s: State, s': State)
    requires Inv(s) && s.pending.Some? && s.pending.value.WriteConfigMap? && s' == Done(s)
    ensures Inv(s')
  {
    var a := s.pending.value;
    WrittenKeepsPhase(s.k, a.epoch, a.members, s'.k);
  }

  lemma ScaleKeeps(s: State, s': State)
    requires Inv(s) && s.pending.Some? && s.pending.value.Scale? && s' == Done(s)
    ensures Inv(s')
  {
    ScaledKeepsPhase(s.k, s.pending.value.replicas, s'.k);
  }

  lemma ActKeeps(s: State, s': State)
    requires Inv(s) && s.pending.Some? && s' == Done(s)
    ensures Inv(s')
  {
    match s.pending.value
    case WriteConfigMap(e, m) => WriteKeeps(s, s');
    case Scale(n) => ScaleKeeps(s, s');
    case Post(i, e, m) => PostKeeps(s, s');
    case UpdateTemplate(n) => assert s'.k == s.k;
    case Wait(r) =>
    case Nothing =>
  }

  lemma ObserveKeeps(s: State, o: Observation, s': State)
    requires Inv(s) && Next(s, Observe(o), s')
    ensures Inv(s')
  {
    PlanIsSensible(s, o);
    MoreAnswersKeepPhase(s.k, o);
  }

  lemma MoreAnswersKeepPhase(k: Cluster, o: Observation)
    requires Phased(k)
    ensures Phased(Answered(k, o))
  {
  }

  lemma StepKeeps(s: State, e: Event, s': State)
    requires Inv(s) && Next(s, e, s')
    ensures Inv(s')
  {
    match e
    case PodStarts(i, h) => AdoptKeeps(s, i, StartView(s, i), s');
    case Gossip(i, j) => AdoptKeeps(s, i, s.k.volumes[j], s');
    case VolumeGone(i) => VolumeGoneKeeps(s, i, s');
    case Observe(o) => ObserveKeeps(s, o, s');
    case Act => ActKeeps(s, s');
    case ChangeSpec(d, stale, outdated) =>
    case PodStops(i) =>
    case HandoffDone(i) =>
    case Ping(i, j) =>
    case Drop =>
  }

  // ---------------------------------------------------------------- whole runs

  // Fresh volumes, nothing created, a spec of at least one replica.
  ghost predicate Init(s: State) {
    Empty(s.k) && s.k.drained == {} && s.desired >= 1 && s.running == {} && s.seen == map[] && s.pending == None
  }

  ghost predicate StepAt(states: seq<State>, events: seq<Event>, i: nat)
    requires i < |events| < |states|
  {
    Next(states[i], events[i], states[i + 1])
  }

  ghost predicate Run(states: seq<State>, events: seq<Event>) {
    |states| == |events| + 1 && Init(states[0]) && forall i: nat :: i < |events| ==> StepAt(states, events, i)
  }

  lemma {:induction false} RunKeeps(states: seq<State>, events: seq<Event>, i: nat)
    requires Run(states, events) && i < |states|
    ensures Inv(states[i])
  {
    if i > 0 {
      RunKeeps(states, events, i - 1);
      assert StepAt(states, events, i - 1);
      StepKeeps(states[i - 1], events[i - 1], states[i]);
    }
  }

  /** In every run, whatever an observation shows, the plan is never one for lack of an
      explanation: no conflict, no unexplained divergence, no membership nobody wrote. */
  lemma NeverUnexplained(states: seq<State>, events: seq<Event>, i: nat, o: Observation)
    requires Run(states, events) && i < |states| && Observes(states[i], o)
    ensures Explained(Plan(o))
  {
    RunKeeps(states, events, i);
    PlanIsSensible(states[i], o);
  }

  /** In every run, the pods' views span at most two neighbouring epochs. */
  lemma TwoEpochsAtMost(states: seq<State>, events: seq<Event>, i: nat, a: nat, b: nat)
    requires Run(states, events) && i < |states| && a in states[i].k.volumes && b in states[i].k.volumes
    ensures states[i].k.volumes[b].epoch <= states[i].k.volumes[a].epoch + 1
  {
    RunKeeps(states, events, i);
    var u, v := PhaseViews(states[i].k);
  }

  lemma DropIsLast(k: Cluster, n: nat)
    requires Phased(k) && k.replicas.Some? && Sensible(k, Scale(n)) && n < k.replicas.value
    ensures Left(k) && n == k.configMap.value.size
  {
  }

  // Up to state i the operator was told so by a pod of which it was then true.
  ghost predicate WasDrained(states: seq<State>, events: seq<Event>, i: nat, pod: nat, epoch: nat)
    requires i <= |events| < |states|
  {
    exists j: nat :: j < i && events[j].Observe? && Drained(states[j], pod, epoch)
  }

  lemma {:induction false} DrainedIsTrue(states: seq<State>, events: seq<Event>, i: nat, pod: nat, epoch: nat)
    requires Run(states, events) && i < |states| && (pod, epoch) in states[i].k.drained
    ensures WasDrained(states, events, i, pod, epoch)
  {
    if i > 0 {
      assert StepAt(states, events, i - 1);
      if (pod, epoch) in states[i - 1].k.drained {
        DrainedIsTrue(states, events, i - 1, pod, epoch);
      } else {
        var o := events[i - 1].obs;
        assert (pod, epoch) in DrainAnswers(o);
        assert ShowsPod(states[i - 1], pod, o.pods[pod]);
      }
    }
  }

  /** In every run, when the StatefulSet drops an ordinal it drops one, the last; at some point
      before, that pod had drained at the ConfigMap's epoch and said so, and every remaining pod
      holds the ConfigMap's membership. */
  lemma DropsOnlyDrained(states: seq<State>, events: seq<Event>, i: nat)
    requires Run(states, events) && i < |events| && states[i].k.replicas.Some? && states[i + 1].k.replicas.Some?
    requires states[i + 1].k.replicas.value < states[i].k.replicas.value
    ensures var k, n := states[i].k, states[i + 1].k.replicas.value;
            && n + 1 == k.replicas.value && k.configMap.Some? && k.configMap.value.size == n
            && (n, k.configMap.value.epoch) in k.drained && WasDrained(states, events, i, n, k.configMap.value.epoch)
            && forall j :: 0 <= j < n ==> j in k.volumes && k.volumes[j] == k.configMap.value
  {
    RunKeeps(states, events, i);
    assert StepAt(states, events, i);
    DropIsLast(states[i].k, states[i + 1].k.replicas.value);
    DrainedIsTrue(states, events, i, states[i + 1].k.replicas.value, states[i].k.configMap.value.epoch);
  }
}
