/**
 The operator's planner: from one observation of a cluster (the pods' own answers, the
 StatefulSet, the ConfigMap, the volumes and the spec) it picks exactly one next step of a
 membership change. Time enters only as whether a deadline has passed.
 */
module Planner {
  import opened Wrappers
  import Numbers

  // A member's name: a pod of this cluster by ordinal, or anything else.
  datatype Id = Pod(ordinal: nat) | Foreign(name: string)

  // A member's address: the one its pod is given, or anything else.
  datatype Address = Of(ordinal: nat) | Other(text: string)

  type MemberMap = map<Id, Address>

  datatype Membership = Membership(epoch: nat, members: MemberMap, handoffEpoch: nat, handoffDone: bool)

  datatype Drain = Drain(epoch: nat, drained: bool)

  datatype PodObs = PodObs(
    exists_: bool,
    terminating: bool,
    ready: bool,
    overdue: bool,                     // unready or unreachable for longer than the grace period
    membership: Option<Membership>,    // its own answer; None when it does not answer
    drain: Option<Drain>               // asked only of a pod outside its own membership
  )

  datatype SetObs = SetObs(replicas: nat, readyReplicas: nat, rolledOut: bool, templateCurrent: bool)

  datatype MapObs = MapObs(epoch: nat, members: MemberMap, unreadable: bool)

  datatype Observation = Observation(
    desired: nat,                      // the spec's replicas
    statefulSet: Option<SetObs>,
    configMap: Option<MapObs>,
    pods: seq<PodObs>,                 // by ordinal
    volumes: set<nat>,                 // the ordinals that have one
    drainOverdue: bool                 // the drain has taken longer than its timeout
  )

  datatype Reason =
    | ConfigMapMissing | ConfigMapUnexpected | AddressMismatch | MembershipConflict | UnexplainedDivergence
    | PodUnavailable | WaitingForEpoch | WaitingForHandoff | Draining | DrainBlocked | WaitingForPodRemoval
    | WaitingForVolumeRemoval | WaitingForOldVolume | WaitingForPods | RollingUpdate

  datatype Action =
    | Nothing
    | Wait(reason: Reason)
    | WriteConfigMap(epoch: nat, members: MemberMap)
    | Scale(replicas: nat)
    | UpdateTemplate(replicas: nat)
    | Post(ordinal: nat, epoch: nat, members: MemberMap)

  // ---------------------------------------------------------------- members

  // The membership of k pods: ordinals 0 to k-1 at their own addresses.
  function Members(k: nat): MemberMap {
    if k == 0 then map[] else Members(k - 1)[Pod(k - 1) := Of(k - 1)]
  }

  // Every member is one of this cluster's pods at its own address.
  predicate ValidMembers(m: MemberMap) {
    forall id :: id in m ==> id.Pod? && m[id] == Of(id.ordinal)
  }

  lemma {:induction false} MembersAre(k: nat, id: Id)
    ensures id in Members(k) <==> id.Pod? && id.ordinal < k
    ensures id in Members(k) ==> Members(k)[id] == Of(id.ordinal)
  {
    if k > 0 { MembersAre(k - 1, id); }
  }

  lemma {:induction false} MembersSize(k: nat)
    ensures |Members(k)| == k && ValidMembers(Members(k))
  {
    forall id | id in Members(k) ensures id.Pod? && Members(k)[id] == Of(id.ordinal) { MembersAre(k, id); }
    if k > 0 {
      MembersSize(k - 1);
      MembersAre(k - 1, Pod(k - 1));
      MapGrows(Members(k - 1), Pod(k - 1), Of(k - 1));
    }
  }

  lemma MapGrows(m: MemberMap, id: Id, a: Address)
    requires id !in m
    ensures |m[id := a]| == |m| + 1 && m[id := a] - {id} == m
  {
    assert m[id := a].Keys == m.Keys + {id};
  }

  lemma MembersAdd(k: nat)
    ensures Members(k)[Pod(k) := Of(k)] == Members(k + 1)
    ensures k > 0 ==> Members(k) - {Pod(k - 1)} == Members(k - 1)
  {
    if k > 0 {
      MembersAre(k - 1, Pod(k - 1));
      MapGrows(Members(k - 1), Pod(k - 1), Of(k - 1));
    }
  }

  // ---------------------------------------------------------------- pods

  function PodAt(o: Observation, i: nat): PodObs {
    if i < |o.pods| then o.pods[i] else PodObs(false, false, false, false, None, None)
  }

  predicate Reachable(p: PodObs) {
    p.membership.Some?
  }

  predicate Healthy(p: PodObs) {
    p.exists_ && !p.terminating && p.ready && Reachable(p)
  }

  // The first pod at epoch, and the members it holds.
  function ViewAt(pods: seq<PodObs>, epoch: nat): MemberMap {
    if pods == [] then map[]
    else if pods[0].membership.Some? && pods[0].membership.value.epoch == epoch then pods[0].membership.value.members
    else ViewAt(pods[1..], epoch)
  }

  lemma {:induction false} ViewAtIs(pods: seq<PodObs>, epoch: nat, m: MemberMap)
    requires exists i :: 0 <= i < |pods| && pods[i].membership.Some? && pods[i].membership.value.epoch == epoch
    requires forall i :: 0 <= i < |pods| && pods[i].membership.Some? && pods[i].membership.value.epoch == epoch ==>
               pods[i].membership.value.members == m
    ensures ViewAt(pods, epoch) == m
  {
    if !(pods[0].membership.Some? && pods[0].membership.value.epoch == epoch) {
      var i :| 0 <= i < |pods| && pods[i].membership.Some? && pods[i].membership.value.epoch == epoch;
      assert pods[1..][i - 1] == pods[i];
      ViewAtIs(pods[1..], epoch, m);
    }
  }

  // ---------------------------------------------------------------- reading the views

  // Pod i, one of the first n, answers.
  predicate Answers(o: Observation, n: nat, i: nat) {
    i < n && Reachable(PodAt(o, i))
  }

  function EpochOf(o: Observation, i: nat): nat {
    if Reachable(PodAt(o, i)) then PodAt(o, i).membership.value.epoch else 0
  }

  function MembersOf(o: Observation, i: nat): MemberMap {
    if Reachable(PodAt(o, i)) then PodAt(o, i).membership.value.members else map[]
  }

  predicate AnyForeign(o: Observation, n: nat) {
    exists i | 0 <= i < n :: Answers(o, n, i) && !ValidMembers(MembersOf(o, i))
  }

  // Two pods hold different members at one epoch.
  predicate AnyConflict(o: Observation, n: nat) {
    exists i, j | 0 <= i < n && 0 <= j < n ::
      Answers(o, n, i) && Answers(o, n, j) && EpochOf(o, i) == EpochOf(o, j) && MembersOf(o, i) != MembersOf(o, j)
  }

  // Two pods are more than one epoch apart.
  predicate TooFarApart(o: Observation, n: nat) {
    exists i, j | 0 <= i < n && 0 <= j < n :: Answers(o, n, i) && Answers(o, n, j) && EpochOf(o, j) > EpochOf(o, i) + 1
  }

  // What is wrong with the views, in the order it is checked.
  function BadViews(o: Observation, n: nat): Option<Reason> {
    if AnyForeign(o, n) then Some(AddressMismatch)
    else if AnyConflict(o, n) then Some(MembershipConflict)
    else if TooFarApart(o, n) then Some(UnexplainedDivergence)
    else None
  }

  // The epochs of the pods in views, each with the members a pod there holds.
  ghost predicate Tabled(o: Observation, views: seq<nat>, byEpoch: map<nat, MemberMap>) {
    && (forall v :: v in views ==> EpochOf(o, v) in byEpoch && byEpoch[EpochOf(o, v)] == MembersOf(o, v))
    && (forall e :: e in byEpoch ==> exists v :: v in views && EpochOf(o, v) == e)
  }

  lemma TabledMore(o: Observation, views: seq<nat>, byEpoch: map<nat, MemberMap>, v: nat)
    requires Tabled(o, views, byEpoch)
    requires EpochOf(o, v) in byEpoch ==> byEpoch[EpochOf(o, v)] == MembersOf(o, v)
    ensures Tabled(o, views + [v], byEpoch[EpochOf(o, v) := MembersOf(o, v)])
  {
    var table := byEpoch[EpochOf(o, v) := MembersOf(o, v)];
    forall e | e in table ensures exists w :: w in views + [v] && EpochOf(o, w) == e {
      if e == EpochOf(o, v) {
        assert v in views + [v];
      } else {
        var w :| w in views && EpochOf(o, w) == e;
        assert w in views + [v];
      }
    }
  }

  // At most two epochs, next to each other, exactly when no two pods are further apart.
  lemma EpochsAreClose(o: Observation, n: nat, views: seq<nat>, byEpoch: map<nat, MemberMap>, epochs: seq<nat>)
    requires Tabled(o, views, byEpoch) && (forall i: nat :: i in views <==> Answers(o, n, i))
    requires Numbers.Ascending(epochs) && forall e :: e in epochs <==> e in byEpoch
    ensures TooFarApart(o, n) <==> |epochs| > 2 || (|epochs| == 2 && epochs[1] != epochs[0] + 1)
  {
    if |epochs| > 2 || (|epochs| == 2 && epochs[1] != epochs[0] + 1) {
      var last := |epochs| - 1;
      assert epochs[0] in byEpoch && epochs[last] in byEpoch;
      assert epochs[0] < epochs[1] && (|epochs| > 2 ==> epochs[1] < epochs[last]);
      var i :| i in views && EpochOf(o, i) == epochs[0];
      var j :| j in views && EpochOf(o, j) == epochs[last];
      assert Answers(o, n, i) && Answers(o, n, j) && EpochOf(o, j) > EpochOf(o, i) + 1;
    } else {
      forall i, j | 0 <= i < n && 0 <= j < n && Answers(o, n, i) && Answers(o, n, j) ensures EpochOf(o, j) <= EpochOf(o, i) + 1 {
        assert EpochOf(o, i) in epochs && EpochOf(o, j) in epochs;
      }
    }
  }

  method CollectViews(o: Observation, n: nat) returns (views: seq<nat>, bad: bool)
    ensures bad <==> AnyForeign(o, n)
    ensures !bad ==> forall i: nat :: i in views <==> Answers(o, n, i)
  {
    views, bad := [], false;
    for i := 0 to n
      invariant forall j: nat :: j in views <==> j < i && Answers(o, n, j)
      invariant forall j: nat :: j < i && Answers(o, n, j) ==> ValidMembers(MembersOf(o, j))
    {
      if !Reachable(PodAt(o, i)) { continue; }
      assert Answers(o, n, i);
      if !ValidMembers(MembersOf(o, i)) {
        return views, true;
      }
      views := views + [i];
    }
  }

  /** The checks on the pods' views, by one pass over the pods and a table by epoch. */
  method ReadViews(o: Observation, n: nat) returns (bad: Option<Reason>)
    ensures bad == BadViews(o, n)
  {
    var views, foreign := CollectViews(o, n);
    if foreign { return Some(AddressMismatch); }
    var byEpoch: map<nat, MemberMap> := map[];
    for i := 0 to |views|
      invariant Tabled(o, views[..i], byEpoch)
    {
      var v := views[i];
      assert v in views && views[..i + 1] == views[..i] + [v];
      if EpochOf(o, v) in byEpoch && byEpoch[EpochOf(o, v)] != MembersOf(o, v) {
        assert exists w :: w in views[..i] && EpochOf(o, w) == EpochOf(o, v);
        ghost var w :| w in views[..i] && EpochOf(o, w) == EpochOf(o, v);
        assert w in views && Answers(o, n, w) && Answers(o, n, v);
        return Some(MembershipConflict);
      }
      TabledMore(o, views[..i], byEpoch, v);
      byEpoch := byEpoch[EpochOf(o, v) := MembersOf(o, v)];
    }
    assert views[..|views|] == views;
    assert !AnyConflict(o, n);
    var epochs := Numbers.Sorted(byEpoch.Keys);
    EpochsAreClose(o, n, views, byEpoch, epochs);
    if |epochs| > 2 || (|epochs| == 2 && epochs[1] != epochs[0] + 1) {
      return Some(UnexplainedDivergence);
    }
    bad := None;
  }

  // ---------------------------------------------------------------- classifying

  datatype MemberState = MemberState(epoch: nat, size: nat)

  function StateOf(o: Observation, i: nat): MemberState {
    MemberState(EpochOf(o, i), |MembersOf(o, i)|)
  }

  // Every answering pod holds one of the allowed memberships of this cluster's first pods.
  predicate AllIn(o: Observation, n: nat, allowed: set<MemberState>) {
    forall i | 0 <= i < n :: Answers(o, n, i) ==>
      StateOf(o, i) in allowed && MembersOf(o, i) == Members(StateOf(o, i).size)
  }

  predicate Seen(o: Observation, n: nat, m: MemberState) {
    exists i | 0 <= i < n :: Answers(o, n, i) && StateOf(o, i) == m
  }

  // A pod or volume of an earlier incarnation is still there.
  predicate OrdinalTaken(o: Observation, i: nat) {
    PodAt(o, i).exists_ || i in o.volumes
  }

  predicate AllHealthy(o: Observation, n: nat) {
    forall i | 0 <= i < n :: Healthy(PodAt(o, i))
  }

  // The new pod is in the ConfigMap: create it, once every other pod is well and its place free.
  function ScaleUp(o: Observation, s: nat): Action {
    if !AllHealthy(o, s) then Wait(WaitingForPods)
    else if OrdinalTaken(o, s) then Wait(WaitingForOldVolume)
    else Scale(s + 1)
  }

  // The last pod is leaving at epoch: wait until it says it has drained there.
  predicate HasDrained(o: Observation, s: nat, epoch: nat)
    requires s > 0
  {
    var leaving := PodAt(o, s - 1);
    && leaving.drain.Some? && leaving.drain.value == Drain(epoch, true)
    && Reachable(leaving) && leaving.membership.value.epoch == epoch
  }

  function DrainLast(o: Observation, s: nat, epoch: nat): Action
    requires s > 0
  {
    if HasDrained(o, s, epoch) then WriteConfigMap(epoch, ViewAt(o.pods, epoch))
    else Wait(if o.drainOverdue then DrainBlocked else Draining)
  }

  predicate HandoffPending(o: Observation, n: nat, epoch: nat) {
    exists i | 0 <= i < n :: Answers(o, n, i)
      && (PodAt(o, i).membership.value.handoffEpoch < epoch || !PodAt(o, i).membership.value.handoffDone)
  }

  // What a change that every answering pod has reached still waits for.
  function Unfinished(o: Observation, set_: SetObs, epoch: nat): Option<Reason> {
    var s := set_.replicas;
    if exists i | s <= i < |o.pods| :: o.pods[i].exists_ then Some(WaitingForPodRemoval)
    else if exists i | i in o.volumes :: i >= s then Some(WaitingForVolumeRemoval)
    else if HandoffPending(o, s, epoch) then Some(WaitingForHandoff)
    else if !AllHealthy(o, s) then Some(WaitingForPods)
    else if !set_.rolledOut || set_.readyReplicas < s then Some(RollingUpdate)
    else None
  }

  // Stable: the template first, then one pod at a time.
  function FollowSpec(o: Observation, set_: SetObs, epoch: nat): Action {
    var s := set_.replicas;
    if !set_.templateCurrent then UpdateTemplate(s)
    else if s < o.desired then
      if OrdinalTaken(o, s) then Wait(WaitingForOldVolume)
      else WriteConfigMap(epoch + 1, ViewAt(o.pods, epoch)[Pod(s) := Of(s)])
    else if s > o.desired then
      Post(0, epoch + 1, MembersOf(o, 0) - {Pod(s - 1)})
    else Nothing
  }

  // Every answering pod holds the ConfigMap's membership: finish the change, then follow the spec.
  function Converged(o: Observation, set_: SetObs, epoch: nat): Action {
    match Unfinished(o, set_, epoch)
    case Some(reason) => Wait(reason)
    case None => FollowSpec(o, set_, epoch)
  }

  // The step the observation is at, and the ordinal whose ill health the step expects.
  datatype Step = Step(action: Action, exempt: Option<nat>) | Unexplained

  function Classify(o: Observation, set_: SetObs, c: nat, epoch: nat): Step {
    var s := set_.replicas;
    if c == s + 1 then
      var allowed := {MemberState(epoch, s + 1)} + (if epoch >= 1 then {MemberState(epoch - 1, s)} else {});
      if AllIn(o, s, allowed) then Step(ScaleUp(o, s), None) else Unexplained
    else if c == s then
      if AllIn(o, s, {MemberState(epoch, s)}) then Step(Converged(o, set_, epoch), None)
      else if s > 0 && epoch >= 1 && AllIn(o, s, {MemberState(epoch - 1, s - 1), MemberState(epoch, s)})
              && Seen(o, s, MemberState(epoch - 1, s - 1)) then
        Step(Wait(WaitingForEpoch), None)
      else if s > 0 && AllIn(o, s, {MemberState(epoch, s), MemberState(epoch + 1, s - 1)})
              && Seen(o, s, MemberState(epoch + 1, s - 1)) then
        Step(DrainLast(o, s, epoch + 1), Some(s - 1))
      else Unexplained
    else if c + 1 == s then
      if AllIn(o, s, {MemberState(epoch, c)}) then Step(Scale(c), Some(s - 1)) else Unexplained
    else Unexplained
  }

  // A pod that should be serving has not been for longer than the grace period.
  predicate AnyUnavailable(o: Observation, n: nat, exempt: Option<nat>) {
    exists i | 0 <= i < n :: exempt != Some(i) && PodAt(o, i).exists_ && !Healthy(PodAt(o, i)) && PodAt(o, i).overdue
  }

  /** The one next action. */
  function Plan(o: Observation): Action {
    if o.configMap.None? then
      if o.statefulSet.None? then WriteConfigMap(0, Members(o.desired)) else Wait(ConfigMapMissing)
    else
      var m := o.configMap.value;
      if m.unreadable || !ValidMembers(m.members) || m.members != Members(|m.members|) then Wait(ConfigMapUnexpected)
      else if o.statefulSet.None? then Scale(|m.members|)
      else
        var set_ := o.statefulSet.value;
        match BadViews(o, set_.replicas)
        case Some(reason) => Wait(reason)
        case None =>
          match Classify(o, set_, |m.members|, m.epoch)
          case Unexplained => Wait(UnexplainedDivergence)
          case Step(action, exempt) =>
            if AnyUnavailable(o, set_.replicas, exempt) then Wait(PodUnavailable) else action
  }
}
