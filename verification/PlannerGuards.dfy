/**
 When the planner acts and what it waits for, for every observation whatsoever: also those of a
 cluster that others have edited, and that no run of the operator and its pods leads to. It acts
 only if every safeguard of that action holds, and a wait names something that is so.
 */
module PlannerGuards {
  import opened Wrappers
  import opened Planner

  // ---------------------------------------------------------------- what an observation shows

  // The ConfigMap is one the operator could have written.
  predicate Readable(o: Observation) {
    && o.configMap.Some? && !o.configMap.value.unreadable
    && o.configMap.value.members == Members(|o.configMap.value.members|)
  }

  function Size(o: Observation): nat
    requires o.configMap.Some?
  {
    |o.configMap.value.members|
  }

  function Replicas(o: Observation): nat
    requires o.statefulSet.Some?
  {
    o.statefulSet.value.replicas
  }

  predicate Complete(o: Observation) {
    o.configMap.Some? && o.statefulSet.Some?
  }

  // The pods that answer hold memberships of this cluster's own pods at their own addresses, the
  // same at the same epoch, and are at most one epoch apart.
  ghost predicate ViewsAgree(o: Observation, n: nat) {
    && (forall i: nat :: Answers(o, n, i) ==> ValidMembers(MembersOf(o, i)))
    && (forall i: nat, j: nat :: Answers(o, n, i) && Answers(o, n, j) ==>
          EpochOf(o, j) <= EpochOf(o, i) + 1 && (EpochOf(o, i) == EpochOf(o, j) ==> MembersOf(o, i) == MembersOf(o, j)))
  }

  // Pod i of the first n holds the first k pods at epoch, if it answers.
  predicate At(o: Observation, n: nat, i: nat, epoch: int, k: int) {
    Answers(o, n, i) ==> EpochOf(o, i) == epoch && |MembersOf(o, i)| == k && MembersOf(o, i) == Members(|MembersOf(o, i)|)
  }

  // Every pod that answers holds one of two memberships.
  ghost predicate AllAt(o: Observation, n: nat, e: int, k: int, e': int, k': int) {
    forall i: nat :: i < n ==> At(o, n, i, e, k) || At(o, n, i, e', k')
  }

  // A pod that is there, is not going, is ready, and answers.
  predicate Serves(p: PodObs) {
    p.exists_ && !p.terminating && p.ready && p.membership.Some?
  }

  // Nobody has been unwell for too long, except perhaps the pod that is leaving.
  ghost predicate NoneOverdue(o: Observation, n: nat, leaving: Option<nat>) {
    forall i: nat :: i < n && leaving != Some(i) && PodAt(o, i).exists_ && PodAt(o, i).overdue ==> Serves(PodAt(o, i))
  }

  // Pod i is well, holds the first n pods at epoch, and has handed off to it.
  predicate Rests(o: Observation, n: nat, epoch: nat, i: nat) {
    && Serves(PodAt(o, i)) && EpochOf(o, i) == epoch && MembersOf(o, i) == Members(n)
    && PodAt(o, i).membership.value.handoffEpoch >= epoch && PodAt(o, i).membership.value.handoffDone
  }

  // No change is in flight: the pods are those of the ConfigMap, all at rest, nothing is left of
  // others, and the StatefulSet has rolled out.
  ghost predicate AtRest(o: Observation)
    requires Complete(o)
  {
    var n, epoch := Replicas(o), o.configMap.value.epoch;
    && Size(o) == n && (forall i: nat :: i < n ==> Rests(o, n, epoch, i))
    && (forall i: nat :: i >= n ==> !PodAt(o, i).exists_ && i !in o.volumes)
    && o.statefulSet.value.rolledOut && o.statefulSet.value.readyReplicas >= n
  }

  // The place of a new pod is free.
  predicate Free(o: Observation, i: nat) {
    !PodAt(o, i).exists_ && i !in o.volumes
  }

  // The last pod answers that it has drained at epoch, and is there.
  predicate LastDrained(o: Observation, n: nat, epoch: nat) {
    && n > 0 && PodAt(o, n - 1).drain == Some(Drain(epoch, true))
    && Reachable(PodAt(o, n - 1)) && EpochOf(o, n - 1) == epoch
  }

  // ---------------------------------------------------------------- when each action is safe

  // A ConfigMap that announces one pod more, or leaves out one that has drained.
  ghost predicate SafeWrite(o: Observation, e: nat, m: MemberMap)
    requires Complete(o)
  {
    var n, epoch := Replicas(o), o.configMap.value.epoch;
    && e == epoch + 1
    && (|| (AtRest(o) && NoneOverdue(o, n, None) && o.statefulSet.value.templateCurrent && n < o.desired && Free(o, n)
            && (n >= 1 ==> m == Members(n + 1)))
        || (Size(o) == n && LastDrained(o, n, e) && AllAt(o, n, epoch, n, e, n - 1) && NoneOverdue(o, n, Some(n - 1))
            && m == Members(n - 1)))
  }

  // A StatefulSet of one pod more, announced and with everyone else well, or of one fewer, which
  // the ConfigMap and every pod that answers have left out.
  ghost predicate SafeScale(o: Observation, k: nat)
    requires Complete(o)
  {
    var n, epoch := Replicas(o), o.configMap.value.epoch;
    && k == Size(o)
    && (|| (k == n + 1 && (forall i: nat :: i < n ==> Serves(PodAt(o, i))) && Free(o, n)
            && AllAt(o, n, epoch, n + 1, epoch - 1, n) && NoneOverdue(o, n, None))
        || (k + 1 == n && AllAt(o, n, epoch, k, epoch, k) && NoneOverdue(o, n, Some(n - 1))))
  }

  ghost predicate Safe(o: Observation, a: Action)
    requires Complete(o)
  {
    var n, template := Replicas(o), o.statefulSet.value.templateCurrent;
    match a
    case Wait(_) => true
    case Nothing => AtRest(o) && template && n == o.desired
    case UpdateTemplate(k) => AtRest(o) && NoneOverdue(o, n, None) && !template && k == n
    case Post(i, e, m) =>
      && AtRest(o) && NoneOverdue(o, n, None) && template && n > o.desired
      && i == 0 && e == o.configMap.value.epoch + 1 && m == Members(n - 1)
    case WriteConfigMap(e, m) => SafeWrite(o, e, m)
    case Scale(k) => SafeScale(o, k)
  }

  // ---------------------------------------------------------------- the checks

  lemma GoodViews(o: Observation, n: nat)
    requires BadViews(o, n) == None
    ensures ViewsAgree(o, n)
  {
    forall i: nat, j: nat | Answers(o, n, i) && Answers(o, n, j)
      ensures EpochOf(o, j) <= EpochOf(o, i) + 1 && (EpochOf(o, i) == EpochOf(o, j) ==> MembersOf(o, i) == MembersOf(o, j))
    {
      assert !TooFarApart(o, n) && !AnyConflict(o, n);
    }
    forall i: nat | Answers(o, n, i) ensures ValidMembers(MembersOf(o, i)) { assert !AnyForeign(o, n); }
  }

  lemma NobodyOverdue(o: Observation, n: nat, exempt: Option<nat>)
    requires !AnyUnavailable(o, n, exempt)
    ensures NoneOverdue(o, n, exempt)
  {
  }

  lemma AllInIsAllAt(o: Observation, n: nat, a: MemberState, b: MemberState)
    requires AllIn(o, n, {a, b})
    ensures AllAt(o, n, a.epoch, a.size, b.epoch, b.size)
  {
    forall i: nat | i < n ensures At(o, n, i, a.epoch, a.size) || At(o, n, i, b.epoch, b.size) {
      if Answers(o, n, i) { assert StateOf(o, i) in {a, b}; }
    }
  }

  lemma FinishedIsAtRest(o: Observation, set_: SetObs, epoch: nat)
    requires Complete(o) && set_ == o.statefulSet.value && epoch == o.configMap.value.epoch && Size(o) == set_.replicas
    requires AllIn(o, set_.replicas, {MemberState(epoch, set_.replicas)}) && Unfinished(o, set_, epoch).None?
    ensures AtRest(o)
  {
    var n := set_.replicas;
    forall i: nat | i < n ensures Rests(o, n, epoch, i) {
      assert Healthy(PodAt(o, i)) && Answers(o, n, i);
      assert !HandoffPending(o, n, epoch);
    }
    forall i: nat | i >= n ensures !PodAt(o, i).exists_ && i !in o.volumes {
      if i < |o.pods| { assert !o.pods[i].exists_; }
    }
  }

  // ---------------------------------------------------------------- step by step

  lemma FollowingIsSafe(o: Observation, set_: SetObs, epoch: nat)
    requires Complete(o) && set_ == o.statefulSet.value && epoch == o.configMap.value.epoch && Size(o) == set_.replicas
    requires AllIn(o, set_.replicas, {MemberState(epoch, set_.replicas)}) && NoneOverdue(o, set_.replicas, None)
    ensures Safe(o, Converged(o, set_, epoch))
  {
    var n := set_.replicas;
    if Unfinished(o, set_, epoch).None? {
      FinishedIsAtRest(o, set_, epoch);
      if n >= 1 {
        assert Rests(o, n, epoch, 0) && PodAt(o, 0) == o.pods[0];
        assert ViewAt(o.pods, epoch) == Members(n);
      }
      MembersAdd(n);
    }
  }

  lemma DrainingIsSafe(o: Observation, n: nat, epoch: nat)
    requires Complete(o) && n == Replicas(o) == Size(o) && n > 0 && epoch == o.configMap.value.epoch
    requires AllIn(o, n, {MemberState(epoch, n), MemberState(epoch + 1, n - 1)}) && NoneOverdue(o, n, Some(n - 1))
    ensures Safe(o, DrainLast(o, n, epoch + 1))
  {
    AllInIsAllAt(o, n, MemberState(epoch, n), MemberState(epoch + 1, n - 1));
    if HasDrained(o, n, epoch + 1) { FirstThere(o, n, epoch); }
  }

  // The first pod at the newer epoch is one of the cluster's, and holds the membership without the last.
  lemma FirstThere(o: Observation, n: nat, epoch: nat)
    requires n > 0 && AllIn(o, n, {MemberState(epoch, n), MemberState(epoch + 1, n - 1)})
    requires Reachable(PodAt(o, n - 1)) && EpochOf(o, n - 1) == epoch + 1
    ensures ViewAt(o.pods, epoch + 1) == Members(n - 1)
  {
    var i := FirstAt(o, 0, n - 1, epoch + 1);
    assert Answers(o, n, i) && StateOf(o, i) == MemberState(epoch + 1, n - 1);
    forall j | 0 <= j < i ensures !(o.pods[j].membership.Some? && o.pods[j].membership.value.epoch == epoch + 1) {
      assert PodAt(o, j) == o.pods[j];
    }
    ViewIsFirst(o.pods, i, epoch + 1);
  }

  // The first pod from k on at epoch, up to a known one.
  lemma FirstAt(o: Observation, k: nat, last: nat, epoch: nat) returns (i: nat)
    requires k <= last && Reachable(PodAt(o, last)) && EpochOf(o, last) == epoch
    ensures k <= i <= last && i < |o.pods| && Reachable(o.pods[i]) && EpochOf(o, i) == epoch
    ensures forall j :: k <= j < i ==> !(Reachable(PodAt(o, j)) && EpochOf(o, j) == epoch)
    decreases last - k
  {
    if Reachable(PodAt(o, k)) && EpochOf(o, k) == epoch { i := k; } else { i := FirstAt(o, k + 1, last, epoch); }
  }

  lemma {:induction false} ViewIsFirst(pods: seq<PodObs>, i: nat, epoch: nat)
    requires i < |pods| && pods[i].membership.Some? && pods[i].membership.value.epoch == epoch
    requires forall j :: 0 <= j < i ==> !(pods[j].membership.Some? && pods[j].membership.value.epoch == epoch)
    ensures ViewAt(pods, epoch) == pods[i].membership.value.members
  {
    if i > 0 {
      assert forall j :: 0 <= j < i - 1 ==> pods[1..][j] == pods[j + 1];
      ViewIsFirst(pods[1..], i - 1, epoch);
    }
  }

  lemma AnnouncedIsSafe(o: Observation, n: nat, epoch: nat, allowed: set<MemberState>)
    requires Complete(o) && n == Replicas(o) && Size(o) == n + 1 && epoch == o.configMap.value.epoch
    requires AllIn(o, n, allowed) && NoneOverdue(o, n, None)
    requires allowed == {MemberState(epoch, n + 1)} + (if epoch >= 1 then {MemberState(epoch - 1, n)} else {})
    ensures Safe(o, ScaleUp(o, n))
  {
    var more: int, before: int := n + 1, epoch - 1;
    forall i: nat | i < n ensures At(o, n, i, epoch, more) || At(o, n, i, before, n) {
      if Answers(o, n, i) { assert StateOf(o, i) in allowed; }
    }
  }

  lemma RemovingIsSafe(o: Observation, n: nat, c: nat, epoch: nat)
    requires Complete(o) && n == Replicas(o) == c + 1 && Size(o) == c && epoch == o.configMap.value.epoch
    requires AllIn(o, n, {MemberState(epoch, c)}) && NoneOverdue(o, n, Some(n - 1))
    ensures Safe(o, Scale(c))
  {
    assert {MemberState(epoch, c)} == {MemberState(epoch, c), MemberState(epoch, c)};
    AllInIsAllAt(o, n, MemberState(epoch, c), MemberState(epoch, c));
  }

  lemma StepIsSafe(o: Observation, action: Action, exempt: Option<nat>)
    requires Complete(o) && Classify(o, o.statefulSet.value, Size(o), o.configMap.value.epoch) == Step(action, exempt)
    requires NoneOverdue(o, Replicas(o), exempt)
    ensures Safe(o, action)
  {
    var n, c, epoch := Replicas(o), Size(o), o.configMap.value.epoch;
    if c == n + 1 {
      AnnouncedIsSafe(o, n, epoch, {MemberState(epoch, n + 1)} + (if epoch >= 1 then {MemberState(epoch - 1, n)} else {}));
    } else if c == n {
      SameSizeIsSafe(o, action, exempt);
    } else {
      RemovingIsSafe(o, n, c, epoch);
    }
  }

  lemma SameSizeIsSafe(o: Observation, action: Action, exempt: Option<nat>)
    requires Complete(o) && Classify(o, o.statefulSet.value, Size(o), o.configMap.value.epoch) == Step(action, exempt)
    requires NoneOverdue(o, Replicas(o), exempt) && Size(o) == Replicas(o)
    ensures Safe(o, action)
  {
    var n, epoch := Replicas(o), o.configMap.value.epoch;
    if AllIn(o, n, {MemberState(epoch, n)}) {
      FollowingIsSafe(o, o.statefulSet.value, epoch);
    } else if exempt.Some? {
      DrainingIsSafe(o, n, epoch);
    }
  }

  lemma ReadableIs(o: Observation)
    requires o.configMap.Some?
    ensures var m := o.configMap.value;
            Readable(o) <==> !(m.unreadable || !ValidMembers(m.members) || m.members != Members(|m.members|))
  {
    MembersSize(Size(o));
  }

  /** For every observation: the planner does something, or says that nothing is to do, only if
      the ConfigMap is readable, the pods' views agree, nobody is overdue and every safeguard of
      that action holds. */
  lemma ActsOnlyIfSafe(o: Observation)
    requires !Plan(o).Wait?
    ensures Complete(o) ==> Readable(o) && ViewsAgree(o, Replicas(o)) && Safe(o, Plan(o))
    ensures !Complete(o) ==>
              || (o.configMap.None? && o.statefulSet.None? && Plan(o) == WriteConfigMap(0, Members(o.desired)))
              || (Readable(o) && o.statefulSet.None? && Plan(o) == Scale(Size(o)))
  {
    if o.configMap.Some? { ReadableIs(o); }
    if Complete(o) {
      GoodViews(o, Replicas(o));
      var step := Classify(o, o.statefulSet.value, Size(o), o.configMap.value.epoch);
      NobodyOverdue(o, Replicas(o), step.exempt);
      StepIsSafe(o, step.action, step.exempt);
    }
  }

  // ---------------------------------------------------------------- what it waits for

  // The memberships are those of some step of a change.
  ghost predicate Explainable(o: Observation)
    requires Complete(o)
  {
    var n, c, epoch := Replicas(o), Size(o), o.configMap.value.epoch;
    || (c == n + 1 && AllAt(o, n, epoch, n + 1, epoch - 1, n))
    || (c == n && AllAt(o, n, epoch, n, epoch, n))
    || (c == n > 0 && AllAt(o, n, epoch - 1, n - 1, epoch, n))
    || (c == n > 0 && AllAt(o, n, epoch, n, epoch + 1, n - 1))
    || (c + 1 == n && AllAt(o, n, epoch, c, epoch, c))
  }

  // What the reason says is so.
  ghost predicate Because(o: Observation, r: Reason) {
    match r
    case ConfigMapMissing => o.configMap.None? && o.statefulSet.Some?
    case ConfigMapUnexpected => o.configMap.Some? && !Readable(o)
    case AddressMismatch => Complete(o) && exists i: nat :: Answers(o, Replicas(o), i) && !ValidMembers(MembersOf(o, i))
    case MembershipConflict =>
      && Complete(o)
      && exists i: nat, j: nat ::
           Answers(o, Replicas(o), i) && Answers(o, Replicas(o), j) && EpochOf(o, i) == EpochOf(o, j) && MembersOf(o, i) != MembersOf(o, j)
    case UnexplainedDivergence => Complete(o) && (TooFarApart(o, Replicas(o)) || !Explainable(o))
    case PodUnavailable => Complete(o) && !NoneOverdue(o, Replicas(o), None)
    case WaitingForEpoch =>
      && Complete(o) && Size(o) == Replicas(o) >= 1
      && exists i: nat :: Answers(o, Replicas(o), i) && At(o, Replicas(o), i, o.configMap.value.epoch - 1, Replicas(o) - 1)
    case WaitingForHandoff =>
      && Complete(o) && Size(o) == Replicas(o)
      && exists i: nat :: Answers(o, Replicas(o), i) && !HasHandedOff(o, i, o.configMap.value.epoch)
    case Draining => DrainsStill(o) && !o.drainOverdue
    case DrainBlocked => DrainsStill(o) && o.drainOverdue
    case WaitingForPodRemoval => Complete(o) && exists i: nat :: i >= Replicas(o) && PodAt(o, i).exists_
    case WaitingForVolumeRemoval => Complete(o) && exists i :: i in o.volumes && i >= Replicas(o)
    case WaitingForOldVolume => Complete(o) && !Free(o, Replicas(o))
    case WaitingForPods => Complete(o) && exists i: nat :: i < Replicas(o) && !Serves(PodAt(o, i))
    case RollingUpdate => Complete(o) && (!o.statefulSet.value.rolledOut || o.statefulSet.value.readyReplicas < Replicas(o))
  }

  predicate HasHandedOff(o: Observation, i: nat, epoch: nat) {
    PodAt(o, i).membership.Some? && PodAt(o, i).membership.value.handoffEpoch >= epoch && PodAt(o, i).membership.value.handoffDone
  }

  // Some pod holds the membership without the last one, which has not drained.
  ghost predicate DrainsStill(o: Observation) {
    && Complete(o) && Size(o) == Replicas(o) >= 1 && !LastDrained(o, Replicas(o), o.configMap.value.epoch + 1)
    && exists i: nat :: Answers(o, Replicas(o), i) && At(o, Replicas(o), i, o.configMap.value.epoch + 1, Replicas(o) - 1)
  }

  lemma UnfinishedIsTrue(o: Observation, set_: SetObs, epoch: nat)
    requires Complete(o) && set_ == o.statefulSet.value && epoch == o.configMap.value.epoch && Size(o) == set_.replicas
    requires Unfinished(o, set_, epoch).Some?
    ensures Because(o, Unfinished(o, set_, epoch).value)
  {
    var n := set_.replicas;
    if exists i | n <= i < |o.pods| :: o.pods[i].exists_ {
      var i: nat :| n <= i < |o.pods| && o.pods[i].exists_;
      assert PodAt(o, i).exists_;
    } else if exists i | i in o.volumes :: i >= n {
    } else if HandoffPending(o, n, epoch) {
      var i: nat :| i < n && Answers(o, n, i)
        && (PodAt(o, i).membership.value.handoffEpoch < epoch || !PodAt(o, i).membership.value.handoffDone);
      assert !HasHandedOff(o, i, epoch);
    } else if !AllHealthy(o, n) {
      var i: nat :| i < n && !Healthy(PodAt(o, i));
    }
  }

  lemma SeenIsAt(o: Observation, n: nat, a: MemberState, b: MemberState, m: MemberState)
    requires AllIn(o, n, {a, b}) && Seen(o, n, m)
    ensures exists i: nat :: Answers(o, n, i) && At(o, n, i, m.epoch, m.size)
  {
    var i: nat :| i < n && Answers(o, n, i) && StateOf(o, i) == m;
    assert At(o, n, i, m.epoch, m.size);
  }

  lemma StepWaitIsTrue(o: Observation, r: Reason, exempt: Option<nat>)
    requires Complete(o) && Classify(o, o.statefulSet.value, Size(o), o.configMap.value.epoch) == Step(Wait(r), exempt)
    ensures Because(o, r)
  {
    var n, epoch := Replicas(o), o.configMap.value.epoch;
    if Size(o) != n {
      ScaleUpWaitIsTrue(o, n, r);
    } else if AllIn(o, n, {MemberState(epoch, n)}) {
      ConvergedWaitIsTrue(o, r);
    } else if exempt.Some? {
      SeenIsAt(o, n, MemberState(epoch, n), MemberState(epoch + 1, n - 1), MemberState(epoch + 1, n - 1));
      DrainWaitIsTrue(o, n, epoch, r);
    } else {
      SeenIsAt(o, n, MemberState(epoch - 1, n - 1), MemberState(epoch, n), MemberState(epoch - 1, n - 1));
    }
  }

  lemma ScaleUpWaitIsTrue(o: Observation, n: nat, r: Reason)
    requires Complete(o) && n == Replicas(o) && ScaleUp(o, n) == Wait(r)
    ensures Because(o, r)
  {
    if !AllHealthy(o, n) {
      var i: nat :| i < n && !Healthy(PodAt(o, i));
      assert !Serves(PodAt(o, i));
    }
  }

  lemma DrainWaitIsTrue(o: Observation, n: nat, epoch: nat, r: Reason)
    requires Complete(o) && n == Replicas(o) == Size(o) && n > 0 && epoch == o.configMap.value.epoch && DrainLast(o, n, epoch + 1) == Wait(r)
    requires exists i: nat :: Answers(o, n, i) && At(o, n, i, epoch + 1, n - 1)
    ensures Because(o, r)
  {
  }

  lemma ConvergedWaitIsTrue(o: Observation, r: Reason)
    requires Complete(o) && Size(o) == Replicas(o)
    requires Converged(o, o.statefulSet.value, o.configMap.value.epoch) == Wait(r)
    ensures Because(o, r)
  {
    var epoch := o.configMap.value.epoch;
    if Unfinished(o, o.statefulSet.value, epoch).Some? { UnfinishedIsTrue(o, o.statefulSet.value, epoch); }
  }

  lemma UnexplainedIsTrue(o: Observation)
    requires Complete(o) && Classify(o, o.statefulSet.value, Size(o), o.configMap.value.epoch) == Unexplained
    ensures !Explainable(o)
  {
    var n: nat, c: nat, epoch: int := Replicas(o), Size(o), o.configMap.value.epoch;
    if c == n + 1 {
      NotAnnounced(o, n, epoch);
    } else if c == n {
      SameSizeIsNone(o, n, epoch);
    } else if c + 1 == n && AllAt(o, n, epoch, c, epoch, c) {
      AllAtIsIn(o, n, epoch, c, epoch, c, {MemberState(epoch, c)});
    }
  }

  lemma SameSizeIsNone(o: Observation, n: nat, epoch: nat)
    requires Complete(o) && n == Replicas(o) == Size(o) && Classify(o, o.statefulSet.value, n, epoch) == Unexplained
    ensures !AllAt(o, n, epoch, n, epoch, n)
    ensures n > 0 ==> !AllAt(o, n, epoch - 1, n - 1, epoch, n) && !AllAt(o, n, epoch, n, epoch + 1, n - 1)
  {
    if AllAt(o, n, epoch, n, epoch, n) { AllAtIsIn(o, n, epoch, n, epoch, n, {MemberState(epoch, n)}); }
    if n > 0 && AllAt(o, n, epoch - 1, n - 1, epoch, n) { NotSpreading(o, n, epoch); }
    if n > 0 && AllAt(o, n, epoch, n, epoch + 1, n - 1) { NotLeaving(o, n, epoch); }
  }

  lemma NotAnnounced(o: Observation, n: nat, epoch: nat)
    ensures AllAt(o, n, epoch, n + 1, epoch - 1, n) ==>
            AllIn(o, n, {MemberState(epoch, n + 1)} + (if epoch >= 1 then {MemberState(epoch - 1, n)} else {}))
  {
    if AllAt(o, n, epoch, n + 1, epoch - 1, n) {
      AllAtIsIn(o, n, epoch, n + 1, epoch - 1, n, {MemberState(epoch, n + 1)} + (if epoch >= 1 then {MemberState(epoch - 1, n)} else {}));
    }
  }

  lemma NotLeaving(o: Observation, n: nat, epoch: nat)
    requires n > 0 && AllAt(o, n, epoch, n, epoch + 1, n - 1)
    ensures || AllIn(o, n, {MemberState(epoch, n)})
            || (AllIn(o, n, {MemberState(epoch, n), MemberState(epoch + 1, n - 1)}) && Seen(o, n, MemberState(epoch + 1, n - 1)))
  {
    var same, left := MemberState(epoch, n), MemberState(epoch + 1, n - 1);
    AllAtIsIn(o, n, epoch, n, epoch + 1, n - 1, {same, left});
    if !AllIn(o, n, {same}) { SecondIsSeen(o, n, same, left); }
  }

  lemma NotSpreading(o: Observation, n: nat, epoch: nat)
    requires n > 0 && AllAt(o, n, epoch - 1, n - 1, epoch, n)
    ensures || AllIn(o, n, {MemberState(epoch, n)})
            || (epoch >= 1 && AllIn(o, n, {MemberState(epoch - 1, n - 1), MemberState(epoch, n)}) && Seen(o, n, MemberState(epoch - 1, n - 1)))
  {
    var same := MemberState(epoch, n);
    if epoch == 0 {
      AllAtIsIn(o, n, epoch - 1, n - 1, epoch, n, {same});
    } else {
      var before := MemberState(epoch - 1, n - 1);
      AllAtIsIn(o, n, epoch - 1, n - 1, epoch, n, {before, same});
      if !AllIn(o, n, {same}) {
        assert {before, same} == {same, before};
        SecondIsSeen(o, n, same, before);
      }
    }
  }

  lemma AllAtIsIn(o: Observation, n: nat, e: int, k: int, e': int, k': int, allowed: set<MemberState>)
    requires AllAt(o, n, e, k, e', k')
    requires e >= 0 && k >= 0 ==> MemberState(e, k) in allowed
    requires e' >= 0 && k' >= 0 ==> MemberState(e', k') in allowed
    ensures AllIn(o, n, allowed)
  {
    forall i | 0 <= i < n && Answers(o, n, i) ensures StateOf(o, i) in allowed && MembersOf(o, i) == Members(StateOf(o, i).size) {
      assert At(o, n, i, e, k) || At(o, n, i, e', k');
    }
  }

  lemma SecondIsSeen(o: Observation, n: nat, a: MemberState, b: MemberState)
    requires AllIn(o, n, {a, b}) && !AllIn(o, n, {a})
    ensures Seen(o, n, b)
  {
    var i: nat :| i < n && Answers(o, n, i) && !(StateOf(o, i) in {a} && MembersOf(o, i) == Members(StateOf(o, i).size));
    assert StateOf(o, i) == b;
  }

  /** For every observation: what a wait gives as its reason is so. */
  lemma WaitsAreTrue(o: Observation)
    requires Plan(o).Wait?
    ensures Because(o, Plan(o).reason)
  {
    if o.configMap.Some? { ReadableIs(o); }
    if Complete(o) && Readable(o) && BadViews(o, Replicas(o)).None? {
      match Classify(o, o.statefulSet.value, Size(o), o.configMap.value.epoch)
      case Unexplained => UnexplainedIsTrue(o);
      case Step(action, exempt) =>
        if AnyUnavailable(o, Replicas(o), exempt) {
          var i: nat :| i < Replicas(o) && exempt != Some(i) && PodAt(o, i).exists_ && !Healthy(PodAt(o, i)) && PodAt(o, i).overdue;
        } else {
          StepWaitIsTrue(o, Plan(o).reason, exempt);
        }
    } else if Complete(o) && Readable(o) {
      BadViewsAreTrue(o, Replicas(o));
    }
  }

  lemma BadViewsAreTrue(o: Observation, n: nat)
    requires Complete(o) && n == Replicas(o) && BadViews(o, n).Some?
    ensures Because(o, BadViews(o, n).value)
  {
    if AnyForeign(o, n) {
      var i: nat :| i < n && Answers(o, n, i) && !ValidMembers(MembersOf(o, i));
    } else if AnyConflict(o, n) {
      var i: nat, j: nat :| i < n && j < n && Answers(o, n, i) && Answers(o, n, j)
        && EpochOf(o, i) == EpochOf(o, j) && MembersOf(o, i) != MembersOf(o, j);
    }
  }

  // ---------------------------------------------------------------- what it waits for first

  // What a cluster whose pods have all reached the ConfigMap's membership may wait for, in order.
  const IN_ORDER: seq<Reason> :=
    [PodUnavailable, WaitingForPodRemoval, WaitingForVolumeRemoval, WaitingForHandoff, WaitingForPods, RollingUpdate]

  // Every check passed, and every pod that answers at the ConfigMap's membership.
  ghost predicate Reached(o: Observation) {
    && Complete(o) && Readable(o) && BadViews(o, Replicas(o)).None?
    && Size(o) == Replicas(o) && AllIn(o, Replicas(o), {MemberState(o.configMap.value.epoch, Replicas(o))})
  }

  /** Such a cluster waits for the first of these that is so, and for none of them only if none is. */
  lemma WaitsForTheFirst(o: Observation, k: nat)
    requires Reached(o) && k <= |IN_ORDER| && forall j :: 0 <= j < k ==> !Because(o, IN_ORDER[j])
    ensures k < |IN_ORDER| && Because(o, IN_ORDER[k]) ==> Plan(o) == Wait(IN_ORDER[k])
    ensures k == |IN_ORDER| ==> Plan(o) == FollowSpec(o, o.statefulSet.value, o.configMap.value.epoch)
  {
    var n, set_, epoch := Replicas(o), o.statefulSet.value, o.configMap.value.epoch;
    ReadableIs(o);
    assert Classify(o, set_, Size(o), epoch) == Step(Converged(o, set_, epoch), None);
    OverdueIff(o, n);
    if k > 0 {
      assert !Because(o, IN_ORDER[0]);
      FirstUnfinished(o, set_, epoch, k);
    }
  }

  lemma FirstUnfinished(o: Observation, set_: SetObs, epoch: nat, k: nat)
    requires Complete(o) && set_ == o.statefulSet.value && epoch == o.configMap.value.epoch && Size(o) == set_.replicas
    requires 1 <= k <= |IN_ORDER| && forall j :: 0 <= j < k ==> !Because(o, IN_ORDER[j])
    ensures k < |IN_ORDER| && Because(o, IN_ORDER[k]) ==> Unfinished(o, set_, epoch) == Some(IN_ORDER[k])
    ensures k == |IN_ORDER| ==> Unfinished(o, set_, epoch) == None
  {
    UnfinishedOrder(o, set_, epoch);
    assert IN_ORDER[1] == WaitingForPodRemoval && IN_ORDER[2] == WaitingForVolumeRemoval;
    assert IN_ORDER[3] == WaitingForHandoff && IN_ORDER[4] == WaitingForPods && IN_ORDER[5] == RollingUpdate;
  }

  lemma OverdueIff(o: Observation, n: nat)
    ensures AnyUnavailable(o, n, None) <==> !NoneOverdue(o, n, None)
  {
    if !NoneOverdue(o, n, None) {
      var i: nat :| i < n && PodAt(o, i).exists_ && PodAt(o, i).overdue && !Healthy(PodAt(o, i));
    }
  }

  lemma UnfinishedOrder(o: Observation, set_: SetObs, epoch: nat)
    requires Complete(o) && set_ == o.statefulSet.value && epoch == o.configMap.value.epoch && Size(o) == set_.replicas
    ensures Unfinished(o, set_, epoch) ==
            if Because(o, WaitingForPodRemoval) then Some(WaitingForPodRemoval)
            else if Because(o, WaitingForVolumeRemoval) then Some(WaitingForVolumeRemoval)
            else if Because(o, WaitingForHandoff) then Some(WaitingForHandoff)
            else if Because(o, WaitingForPods) then Some(WaitingForPods)
            else if Because(o, RollingUpdate) then Some(RollingUpdate)
            else None
  {
    var n := set_.replicas;
    assert Because(o, WaitingForPodRemoval) <==> exists i | n <= i < |o.pods| :: o.pods[i].exists_ by {
      if Because(o, WaitingForPodRemoval) {
        var i: nat :| i >= n && PodAt(o, i).exists_;
        assert o.pods[i].exists_;
      }
      if i :| n <= i < |o.pods| && o.pods[i].exists_ { assert PodAt(o, i).exists_; }
    }
    assert Because(o, WaitingForHandoff) <==> HandoffPending(o, n, epoch) by {
      if HandoffPending(o, n, epoch) {
        var i: nat :| i < n && Answers(o, n, i)
          && (PodAt(o, i).membership.value.handoffEpoch < epoch || !PodAt(o, i).membership.value.handoffDone);
        assert !HasHandedOff(o, i, epoch);
      }
      if Because(o, WaitingForHandoff) {
        var i: nat :| Answers(o, n, i) && !HasHandedOff(o, i, epoch);
        assert i < n;
      }
    }
  }
}
