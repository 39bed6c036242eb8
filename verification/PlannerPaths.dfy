/**
 The planner on a cluster whose pods cooperate: from a stable cluster it takes exactly two
 actions for each pod added and three for each removed, one more if the pod template is stale,
 and then none. Each stretch between two actions is a run of the cluster's own events.
 */
module PlannerPaths {
  import opened Wrappers
  import opened Planner
  import opened PlannerRuns
  import opened PlannerProgress

  // ---------------------------------------------------------------- runs between two states

  ghost predicate Leads(s: State, events: seq<Event>, s': State)
    decreases |events|
  {
    if events == [] then s' == s
    else
      var front, last := events[..|events| - 1], events[|events| - 1];
      exists t :: Leads(s, front, t) && Next(t, last, s')
  }

  lemma LeadsOne(s: State, events: seq<Event>, t: State, e: Event, s': State)
    requires Leads(s, events, t) && Next(t, e, s')
    ensures Leads(s, events + [e], s')
  {
    assert (events + [e])[..|events|] == events;
  }

  lemma LeadsTwo(s: State, e: Event, t: State, f: Event, s': State)
    requires Next(s, e, t) && Next(t, f, s')
    ensures Leads(s, [e, f], s')
  {
    var none: seq<Event> := [];
    LeadsOne(s, none, s, e, t);
    LeadsOne(s, none + [e], t, f, s');
    assert none + [e] + [f] == [e, f];
  }

  lemma {:induction false} LeadsOn(s: State, a: seq<Event>, t: State, b: seq<Event>, s': State)
    requires Leads(s, a, t) && Leads(t, b, s')
    ensures Leads(s, a + b, s')
    decreases |b|
  {
    if b == [] {
      assert a + b == a;
    } else {
      var n := |b| - 1;
      var u :| Leads(t, b[..n], u) && Next(u, b[n], s');
      LeadsOn(s, a, t, b[..n], u);
      LeadsOne(s, a + b[..n], u, b[n], s');
      assert a + b == a + b[..n] + [b[n]];
    }
  }

  // Such a stretch continues any run that ends where it begins.
  lemma {:induction false} LeadsContinues(states: seq<State>, events: seq<Event>, more: seq<Event>, s': State)
    returns (states': seq<State>)
    requires Run(states, events) && Leads(states[|events|], more, s')
    ensures Run(states', events + more) && states'[|events + more|] == s'
    decreases |more|
  {
    if more == [] {
      states' := states;
      assert events + more == events;
    } else {
      var n := |more| - 1;
      var u :| Leads(states[|events|], more[..n], u) && Next(u, more[n], s');
      var before := LeadsContinues(states, events, more[..n], u);
      states' := before + [s'];
      var all := events + more;
      assert all == events + more[..n] + [more[n]];
      forall i: nat | i < |all| ensures StepAt(states', all, i) {
        if i < |all| - 1 { assert StepAt(before, events + more[..n], i); }
      }
    }
  }

  // The actions executed in it.
  function Acts(events: seq<Event>): nat {
    if events == [] then 0 else Acts(events[..|events| - 1]) + (if events[|events| - 1].Act? then 1 else 0)
  }

  lemma {:induction false} ActsAdd(a: seq<Event>, b: seq<Event>)
    ensures Acts(a + b) == Acts(a) + Acts(b)
  {
    if b == [] {
      assert a + b == a;
    } else {
      ActsAdd(a, b[..|b| - 1]);
      assert (a + b)[..|a + b| - 1] == a + b[..|b| - 1];
    }
  }

  // ---------------------------------------------------------------- the points of a change

  // Where a change stands once the pods have done their part: n pods, and the epoch of the
  // ConfigMap.
  datatype Point =
    | Stable(epoch: nat, n: nat, stale: bool)
    | Announcing(epoch: nat, n: nat)      // the ConfigMap has one more; the pods are an epoch behind
    | Departing(epoch: nat, n: nat)        // the pods are an epoch ahead, without the last, which has drained
    | Removing(epoch: nat, n: nat)        // the ConfigMap and the pods are without the last

  // The membership every pod holds there.
  function Held(p: Point): View
    requires p.n >= 1 && (p.Announcing? ==> p.epoch >= 1)
  {
    match p
    case Stable(e, n, stale) => View(e, n)
    case Announcing(e, n) => View(e - 1, n)
    case Departing(e, n) => View(e + 1, n - 1)
    case Removing(e, n) => View(e, n - 1)
  }

  function Listed(p: Point): nat
    requires p.n >= 1
  {
    match p
    case Stable(e, n, stale) => n
    case Announcing(e, n) => n + 1
    case Departing(e, n) => n
    case Removing(e, n) => n - 1
  }

  // A pod that is up, holds v, and has handed off; one outside v has drained.
  function Up(i: nat, v: View): PodObs {
    PodObs(true, false, true, false, Some(Membership(v.epoch, Members(v.size), v.epoch, true)),
           if i >= v.size then Some(Drain(v.epoch, true)) else None)
  }

  function Show(p: Point, desired: nat): Observation
    requires p.n >= 1 && (p.Announcing? ==> p.epoch >= 1)
  {
    Observation(desired,
                Some(SetObs(p.n, p.n, true, !(p.Stable? && p.stale))),
                Some(MapObs(p.epoch, Members(Listed(p)), false)),
                seq(p.n, i requires 0 <= i < p.n => Up(i, Held(p))),
                Upto(p.n),
                false)
  }

  // The one action the planner takes there, and where it leads.
  function Expected(p: Point, desired: nat): Action
    requires p.n >= 1
  {
    match p
    case Stable(e, n, stale) =>
      if stale then UpdateTemplate(n)
      else if n < desired then WriteConfigMap(e + 1, Members(n + 1))
      else if n > desired then Post(0, e + 1, Members(n - 1))
      else Nothing
    case Announcing(e, n) => Scale(n + 1)
    case Departing(e, n) => WriteConfigMap(e + 1, Members(n - 1))
    case Removing(e, n) => Scale(n - 1)
  }

  function After(p: Point, desired: nat): Point {
    match p
    case Stable(e, n, stale) =>
      if stale then Stable(e, n, false)
      else if n < desired then Announcing(e + 1, n)
      else if n > desired then Departing(e, n)
      else p
    case Announcing(e, n) => Stable(e, n + 1, false)
    case Departing(e, n) => Removing(e + 1, n)
    case Removing(e, n) => Stable(e, if n > 0 then n - 1 else 0, false)
  }

  // A point a change can be at: a pod is never removed below one.
  predicate Sound(p: Point) {
    p.n >= 1 && (p.Announcing? ==> p.epoch >= 1) && (p.Departing? || p.Removing? ==> p.n >= 2)
  }

  lemma ShownPods(p: Point, desired: nat, i: nat)
    requires Sound(p) && i < p.n
    ensures var o := Show(p, desired);
            && Healthy(PodAt(o, i)) && Answers(o, p.n, i) && EpochOf(o, i) == Held(p).epoch
            && MembersOf(o, i) == Members(Held(p).size) && StateOf(o, i) == StateAt(Held(p)) && ValidMembers(MembersOf(o, i))
  {
    MembersSize(Held(p).size);
  }

  // Every pod holds the same membership, so nothing is wrong and no pod is unavailable.
  lemma ShowsOneView(p: Point, desired: nat)
    requires Sound(p)
    ensures var o := Show(p, desired);
            && BadViews(o, p.n) == None && AllHealthy(o, p.n)
            && (forall allowed :: Planner.AllIn(o, p.n, allowed) <==> StateAt(Held(p)) in allowed)
            && (forall m :: Seen(o, p.n, m) <==> m == StateAt(Held(p)))
            && (forall exempt :: !AnyUnavailable(o, p.n, exempt))
  {
    var o := Show(p, desired);
    forall i | 0 <= i < p.n
      ensures Healthy(PodAt(o, i)) && Answers(o, p.n, i) && EpochOf(o, i) == Held(p).epoch
      ensures MembersOf(o, i) == Members(Held(p).size) && StateOf(o, i) == StateAt(Held(p)) && ValidMembers(MembersOf(o, i))
    {
      ShownPods(p, desired, i);
    }
    assert Answers(o, p.n, 0) && StateOf(o, 0) == StateAt(Held(p)) && MembersOf(o, 0) == Members(StateOf(o, 0).size);
  }

  lemma ShownView(p: Point, desired: nat)
    requires Sound(p)
    ensures ViewAt(Show(p, desired).pods, Held(p).epoch) == Members(Held(p).size)
  {
    var pods := Show(p, desired).pods;
    assert pods[0] == Up(0, Held(p));
  }

  lemma ShowsFinished(p: Point, desired: nat)
    requires Sound(p) && p.Stable?
    ensures var o := Show(p, desired); Unfinished(o, o.statefulSet.value, p.epoch) == None && !OrdinalTaken(o, p.n)
  {
    var o := Show(p, desired);
    ShowsOneView(p, desired);
    assert !HandoffPending(o, p.n, p.epoch) by {
      forall i: nat | i < p.n ensures PodAt(o, i) == Up(i, Held(p)) { }
    }
  }

  // The step the planner is at, whatever ill health it expects.
  ghost predicate StepIs(p: Point, desired: nat, a: Action)
    requires Sound(p)
  {
    var o := Show(p, desired);
    Classify(o, o.statefulSet.value, Listed(p), p.epoch).Step? && Classify(o, o.statefulSet.value, Listed(p), p.epoch).action == a
  }

  lemma FollowsThere(p: Point, desired: nat)
    requires Sound(p) && p.Stable?
    ensures var o := Show(p, desired); FollowSpec(o, o.statefulSet.value, p.epoch) == Expected(p, desired)
  {
    var o := Show(p, desired);
    assert !OrdinalTaken(o, p.n) by { ShowsFinished(p, desired); }
    assert MembersOf(o, 0) == Members(p.n) by { ShownPods(p, desired, 0); }
    assert ViewAt(o.pods, p.epoch) == Members(p.n) by { ShownView(p, desired); }
    FollowsFrom(o, o.statefulSet.value, p, desired);
  }

  lemma FollowsFrom(o: Observation, set_: SetObs, p: Point, desired: nat)
    requires p.Stable? && p.n >= 1 && o.desired == desired && set_.replicas == p.n && set_.templateCurrent == !p.stale
    requires MembersOf(o, 0) == Members(p.n) == ViewAt(o.pods, p.epoch) && !OrdinalTaken(o, p.n)
    ensures FollowSpec(o, set_, p.epoch) == Expected(p, desired)
  {
    FollowSpecIs(o, set_, p.epoch);
  }

  lemma StepStable(p: Point, desired: nat)
    requires Sound(p) && p.Stable?
    ensures StepIs(p, desired, Expected(p, desired))
  {
    var o := Show(p, desired);
    ShowsOneView(p, desired);
    ClassifyConverged(o, o.statefulSet.value, p.epoch);
    ShowsFinished(p, desired);
    FollowsThere(p, desired);
  }

  lemma StepAnnouncing(p: Point, desired: nat)
    requires Sound(p) && p.Announcing?
    ensures StepIs(p, desired, Expected(p, desired))
  {
    var o := Show(p, desired);
    ShowsOneView(p, desired);
    assert ScaleUp(o, p.n) == Scale(p.n + 1);
    ClassifyAnnounced(o, o.statefulSet.value, p.epoch, StateAt(Held(p)));
  }

  lemma ClassifyAnnounced(o: Observation, set_: SetObs, epoch: nat, u: MemberState)
    requires epoch >= 1 && u == MemberState(epoch - 1, set_.replicas)
    requires forall allowed :: Planner.AllIn(o, set_.replicas, allowed) <==> u in allowed
    ensures Classify(o, set_, set_.replicas + 1, epoch) == Step(ScaleUp(o, set_.replicas), None)
  {
    assert u in {MemberState(epoch, set_.replicas + 1)} + {MemberState(epoch - 1, set_.replicas)};
  }

  lemma StepDeparting(p: Point, desired: nat)
    requires Sound(p) && p.Departing?
    ensures StepIs(p, desired, Expected(p, desired))
  {
    var o := Show(p, desired);
    ShowsOneView(p, desired);
    ClassifyLeaving(o, o.statefulSet.value, p.epoch, MemberState(p.epoch, p.n), StateAt(Held(p)));
    LastHasDrained(p, desired);
  }

  lemma LastHasDrained(p: Point, desired: nat)
    requires Sound(p) && p.Departing?
    ensures DrainLast(Show(p, desired), p.n, p.epoch + 1) == Expected(p, desired)
  {
    var o := Show(p, desired);
    assert PodAt(o, p.n - 1) == Up(p.n - 1, Held(p));
    ShownView(p, desired);
  }

  lemma StepRemoving(p: Point, desired: nat)
    requires Sound(p) && p.Removing?
    ensures StepIs(p, desired, Expected(p, desired))
  {
    ShowsOneView(p, desired);
  }

  lemma StepThere(p: Point, desired: nat)
    requires Sound(p)
    ensures StepIs(p, desired, Expected(p, desired))
  {
    match p
    case Stable(e, n, stale) => StepStable(p, desired);
    case Announcing(e, n) => StepAnnouncing(p, desired);
    case Departing(e, n) => StepDeparting(p, desired);
    case Removing(e, n) => StepRemoving(p, desired);
  }

  /** At each point the planner takes exactly the one expected action. */
  lemma PlanThere(p: Point, desired: nat)
    requires Sound(p) && desired >= 1
    ensures Plan(Show(p, desired)) == Expected(p, desired)
  {
    StepThere(p, desired);
    ShowsOneView(p, desired);
    MembersSize(Listed(p));
  }

  function ActionsFrom(p: Point, desired: nat): nat
    requires p.n >= 1
  {
    match p
    case Stable(e, n, stale) => Rest(n, desired) + (if stale then 1 else 0)
    case Announcing(e, n) => 1 + Rest(n + 1, desired)
    case Departing(e, n) => 2 + Rest(n - 1, desired)
    case Removing(e, n) => 1 + Rest(n - 1, desired)
  }

  // ---------------------------------------------------------------- states at a point

  // Everything as the point says; the pods have handed off, and those outside the membership
  // have drained.
  ghost predicate At(s: State, p: Point, desired: nat)
    requires Sound(p)
  {
    && s.desired == desired && s.k.configMap == Some(View(p.epoch, Listed(p))) && s.k.replicas == Some(p.n)
    && (s.stale <==> p.Stable? && p.stale)
    && PodsAt(s, p.n, Held(p))
  }

  // The pods are the first n; each holds v, has handed off, and has drained if it is outside v.
  ghost predicate PodsAt(s: State, n: nat, v: View) {
    && s.running == Upto(n) && s.k.volumes.Keys == Upto(n)
    && (forall i: nat :: i < n ==> PodHas(s, i, v))
    && (forall i: nat :: v.size <= i < n ==> Drained(s, i, v.epoch))
  }

  ghost predicate PodHas(s: State, i: nat, v: View) {
    i in s.k.volumes && s.k.volumes[i] == v && HandedOff(s, i) >= v.epoch
  }

  // At a point is exactly where the operator may observe it.
  lemma AtIsObserved(s: State, p: Point, desired: nat)
    requires Sound(p)
    ensures At(s, p, desired) <==> Observes(s, Show(p, desired))
  {
    if At(s, p, desired) { AtShows(s, p, desired); }
    if Observes(s, Show(p, desired)) { ShowIsAt(s, p, desired); }
  }

  lemma AtShows(s: State, p: Point, desired: nat)
    requires Sound(p) && At(s, p, desired)
    ensures Observes(s, Show(p, desired))
  {
    var o := Show(p, desired);
    forall i: nat | i < |o.pods| ensures ShowsPod(s, i, o.pods[i]) { assert PodHas(s, i, Held(p)); }
  }

  lemma SameSize(a: nat, b: nat)
    requires Members(a) == Members(b)
    ensures a == b
  {
    MembersSize(a);
    MembersSize(b);
  }

  lemma ShowIsAt(s: State, p: Point, desired: nat)
    requires Sound(p) && Observes(s, Show(p, desired))
    ensures At(s, p, desired)
  {
    var o := Show(p, desired);
    assert s.k.configMap.Some? && s.k.replicas.Some?;
    SameSize(s.k.configMap.value.size, Listed(p));
    forall i: nat | i < p.n ensures i in s.running && PodHas(s, i, Held(p)) && (i >= Held(p).size ==> Drained(s, i, Held(p).epoch)) {
      assert o.pods[i] == Up(i, Held(p)) && ShowsPod(s, i, o.pods[i]);
      SameSize(s.k.volumes[i].size, Held(p).size);
    }
    assert s.running == Upto(p.n);
  }

  // ---------------------------------------------------------------- the pods' part

  // Events of the pods alone.
  predicate Quiet(events: seq<Event>) {
    forall e :: e in events ==> !e.Act? && !e.Observe? && !e.ChangeSpec?
  }

  lemma {:induction false} QuietHasNoActs(events: seq<Event>)
    requires Quiet(events)
    ensures Acts(events) == 0
  {
    if events != [] {
      assert events[|events| - 1] in events;
      QuietHasNoActs(events[..|events| - 1]);
    }
  }

  ghost predicate LeadsQuietly(s: State, events: seq<Event>, s': State) {
    Leads(s, events, s') && Quiet(events)
  }

  lemma QuietOne(s: State, events: seq<Event>, t: State, e: Event, s': State)
    requires LeadsQuietly(s, events, t) && Next(t, e, s') && !e.Act? && !e.Observe? && !e.ChangeSpec?
    ensures LeadsQuietly(s, events + [e], s')
  {
    LeadsOne(s, events, t, e, s');
  }

  lemma QuietOn(s: State, a: seq<Event>, t: State, b: seq<Event>, s': State)
    requires LeadsQuietly(s, a, t) && LeadsQuietly(t, b, s')
    ensures LeadsQuietly(s, a + b, s')
  {
    LeadsOn(s, a, t, b, s');
  }

  // The first m pods hold v.
  function Spread(volumes: map<nat, View>, v: View, m: nat): map<nat, View> {
    map i | i in volumes :: if i < m then v else volumes[i]
  }

  lemma {:induction false} GossipAll(s: State, j: nat, m: nat) returns (events: seq<Event>)
    requires j in s.running && j in s.k.volumes
    requires forall i: nat :: i < m ==> i in s.running && i in s.k.volumes
    requires forall i: nat :: i < m && i in s.k.volumes ==> s.k.volumes[i] == s.k.volumes[j] || s.k.volumes[i].epoch < s.k.volumes[j].epoch
    ensures LeadsQuietly(s, events, s.(k := s.k.(volumes := Spread(s.k.volumes, s.k.volumes[j], m))))
  {
    var v := s.k.volumes[j];
    if m == 0 {
      events := [];
      assert Spread(s.k.volumes, v, 0) == s.k.volumes;
    } else {
      events := GossipAll(s, j, m - 1);
      var t := s.(k := s.k.(volumes := Spread(s.k.volumes, v, m - 1)));
      var all := Spread(s.k.volumes, v, m);
      if s.k.volumes[m - 1] == v {
        assert all == t.k.volumes;
      } else {
        assert all == t.k.volumes[m - 1 := v];
        assert t.k.volumes[j] == v;
        QuietOne(s, events, t, Gossip(m - 1, j), s.(k := s.k.(volumes := all)));
        events := events + [Gossip(m - 1, j)];
      }
    }
  }

  function Handed(s: State, m: nat): map<nat, nat> {
    if m == 0 then s.handedOff
    else if m - 1 in s.k.volumes then Handed(s, m - 1)[m - 1 := s.k.volumes[m - 1].epoch]
    else Handed(s, m - 1)
  }

  lemma {:induction false} HandedIs(s: State, m: nat, i: nat)
    requires i < m && i in s.k.volumes
    ensures i in Handed(s, m) && Handed(s, m)[i] == s.k.volumes[i].epoch
  {
    if i < m - 1 { HandedIs(s, m - 1, i); }
  }

  lemma {:induction false} HandoffAll(s: State, m: nat) returns (events: seq<Event>)
    requires forall i: nat :: i < m ==> i in s.running && i in s.k.volumes
    ensures LeadsQuietly(s, events, s.(handedOff := Handed(s, m)))
  {
    if m == 0 {
      events := [];
    } else {
      events := HandoffAll(s, m - 1);
      QuietOne(s, events, s.(handedOff := Handed(s, m - 1)), HandoffDone(m - 1), s.(handedOff := Handed(s, m)));
      events := events + [HandoffDone(m - 1)];
    }
  }

  function Pinged(s: State, i: nat, m: nat): map<(nat, nat), nat> {
    if m == 0 then s.seen
    else if m - 1 in s.k.volumes then Pinged(s, i, m - 1)[(i, m - 1) := s.k.volumes[m - 1].epoch]
    else Pinged(s, i, m - 1)
  }

  lemma {:induction false} PingedIs(s: State, i: nat, m: nat, j: nat)
    requires j < m && j in s.k.volumes
    ensures (i, j) in Pinged(s, i, m) && Pinged(s, i, m)[(i, j)] == s.k.volumes[j].epoch
  {
    if j < m - 1 { PingedIs(s, i, m - 1, j); }
  }

  lemma {:induction false} PingAll(s: State, i: nat, m: nat) returns (events: seq<Event>)
    requires i in s.running && forall j: nat :: j < m ==> j in s.running && j in s.k.volumes
    ensures LeadsQuietly(s, events, s.(seen := Pinged(s, i, m)))
  {
    if m == 0 {
      events := [];
    } else {
      events := PingAll(s, i, m - 1);
      QuietOne(s, events, s.(seen := Pinged(s, i, m - 1)), Ping(i, m - 1), s.(seen := Pinged(s, i, m)));
      events := events + [Ping(i, m - 1)];
    }
  }

  // Once one pod holds v, they all come to hold it, hand off, and whoever is outside drains.
  lemma PodsFollow(s: State, n: nat, j: nat, v: View) returns (events: seq<Event>, s': State)
    requires s.running == Upto(n) && s.k.volumes.Keys == Upto(n) && j < n && s.k.volumes[j] == v && n <= v.size + 1
    requires forall i: nat :: i < n && i in s.k.volumes ==> s.k.volumes[i] == v || s.k.volumes[i].epoch < v.epoch
    ensures LeadsQuietly(s, events, s') && PodsAt(s', n, v)
    ensures s' == s.(k := s.k.(volumes := s'.k.volumes), handedOff := s'.handedOff, seen := s'.seen)
  {
    var a := GossipAll(s, j, n);
    var t := s.(k := s.k.(volumes := Spread(s.k.volumes, v, n)));
    var b := HandoffAll(t, n);
    var u := t.(handedOff := Handed(t, n));
    QuietOn(s, a, t, b, u);
    forall i: nat | i < n ensures PodHas(u, i, v) { HandedIs(t, n, i); }
    if n <= v.size {
      events, s' := a + b, u;
    } else {
      var c := PingAll(u, v.size, v.size);
      events, s' := a + b + c, u.(seen := Pinged(u, v.size, v.size));
      QuietOn(s, a + b, u, c, s');
      LastDrains(u, s', v.size, v);
      forall i: nat | i < n ensures PodHas(s', i, v) { assert PodHas(u, i, v); }
    }
  }

  lemma LastDrains(u: State, s': State, last: nat, v: View)
    requires PodHas(u, last, v) && last >= v.size && s' == u.(seen := Pinged(u, last, v.size))
    requires forall i: nat :: i < v.size ==> PodHas(u, i, v)
    ensures Drained(s', last, v.epoch)
  {
    forall j: nat | j < v.size ensures LastSeen(s', last, j) >= v.epoch {
      assert PodHas(u, j, v);
      PingedIs(u, last, v.size, j);
    }
  }

  // ---------------------------------------------------------------- from one point to the next

  // The operator looks, and does the one expected thing.
  ghost function Decided(s: State, p: Point, desired: nat): State
    requires Sound(p)
  {
    s.(pending := Some(Expected(p, desired)), outdated := false, k := Answered(s.k, Show(p, desired)))
  }

  lemma LooksAndActs(s: State, p: Point, desired: nat)
    requires Sound(p) && desired >= 1 && At(s, p, desired)
    ensures Leads(s, [Observe(Show(p, desired)), Act], Done(Decided(s, p, desired)))
  {
    var e, t := Observe(Show(p, desired)), Decided(s, p, desired);
    AtShows(s, p, desired);
    PlanThere(p, desired);
    LeadsTwo(s, e, t, Act, Done(t));
  }

  // The operator's one action, then what the pods do, to the next point.
  ghost predicate Moves(s: State, p: Point, desired: nat, events: seq<Event>, s': State)
    requires Sound(p)
  {
    && Sound(After(p, desired)) && Leads(s, events, s') && At(s', After(p, desired), desired)
    && exists more :: Quiet(more) && events == [Observe(Show(p, desired)), Act] + more
  }

  lemma MovesOn(s: State, p: Point, desired: nat, more: seq<Event>, s': State)
    requires Sound(p) && desired >= 1 && At(s, p, desired) && LeadsQuietly(Done(Decided(s, p, desired)), more, s')
    requires Sound(After(p, desired)) && At(s', After(p, desired), desired)
    ensures Moves(s, p, desired, [Observe(Show(p, desired)), Act] + more, s')
  {
    LooksAndActs(s, p, desired);
    LeadsOn(s, [Observe(Show(p, desired)), Act], Done(Decided(s, p, desired)), more, s');
  }

  lemma SamePods(s: State, s': State, n: nat, v: View)
    requires PodsAt(s, n, v) && s'.running == s.running && s'.k.volumes == s.k.volumes
    requires s'.handedOff == s.handedOff && s'.seen == s.seen
    ensures PodsAt(s', n, v)
  {
    forall i: nat | i < n ensures PodHas(s', i, v) { assert PodHas(s, i, v); }
    forall i: nat | v.size <= i < n ensures Drained(s', i, v.epoch) {
      assert Drained(s, i, v.epoch);
      forall j | 0 <= j < s'.k.volumes[i].size ensures LastSeen(s', i, j) >= v.epoch {
        assert LastSeen(s, i, j) >= v.epoch;
      }
    }
  }

  // What the action leaves of the pods: all of it, but for a membership sent to one.
  lemma ActedState(s: State, p: Point, desired: nat, s': State)
    requires Sound(p) && At(s, p, desired) && s' == Done(Decided(s, p, desired)) && !Expected(p, desired).Post?
    ensures PodsAt(s', p.n, Held(p)) && s'.desired == desired
  {
    SamePods(s, s', p.n, Held(p));
  }

  lemma TemplateUpdated(s: State, p: Point, desired: nat)
    requires Sound(p) && At(s, p, desired) && p.Stable? && p.stale
    ensures At(Done(Decided(s, p, desired)), After(p, desired), desired)
  {
    ActedState(s, p, desired, Done(Decided(s, p, desired)));
  }

  lemma NewPodAnnounced(s: State, p: Point, desired: nat)
    requires Sound(p) && At(s, p, desired) && p.Stable? && !p.stale && p.n < desired
    ensures At(Done(Decided(s, p, desired)), After(p, desired), desired)
  {
    ActedState(s, p, desired, Done(Decided(s, p, desired)));
    MembersSize(p.n + 1);
  }

  lemma LastPodDelisted(s: State, p: Point, desired: nat)
    requires Sound(p) && At(s, p, desired) && p.Departing?
    ensures At(Done(Decided(s, p, desired)), After(p, desired), desired)
  {
    MembersSize(p.n - 1);
    assert Held(After(p, desired)) == Held(p);
    ActedState(s, p, desired, Done(Decided(s, p, desired)));
  }

  // These need no pod's help.
  lemma MoveAlone(s: State, p: Point, desired: nat) returns (events: seq<Event>, s': State)
    requires Sound(p) && desired >= 1 && At(s, p, desired)
    requires p.Departing? || (p.Stable? && (p.stale || p.n < desired))
    ensures Moves(s, p, desired, events, s')
  {
    s' := Done(Decided(s, p, desired));
    if p.Departing? {
      LastPodDelisted(s, p, desired);
    } else if p.stale {
      TemplateUpdated(s, p, desired);
    } else {
      NewPodAnnounced(s, p, desired);
    }
    assert LeadsQuietly(s', [], s');
    MovesOn(s, p, desired, [], s');
    events := [Observe(Show(p, desired)), Act] + [];
  }

  // A new pod starts with the ConfigMap's membership, which spreads from it.
  lemma MoveUp(s: State, p: Point, desired: nat) returns (events: seq<Event>, s': State)
    requires Sound(p) && desired >= 1 && At(s, p, desired) && p.Announcing?
    ensures Moves(s, p, desired, events, s')
  {
    var n, v, t := p.n, View(p.epoch, p.n + 1), Done(Decided(s, p, desired));
    ActedState(s, p, desired, t);
    var u := Started(t, n, v);
    NewPodStarts(t, n, v, Held(p));
    var more;
    more, s' := PodsFollow(u, n + 1, n, v);
    assert LeadsQuietly(t, [], t);
    QuietOne(t, [], t, PodStarts(n, 0), u);
    QuietOn(t, [] + [PodStarts(n, 0)], u, more, s');
    MovesOn(s, p, desired, [] + [PodStarts(n, 0)] + more, s');
    events := [Observe(Show(p, desired)), Act] + ([] + [PodStarts(n, 0)] + more);
  }

  function Started(t: State, n: nat, v: View): State {
    t.(k := t.k.(volumes := t.k.volumes[n := v]), running := t.running + {n}, handedOff := t.handedOff[n := 0],
       seen := map p | p in t.seen && p.0 != n :: t.seen[p])
  }

  lemma NewPodStarts(t: State, n: nat, v: View, before: View)
    requires PodsAt(t, n, before) && before.epoch < v.epoch && t.k.configMap == Some(v) && v.size == n + 1 && t.k.replicas == Some(n + 1)
    ensures var u := Started(t, n, v);
            && Next(t, PodStarts(n, 0), u) && u.running == Upto(n + 1) && u.k.volumes.Keys == Upto(n + 1)
            && (forall i: nat :: i < n + 1 && i in u.k.volumes ==> u.k.volumes[i] == v || u.k.volumes[i].epoch < v.epoch)
  {
    var u := Started(t, n, v);
    assert n !in t.running && n !in t.k.volumes;
    assert StartView(t, n) == v;
    forall i: nat | i < n + 1 && i in u.k.volumes ensures u.k.volumes[i] == v || u.k.volumes[i].epoch < v.epoch {
      if i < n { assert PodHas(t, i, before); }
    }
  }

  // The first pod is sent the membership without the last, which spreads; the last pod drains.
  lemma MoveDown(s: State, p: Point, desired: nat) returns (events: seq<Event>, s': State)
    requires Sound(p) && desired >= 1 && At(s, p, desired) && p.Stable? && !p.stale && p.n > desired
    ensures Moves(s, p, desired, events, s')
  {
    var v, t := View(p.epoch + 1, p.n - 1), Done(Decided(s, p, desired));
    assert PodHas(s, 0, Held(p));
    FirstIsSent(s, p, desired, v, t);
    SentIsBehind(s, p.n, Held(p), v, t);
    var more;
    more, s' := PodsFollow(t, p.n, 0, v);
    DownIsAt(t, p, desired, s');
    MovesOn(s, p, desired, more, s');
    events := [Observe(Show(p, desired)), Act] + more;
  }

  lemma FirstIsSent(s: State, p: Point, desired: nat, v: View, t: State)
    requires Sound(p) && p.Stable? && !p.stale && p.n > desired >= 1 && v == View(p.epoch + 1, p.n - 1)
    requires s.desired == desired && !s.stale && 0 in s.running && PodHas(s, 0, Held(p)) && t == Done(Decided(s, p, desired))
    ensures t.desired == desired && !t.stale && t.running == s.running && t.k.volumes == s.k.volumes[0 := v]
    ensures t.k.configMap == s.k.configMap && t.k.replicas == s.k.replicas
  {
    MembersSize(p.n - 1);
    PostTaken(Decided(s, p, desired), p.epoch + 1, Members(p.n - 1));
  }

  lemma PostTaken(d: State, e: nat, m: MemberMap)
    requires d.pending == Some(Post(0, e, m)) && 0 in d.running && 0 in d.k.volumes && d.k.volumes[0].epoch < e
    ensures Done(d) == d.(pending := None, k := d.k.(volumes := d.k.volumes[0 := View(e, |m|)]))
  {
  }

  lemma SentIsBehind(s: State, n: nat, before: View, v: View, t: State)
    requires PodsAt(s, n, before) && n >= 1 && before.epoch < v.epoch && t.running == s.running && t.k.volumes == s.k.volumes[0 := v]
    ensures t.running == Upto(n) && t.k.volumes.Keys == Upto(n) && t.k.volumes[0] == v
    ensures forall i: nat :: i < n && i in t.k.volumes ==> t.k.volumes[i] == v || t.k.volumes[i].epoch < v.epoch
  {
    assert PodHas(s, 0, before);
    forall i: nat | i < n && i in t.k.volumes ensures t.k.volumes[i] == v || t.k.volumes[i].epoch < v.epoch {
      assert PodHas(s, i, before);
    }
  }

  lemma DownIsAt(t: State, p: Point, desired: nat, s': State)
    requires Sound(p) && p.Stable? && !p.stale && p.n > desired >= 1 && t.desired == desired && !t.stale
    requires t.k.configMap == Some(View(p.epoch, p.n)) && t.k.replicas == Some(p.n)
    requires s' == t.(k := t.k.(volumes := s'.k.volumes), handedOff := s'.handedOff, seen := s'.seen)
    requires PodsAt(s', p.n, View(p.epoch + 1, p.n - 1))
    ensures Sound(After(p, desired)) && At(s', After(p, desired), desired)
  {
  }

  // The last pod goes, and its volume after it.
  lemma MoveOut(s: State, p: Point, desired: nat) returns (events: seq<Event>, s': State)
    requires Sound(p) && desired >= 1 && At(s, p, desired) && p.Removing?
    ensures Moves(s, p, desired, events, s')
  {
    var last, t := p.n - 1, Done(Decided(s, p, desired));
    ActedState(s, p, desired, t);
    var more;
    more, s' := LastGoes(t, last, Held(p));
    MovesOn(s, p, desired, more, s');
    events := [Observe(Show(p, desired)), Act] + more;
  }

  lemma LastGoes(t: State, last: nat, v: View) returns (more: seq<Event>, s': State)
    requires PodsAt(t, last + 1, v) && v.size == last && t.k.replicas == Some(last)
    ensures LeadsQuietly(t, more, s') && PodsAt(s', last, v)
    ensures s' == t.(running := t.running - {last}, k := t.k.(volumes := t.k.volumes - {last}))
  {
    var u := t.(running := t.running - {last});
    s' := t.(running := t.running - {last}, k := t.k.(volumes := t.k.volumes - {last}));
    LastIsGone(t, last, v, s');
    assert LeadsQuietly(t, [], t);
    QuietOne(t, [], t, PodStops(last), u);
    QuietOne(t, [] + [PodStops(last)], u, VolumeGone(last), s');
    more := [] + [PodStops(last)] + [VolumeGone(last)];
  }

  lemma LastIsGone(t: State, last: nat, v: View, s': State)
    requires PodsAt(t, last + 1, v) && v.size == last
    requires s' == t.(running := t.running - {last}, k := t.k.(volumes := t.k.volumes - {last}))
    ensures PodsAt(s', last, v) && last in t.k.volumes
  {
    forall i: nat | i < last ensures PodHas(s', i, v) { assert PodHas(t, i, v); }
    assert PodHas(t, last, v);
  }

  /** From any state at a point, the operator's one action and then events of the pods alone
      reach the next point. */
  lemma NextPoint(s: State, p: Point, desired: nat) returns (events: seq<Event>, s': State)
    requires Sound(p) && desired >= 1 && At(s, p, desired) && ActionsFrom(p, desired) > 0
    ensures Moves(s, p, desired, events, s')
  {
    if p.Announcing? {
      events, s' := MoveUp(s, p, desired);
    } else if p.Removing? {
      events, s' := MoveOut(s, p, desired);
    } else if p.Stable? && !p.stale && p.n > desired {
      events, s' := MoveDown(s, p, desired);
    } else {
      events, s' := MoveAlone(s, p, desired);
    }
  }

  lemma AfterCountsDown(p: Point, desired: nat)
    requires Sound(p) && desired >= 1 && ActionsFrom(p, desired) > 0
    ensures Sound(After(p, desired)) && ActionsFrom(After(p, desired), desired) == ActionsFrom(p, desired) - 1
    ensures Expected(p, desired) != Nothing && !Expected(p, desired).Wait?
  {
  }

  // Every time the operator looks, it acts: it neither waits nor is done.
  ghost predicate NeverWaits(events: seq<Event>) {
    forall e :: e in events && e.Observe? ==> !Plan(e.obs).Wait? && Plan(e.obs) != Nothing
  }

  lemma MoveCounts(s: State, p: Point, desired: nat, events: seq<Event>, s': State)
    requires Sound(p) && desired >= 1 && ActionsFrom(p, desired) > 0 && Moves(s, p, desired, events, s')
    ensures Acts(events) == 1 && NeverWaits(events) && forall e :: e in events ==> !e.ChangeSpec?
  {
    var two := [Observe(Show(p, desired)), Act];
    var more :| Quiet(more) && events == two + more;
    QuietHasNoActs(more);
    ActsAdd(two, more);
    var look := [Observe(Show(p, desired))];
    ActsAdd(look, [Act]);
    assert look + [Act] == two && look[..0] == [] && [Act][..0] == [];
    PlanThere(p, desired);
    AfterCountsDown(p, desired);
  }

  /** Exact counts. From any state the operator can observe at a point, there is a run without a
      change of spec in which it executes exactly ActionsFrom actions, never waits, and ends
      with nothing left to do and the cluster at the spec. From a stable cluster that is two
      per pod added, three per pod removed, one for a stale template. */
  lemma {:induction false} TakesExactly(s: State, p: Point, desired: nat) returns (events: seq<Event>, s': State, q: Point)
    requires Sound(p) && desired >= 1 && Observes(s, Show(p, desired))
    ensures Leads(s, events, s') && Acts(events) == ActionsFrom(p, desired) && NeverWaits(events)
    ensures forall e :: e in events ==> !e.ChangeSpec?
    ensures q == Stable(q.epoch, desired, false) && Observes(s', Show(q, desired)) && Plan(Show(q, desired)) == Nothing
    decreases ActionsFrom(p, desired)
  {
    AtIsObserved(s, p, desired);
    if ActionsFrom(p, desired) == 0 {
      events, s', q := [], s, p;
      PlanThere(p, desired);
    } else {
      var first, t := NextPoint(s, p, desired);
      MoveCounts(s, p, desired, first, t);
      AfterCountsDown(p, desired);
      AtIsObserved(t, After(p, desired), desired);
      var rest;
      rest, s', q := TakesExactly(t, After(p, desired), desired);
      events := first + rest;
      LeadsOn(s, first, t, rest, s');
      ActsAdd(first, rest);
    }
  }

  // What a point counts is what is left there: with FinishedRunsAreExact, what every run takes.
  lemma CountIsLeft(s: State, p: Point, desired: nat)
    requires Sound(p) && Observes(s, Show(p, desired))
    ensures LeftIn(s) == ActionsFrom(p, desired)
  {
    AtIsObserved(s, p, desired);
    if p.Departing? {
      assert PodHas(s, 0, Held(p)) && s.k.volumes[0] == Without(s.k);
    } else if p.Stable? {
      forall i | i in s.k.volumes ensures s.k.volumes[i] != Without(s.k) { assert PodHas(s, i, Held(p)); }
    }
  }
}
