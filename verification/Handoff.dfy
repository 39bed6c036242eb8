/**
 Handoff between membership views. A node hands its data from its base view, the last one it
 completed, to the newest: owners that may lack a key's versions are pushed them, or hinted
 when they cannot be reached. Newer views cancel older runs without moving the base, and a
 restart resumes from the last base on disk. Through all of it, every owner in the base has
 the versions this node held, or this node holds a hint for it; unless a join of versions
 delivered to it has retired that hint without any of them covering it.

 One key is followed, and one version x of it that this node holds.
 */
module Handoff {
  import opened Wrappers
  import opened Sequences
  import opened Clocks
  import opened Versions
  import opened Layers
  import AntiEntropy
  import Hints

  datatype View = View(epoch: nat, members: set<string>)

  // ---------------------------------------------------------------- whom to push to

  // If this node stays an owner, the owners that were not owners before; otherwise all.
  function Targets(self: string, oldOwners: seq<string>, newOwners: seq<string>): seq<string> {
    Filter(newOwners, self, if self in newOwners then oldOwners else [])
  }

  function Filter(ids: seq<string>, self: string, skip: seq<string>): seq<string> {
    if ids == [] then []
    else
      var last := ids[|ids| - 1];
      Filter(ids[..|ids| - 1], self, skip) + (if last != self && last !in skip then [last] else [])
  }

  method HandoffTargets(self: string, baseOwners: seq<string>, newOwners: seq<string>) returns (targets: seq<string>)
    ensures targets == Targets(self, baseOwners, newOwners)
  {
    var oldOwners: seq<string> := [];
    if self in newOwners { oldOwners := baseOwners; }
    targets := [];
    for i := 0 to |newOwners|
      invariant targets == Filter(newOwners[..i], self, oldOwners)
    {
      assert newOwners[..i + 1][..i] == newOwners[..i];
      if newOwners[i] != self && newOwners[i] !in oldOwners {
        targets := targets + [newOwners[i]];
      }
    }
    assert newOwners[..|newOwners|] == newOwners;
  }

  lemma {:induction false} FilterMembers(ids: seq<string>, self: string, skip: seq<string>)
    ensures forall id :: id in Filter(ids, self, skip) <==> id in ids && id != self && id !in skip
  {
    if ids != [] {
      FilterMembers(ids[..|ids| - 1], self, skip);
      assert ids == ids[..|ids| - 1] + [ids[|ids| - 1]];
    }
  }

  // The i-th new owner is pushed to: it is not this node and, if this node stays an owner, was none before.
  function IsTarget(self: string, oldOwners: seq<string>, newOwners: seq<string>): nat -> bool {
    (i: nat) => i < |newOwners| && newOwners[i] != self && (self in newOwners ==> newOwners[i] !in oldOwners)
  }

  ghost predicate ListsTargets(self: string, oldOwners: seq<string>, newOwners: seq<string>, at: seq<nat>, targets: seq<string>) {
    && Enumerates(at, |newOwners|, IsTarget(self, oldOwners, newOwners)) && |at| == |targets|
    && forall k :: 0 <= k < |at| ==> at[k] < |newOwners| && targets[k] == newOwners[at[k]]
  }

  /** The targets are exactly those new owners, each where it stands in the list and no others. */
  lemma TargetsAre(self: string, oldOwners: seq<string>, newOwners: seq<string>) returns (at: seq<nat>)
    ensures ListsTargets(self, oldOwners, newOwners, at, Targets(self, oldOwners, newOwners))
    ensures forall id :: id in Targets(self, oldOwners, newOwners) <==>
              id in newOwners && id != self && (self in newOwners ==> id !in oldOwners)
  {
    var skip := if self in newOwners then oldOwners else [];
    FilterMembers(newOwners, self, skip);
    at := FilteredPlaces(self, oldOwners, newOwners, |newOwners|, skip);
    assert newOwners[..|newOwners|] == newOwners;
  }

  lemma {:induction false} FilteredPlaces(self: string, oldOwners: seq<string>, newOwners: seq<string>, n: nat, skip: seq<string>)
    returns (at: seq<nat>)
    requires n <= |newOwners| && skip == if self in newOwners then oldOwners else []
    ensures Enumerates(at, n, IsTarget(self, oldOwners, newOwners)) && |at| == |Filter(newOwners[..n], self, skip)|
    ensures forall k :: 0 <= k < |at| ==> at[k] < |newOwners| && Filter(newOwners[..n], self, skip)[k] == newOwners[at[k]]
  {
    if n == 0 {
      at := [];
    } else {
      var before := FilteredPlaces(self, oldOwners, newOwners, n - 1, skip);
      assert newOwners[..n][..n - 1] == newOwners[..n - 1];
      at := NextTarget(self, oldOwners, newOwners, n - 1, before, Filter(newOwners[..n - 1], self, skip));
    }
  }

  lemma NextTarget(self: string, oldOwners: seq<string>, newOwners: seq<string>, n: nat, before: seq<nat>, targets: seq<string>)
    returns (at: seq<nat>)
    requires n < |newOwners| && Enumerates(before, n, IsTarget(self, oldOwners, newOwners)) && |before| == |targets|
    requires forall k :: 0 <= k < |before| ==> before[k] < |newOwners| && targets[k] == newOwners[before[k]]
    ensures var next := targets + (if IsTarget(self, oldOwners, newOwners)(n) then [newOwners[n]] else []);
            && Enumerates(at, n + 1, IsTarget(self, oldOwners, newOwners)) && |at| == |next|
            && forall k :: 0 <= k < |at| ==> at[k] < |newOwners| && next[k] == newOwners[at[k]]
  {
    EnumeratesMore(before, n, IsTarget(self, oldOwners, newOwners));
    at := if IsTarget(self, oldOwners, newOwners)(n) then before + [n] else before;
  }

  /** Every new owner is this node, a target, or (when this node stays an owner) one of the
      owners before; a node that stops owning pushes to them all. */
  lemma EveryNewOwnerIsReached(self: string, oldOwners: seq<string>, newOwners: seq<string>, id: string)
    requires id in newOwners
    ensures id == self || id in Targets(self, oldOwners, newOwners) || (self in newOwners && id in oldOwners)
    ensures self !in newOwners ==> id in Targets(self, oldOwners, newOwners)
  {
    FilterMembers(newOwners, self, if self in newOwners then oldOwners else []);
  }

  // ---------------------------------------------------------------- the node's handoffs

  // A run: its base and target, this node's siblings once read, and the targets dealt with.
  datatype RunState = RunState(base: View, target: View, siblings: Option<seq<Item>>, done: set<string>)

  datatype State = State(
    base: View,                               // the last view whose handoff completed
    newest: View,
    gen: nat,                                 // the current run's number
    runs: map<nat, RunState>,                 // canceled ones may still be finishing
    saved: View,                              // the base on disk
    held: Layer,                              // every node's version set for the key
    hints: map<string, seq<Hints.Event>>      // this node's hint store, by target
  )

  datatype Step =
    | Merge(node: string, items: seq<Item>)
    | NewView(view: View)
    | Start
    | Read(run: nat)
    | Push(run: nat, target: string)
    | StoreHint(run: nat, target: string)
    | AddHint(target: string, item: Item)
    | MarkDelivered(target: string, batch: seq<Item>, marker: Item)
    | Finish(run: nat, persisted: bool)
    | Abandon(run: nat)
    | Restart

  // The parameters of a cluster: this node, and the key's preference list in each view.
  datatype Cluster = Cluster(self: string, owners: View -> seq<string>)

  function EventsFor(hints: map<string, seq<Hints.Event>>, target: string): seq<Hints.Event> {
    if target in hints then hints[target] else []
  }

  function TargetsOf(c: Cluster, run: RunState): seq<string> {
    Targets(c.self, c.owners(run.base), c.owners(run.target))
  }

  ghost predicate Merged(s: State, node: string, items: seq<Item>, s': State) {
    && AntiEntropy.Absorbs(Look(s.held, node), items, Look(s'.held, node))
    && forall n :: n != node ==> Look(s'.held, n) == Look(s.held, n)
  }

  function AddedEvents(items: seq<Item>): seq<Hints.Event> {
    if items == [] then [] else AddedEvents(items[..|items| - 1]) + [Hints.Added(items[|items| - 1])]
  }

  ghost predicate Next(c: Cluster, s: State, step: Step, s': State) {
    match step
    case Merge(node, items) =>
      Merged(s, node, items, s') && s' == s.(held := s'.held)
    case NewView(v) =>
      v.epoch > s.newest.epoch && s' == s.(newest := v)
    case Start =>
      && s.base.epoch < s.newest.epoch && s.gen + 1 !in s.runs
      && s' == s.(gen := s.gen + 1, runs := s.runs[s.gen + 1 := RunState(s.base, s.newest, None, {})])
    case Read(g) =>
      && g in s.runs && s.runs[g].siblings.None?
      && s' == s.(runs := s.runs[g := s.runs[g].(siblings := Some(Look(s.held, c.self)))])
    case Push(g, t) =>
      && g in s.runs && s.runs[g].siblings.Some? && t in TargetsOf(c, s.runs[g])
      && Merged(s, t, s.runs[g].siblings.value, s')
      && s' == s.(held := s'.held, runs := s.runs[g := s.runs[g].(done := s.runs[g].done + {t})])
    case StoreHint(g, t) =>
      // Only a node that stays in the view may leave an owner to its hints.
      && g in s.runs && s.runs[g].siblings.Some? && t in TargetsOf(c, s.runs[g])
      && c.self in s.runs[g].target.members
      && var events := EventsFor(s.hints, t) + AddedEvents(s.runs[g].siblings.value);
         s' == s.(hints := s.hints[t := events], runs := s.runs[g := s.runs[g].(done := s.runs[g].done + {t})])
    case AddHint(t, item) =>
      // A hint of some other write, or one of several before storing them all failed.
      s' == s.(hints := s.hints[t := EventsFor(s.hints, t) + [Hints.Added(item)]])
    case MarkDelivered(t, batch, marker) =>
      && CoversAll(Look(s.held, t), batch)
      && s' == s.(hints := s.hints[t := EventsFor(s.hints, t) + [Hints.Delivered(batch, marker)]])
    case Finish(g, persisted) =>
      // A superseded run records nothing: that is Abandon.
      && g in s.runs && g == s.gen
      && (forall t :: t in TargetsOf(c, s.runs[g]) ==> t in s.runs[g].done)
      && s' == s.(base := s.runs[g].target, saved := if persisted then s.runs[g].target else s.saved, runs := s.runs - {g})
    case Abandon(g) =>
      s' == s.(runs := s.runs - {g})
    case Restart =>
      s' == s.(base := s.saved, gen := 0, runs := map[])
  }

  // ---------------------------------------------------------------- the invariant

  // A hint for target that covers x and is still to be delivered.
  ghost predicate HintPending(hints: map<string, seq<Hints.Event>>, target: string, x: Item) {
    exists h :: h in Hints.AddedItems(EventsFor(hints, target)) && Covers(h, x) && !Hints.Retired(h, EventsFor(hints, target))
  }

  // The hint h covers x, and is at or below the join of a delivered batch that does not.
  ghost predicate Masks(h: Item, e: Hints.Event, x: Item) {
    Covers(h, x) && e.Delivered? && Leq(h.clock, UnionClock(e.batch)) && !Covered(x, e.batch)
  }

  // A hint for target that covers x is retired by versions that do not cover it.
  ghost predicate HintMasked(hints: map<string, seq<Hints.Event>>, target: string, x: Item) {
    exists h, e :: h in Hints.AddedItems(EventsFor(hints, target)) && e in EventsFor(hints, target) && Masks(h, e, x)
  }

  // Node o has x, or this node will deliver it, or it would but for a join.
  ghost predicate Placed(c: Cluster, s: State, o: string, x: Item) {
    o == c.self || Covered(x, Look(s.held, o)) || HintPending(s.hints, o, x) || HintMasked(s.hints, o, x)
  }

  ghost predicate PlacedIn(c: Cluster, s: State, v: View, x: Item) {
    forall o :: o in c.owners(v) ==> Placed(c, s, o, x)
  }

  // Whatever a target's hint store counts as delivered, the target holds.
  ghost predicate DeliveredHeld(s: State, t: string) {
    forall e :: e in EventsFor(s.hints, t) && e.Delivered? ==> CoversAll(Look(s.held, t), e.batch)
  }

  // What the current run read is placed at the targets it has dealt with, directly if this node
  // is leaving.
  ghost predicate RunPlaces(c: Cluster, s: State, run: RunState) {
    && (run.siblings.None? ==> run.done == {})
    && (run.siblings.Some? ==> forall t, y :: t in run.done && y in run.siblings.value ==> Placed(c, s, t, y))
    && (run.siblings.Some? && c.self !in run.target.members ==>
          forall t :: t in run.done ==> CoversAll(Look(s.held, t), run.siblings.value))
  }

  // The invariant that speaks of no version in particular. Only the current run can complete.
  ghost predicate Inv(c: Cluster, s: State) {
    && (forall t :: DeliveredHeld(s, t))
    && (s.gen in s.runs ==> s.runs[s.gen].base == s.base && RunPlaces(c, s, s.runs[s.gen]))
  }

  // What a run has read does not miss x.
  ghost predicate ReadCovers(run: RunState, x: Item) {
    run.siblings.Some? ==> Covered(x, run.siblings.value)
  }

  // This node holds x, which is placed in its base and in the one on disk; the current run has
  // read nothing yet, or something that covers x, or x is placed in its target too, as it is for
  // a write that came later and went to the owners there.
  ghost predicate Arrived(c: Cluster, s: State, x: Item) {
    && Covered(x, Look(s.held, c.self))
    && PlacedIn(c, s, s.base, x) && PlacedIn(c, s, s.saved, x)
    && (s.gen in s.runs ==> ReadCovers(s.runs[s.gen], x) || PlacedIn(c, s, s.runs[s.gen].target, x))
  }

  // The current run, if there is one, does not miss x.
  ghost predicate CurrentCovers(s: State, x: Item) {
    s.gen in s.runs ==> ReadCovers(s.runs[s.gen], x)
  }

  // ---------------------------------------------------------------- what never goes back

  // Nothing placed or held is lost from s to s'.
  ghost predicate Grows(c: Cluster, s: State, s': State, x: Item) {
    && (forall o :: Placed(c, s, o, x) ==> Placed(c, s', o, x))
    && (forall o :: Covered(x, Look(s.held, o)) ==> Covered(x, Look(s'.held, o)))
  }

  lemma GrowsKeepsPlaced(c: Cluster, s: State, s': State, v: View, x: Item)
    requires Grows(c, s, s', x) && PlacedIn(c, s, v, x)
    ensures PlacedIn(c, s', v, x)
  {
  }

  lemma GrowsKeepsArrived(c: Cluster, s: State, s': State, x: Item)
    requires Grows(c, s, s', x) && Arrived(c, s, x) && s'.base == s.base && s'.saved == s.saved && s'.gen == s.gen
    requires s.gen in s'.runs ==>
               && s.gen in s.runs && s'.runs[s.gen].target == s.runs[s.gen].target
               && (ReadCovers(s.runs[s.gen], x) ==> ReadCovers(s'.runs[s.gen], x))
    ensures Arrived(c, s', x)
  {
    GrowsKeepsPlaced(c, s, s', s.base, x);
    GrowsKeepsPlaced(c, s, s', s.saved, x);
    if s.gen in s'.runs && !ReadCovers(s.runs[s.gen], x) { GrowsKeepsPlaced(c, s, s', s.runs[s.gen].target, x); }
  }

  lemma GrowsKeepsRun(c: Cluster, s: State, s': State, run: RunState)
    requires (forall y :: Grows(c, s, s', y)) && RunPlaces(c, s, run)
    ensures RunPlaces(c, s', run)
  {
    if run.siblings.Some? {
      forall t, y | t in run.done && y in run.siblings.value ensures Placed(c, s', t, y) {
        assert Grows(c, s, s', y);
      }
      if c.self !in run.target.members {
        forall t, y | t in run.done && y in run.siblings.value ensures Covered(y, Look(s'.held, t)) {
          assert Grows(c, s, s', y) && CoversAll(Look(s.held, t), run.siblings.value);
        }
      }
    }
  }

  // A step that loses nothing and leaves base and current run alone keeps the invariant.
  lemma GrowsKeepsInv(c: Cluster, s: State, s': State)
    requires Inv(c, s) && (forall y :: Grows(c, s, s', y)) && (forall t :: DeliveredHeld(s', t))
    requires s'.base == s.base && s'.gen == s.gen
    requires s.gen in s'.runs ==> s.gen in s.runs && s'.runs[s.gen] == s.runs[s.gen]
    ensures Inv(c, s')
  {
    if s.gen in s'.runs { GrowsKeepsRun(c, s, s', s.runs[s.gen]); }
  }

  // What places a version places all that it covers: a join that loses the one but not the other
  // has delivered the other.
  lemma PlacedBelow(c: Cluster, s: State, o: string, y: Item, x: Item)
    requires Placed(c, s, o, y) && Covers(y, x) && DeliveredHeld(s, o)
    ensures Placed(c, s, o, x)
  {
    var events := EventsFor(s.hints, o);
    if Covered(y, Look(s.held, o)) {
      CoveredMonotone(x, y, Look(s.held, o));
    } else if HintPending(s.hints, o, y) {
      var h :| h in Hints.AddedItems(events) && Covers(h, y) && !Hints.Retired(h, events);
      assert Covers(h, x);
    } else if HintMasked(s.hints, o, y) {
      var h, e :| h in Hints.AddedItems(events) && e in events && Masks(h, e, y);
      assert Covers(h, x);
      RetiredIsHeldOrMasked(Look(s.held, o), e, h, x);
    }
  }

  // ---------------------------------------------------------------- merging

  lemma AbsorbedStays(before: seq<Item>, items: seq<Item>, after: seq<Item>, x: Item)
    requires AntiEntropy.Absorbs(before, items, after) && Covered(x, before)
    ensures Covered(x, after)
  {
    var y :| y in before && Covers(y, x);
    assert y in before + items;
    CoveredMonotone(x, y, after);
  }

  lemma AbsorbedCovers(before: seq<Item>, items: seq<Item>, after: seq<Item>, x: Item)
    requires AntiEntropy.Absorbs(before, items, after) && Covered(x, items)
    ensures Covered(x, after)
  {
    var y :| y in items && Covers(y, x);
    assert y in before + items;
    CoveredMonotone(x, y, after);
  }

  lemma MergeGrows(c: Cluster, s: State, node: string, items: seq<Item>, s': State, x: Item)
    requires Merged(s, node, items, s') && s'.hints == s.hints
    ensures Grows(c, s, s', x)
  {
    if Covered(x, Look(s.held, node)) { AbsorbedStays(Look(s.held, node), items, Look(s'.held, node), x); }
  }

  lemma MergeKeepsDelivered(s: State, node: string, items: seq<Item>, s': State, t: string)
    requires Merged(s, node, items, s') && s'.hints == s.hints && DeliveredHeld(s, t)
    ensures DeliveredHeld(s', t)
  {
    forall e | e in EventsFor(s.hints, t) && e.Delivered? ensures CoversAll(Look(s'.held, t), e.batch) {
      forall y | y in e.batch ensures Covered(y, Look(s'.held, t)) {
        if t == node { AbsorbedStays(Look(s.held, t), items, Look(s'.held, t), y); }
      }
    }
  }

  lemma MergeKeeps(c: Cluster, s: State, node: string, items: seq<Item>, s': State)
    requires Inv(c, s) && Merged(s, node, items, s') && s' == s.(held := s'.held)
    ensures Inv(c, s')
  {
    forall y ensures Grows(c, s, s', y) { MergeGrows(c, s, node, items, s', y); }
    forall t ensures DeliveredHeld(s', t) { MergeKeepsDelivered(s, node, items, s', t); }
    GrowsKeepsInv(c, s, s');
  }

  // ---------------------------------------------------------------- hints

  lemma {:induction false} AddedEventsFacts(items: seq<Item>)
    ensures forall e :: e in AddedEvents(items) <==> e.Added? && e.item in items
  {
    if items != [] {
      AddedEventsFacts(items[..|items| - 1]);
      assert items == items[..|items| - 1] + [items[|items| - 1]];
    }
  }

  // Adding hints retires none.
  lemma AddingRetiresNone(events: seq<Hints.Event>, more: seq<Hints.Event>, h: Item)
    requires forall e :: e in more ==> e.Added?
    ensures Hints.Retired(h, events + more) <==> Hints.Retired(h, events)
    ensures h in Hints.AddedItems(events) ==> h in Hints.AddedItems(events + more)
    ensures Hints.Added(h) in more ==> h in Hints.AddedItems(events + more)
  {
    Hints.WrittenMembers(events);
    Hints.WrittenMembers(events + more);
    if Hints.Retired(h, events) {
      var e :| e in events && e.Delivered? && Leq(h.clock, UnionClock(e.batch));
      assert e in events + more;
    }
  }

  // What masks a hint goes on masking it.
  lemma MaskStays(hints: map<string, seq<Hints.Event>>, t: string, more: seq<Hints.Event>, x: Item)
    requires HintMasked(hints, t, x)
    ensures HintMasked(hints[t := EventsFor(hints, t) + more], t, x)
  {
    var before, hints' := EventsFor(hints, t), hints[t := EventsFor(hints, t) + more];
    var h, e :| h in Hints.AddedItems(before) && e in before && Masks(h, e, x);
    Hints.WrittenMembers(before);
    Hints.WrittenMembers(before + more);
    assert EventsFor(hints', t) == before + more && Hints.Added(h) in before + more && e in before + more;
  }

  lemma AddHintsGrows(c: Cluster, s: State, t: string, more: seq<Hints.Event>, s': State, x: Item)
    requires (forall e :: e in more ==> e.Added?) && s'.held == s.held
    requires s'.hints == s.hints[t := EventsFor(s.hints, t) + more]
    ensures Grows(c, s, s', x)
  {
    if HintPending(s.hints, t, x) {
      var h :| h in Hints.AddedItems(EventsFor(s.hints, t)) && Covers(h, x) && !Hints.Retired(h, EventsFor(s.hints, t));
      AddingRetiresNone(EventsFor(s.hints, t), more, h);
      assert HintPending(s'.hints, t, x);
    }
    if HintMasked(s.hints, t, x) { MaskStays(s.hints, t, more, x); }
    OthersKeepPlaced(c, s, t, s', x);
  }

  lemma OthersKeepPlaced(c: Cluster, s: State, t: string, s': State, x: Item)
    requires s'.held == s.held && t in s'.hints && s'.hints == s.hints[t := s'.hints[t]]
    requires Placed(c, s, t, x) ==> Placed(c, s', t, x)
    ensures Grows(c, s, s', x)
  {
    forall o | Placed(c, s, o, x) ensures Placed(c, s', o, x) {
      if o != t { assert EventsFor(s'.hints, o) == EventsFor(s.hints, o); }
    }
  }

  lemma AddHintsKeepsDelivered(s: State, t: string, more: seq<Hints.Event>, s': State, u: string)
    requires (forall e :: e in more ==> e.Added?) && s'.held == s.held
    requires s'.hints == s.hints[t := EventsFor(s.hints, t) + more] && DeliveredHeld(s, u)
    ensures DeliveredHeld(s', u)
  {
    if u == t {
      forall e | e in EventsFor(s'.hints, t) && e.Delivered? ensures CoversAll(Look(s'.held, t), e.batch) {
        assert e in EventsFor(s.hints, t);
      }
    } else {
      assert EventsFor(s'.hints, u) == EventsFor(s.hints, u);
    }
  }

  // A stored hint places x at its target, even if an earlier delivery already retires it.
  lemma HintPlaces(c: Cluster, s: State, t: string, siblings: seq<Item>, s': State, x: Item)
    requires DeliveredHeld(s, t) && Covered(x, siblings) && s'.held == s.held
    requires s'.hints == s.hints[t := EventsFor(s.hints, t) + AddedEvents(siblings)]
    ensures Placed(c, s', t, x)
  {
    var events, more := EventsFor(s.hints, t), AddedEvents(siblings);
    AddedEventsFacts(siblings);
    var h :| h in siblings && Covers(h, x);
    assert Hints.Added(h) in more;
    AddingRetiresNone(events, more, h);
    if Hints.Retired(h, events) {
      var e :| e in events && e.Delivered? && Leq(h.clock, UnionClock(e.batch));
      RetiredIsHeldOrMasked(Look(s.held, t), e, h, x);
      assert e in EventsFor(s'.hints, t);
    } else {
      assert HintPending(s'.hints, t, x);
    }
  }

  // What is retired is held, if the batch that retires it covers it.
  lemma RetiredIsHeldOrMasked(held: seq<Item>, e: Hints.Event, h: Item, x: Item)
    requires e.Delivered? && CoversAll(held, e.batch) && Leq(h.clock, UnionClock(e.batch)) && Covers(h, x)
    ensures Covered(x, held) || Masks(h, e, x)
  {
    if Covered(x, e.batch) {
      var y :| y in e.batch && Covers(y, x);
      CoveredMonotone(x, y, held);
    }
  }

  lemma MarkGrows(c: Cluster, s: State, t: string, batch: seq<Item>, marker: Item, s': State, x: Item)
    requires s'.held == s.held && CoversAll(Look(s.held, t), batch)
    requires s'.hints == s.hints[t := EventsFor(s.hints, t) + [Hints.Delivered(batch, marker)]]
    ensures Grows(c, s, s', x)
  {
    var before, e := EventsFor(s.hints, t), Hints.Delivered(batch, marker);
    var after := before + [e];
    if HintPending(s.hints, t, x) {
      var h :| h in Hints.AddedItems(before) && Covers(h, x) && !Hints.Retired(h, before);
      assert (before + [e])[..|before|] == before;
      assert h in Hints.AddedItems(after);
      if Hints.Retired(h, after) {
        assert e in after && Leq(h.clock, UnionClock(batch));
        RetiredIsHeldOrMasked(Look(s.held, t), e, h, x);
      } else {
        assert HintPending(s'.hints, t, x);
      }
    }
    if HintMasked(s.hints, t, x) { MaskStays(s.hints, t, [e], x); }
    OthersKeepPlaced(c, s, t, s', x);
  }

  lemma MarkKeeps(c: Cluster, s: State, t: string, batch: seq<Item>, marker: Item, s': State)
    requires Inv(c, s) && Next(c, s, MarkDelivered(t, batch, marker), s')
    ensures Inv(c, s')
  {
    forall y ensures Grows(c, s, s', y) { MarkGrows(c, s, t, batch, marker, s', y); }
    forall u ensures DeliveredHeld(s', u) {
      assert DeliveredHeld(s, u);
      if u != t { assert EventsFor(s'.hints, u) == EventsFor(s.hints, u); }
    }
    GrowsKeepsInv(c, s, s');
  }

  lemma AddHintKeeps(c: Cluster, s: State, t: string, item: Item, s': State)
    requires Inv(c, s) && Next(c, s, AddHint(t, item), s')
    ensures Inv(c, s')
  {
    forall y ensures Grows(c, s, s', y) { AddHintsGrows(c, s, t, [Hints.Added(item)], s', y); }
    forall u ensures DeliveredHeld(s', u) {
      assert DeliveredHeld(s, u);
      AddHintsKeepsDelivered(s, t, [Hints.Added(item)], s', u);
    }
    GrowsKeepsInv(c, s, s');
  }

  // ---------------------------------------------------------------- runs

  lemma PushKeeps(c: Cluster, s: State, g: nat, t: string, s': State)
    requires Inv(c, s) && Next(c, s, Push(g, t), s')
    ensures Inv(c, s')
  {
    var items := s.runs[g].siblings.value;
    forall y ensures Grows(c, s, s', y) { MergeGrows(c, s, t, items, s', y); }
    forall u ensures DeliveredHeld(s', u) {
      assert DeliveredHeld(s, u);
      MergeKeepsDelivered(s, t, items, s', u);
    }
    if s.gen in s.runs {
      GrowsKeepsRun(c, s, s', s.runs[s.gen]);
      if g == s.gen {
        forall y | y in items ensures Covered(y, Look(s'.held, t)) {
          assert Covers(y, y);
          AbsorbedCovers(Look(s.held, t), items, Look(s'.held, t), y);
        }
      }
    }
  }

  lemma StoreHintKeeps(c: Cluster, s: State, g: nat, t: string, s': State)
    requires Inv(c, s) && Next(c, s, StoreHint(g, t), s')
    ensures Inv(c, s')
  {
    var items := s.runs[g].siblings.value;
    var more := AddedEvents(items);
    AddedEventsFacts(items);
    forall y ensures Grows(c, s, s', y) { AddHintsGrows(c, s, t, more, s', y); }
    forall u ensures DeliveredHeld(s', u) {
      assert DeliveredHeld(s, u);
      AddHintsKeepsDelivered(s, t, more, s', u);
    }
    if s.gen in s.runs {
      GrowsKeepsRun(c, s, s', s.runs[s.gen]);
      if g == s.gen {
        forall y | y in items ensures Placed(c, s', t, y) {
          assert Covers(y, y) && DeliveredHeld(s, t);
          HintPlaces(c, s, t, items, s', y);
        }
      }
    }
  }

  // A completed run has placed its target view: its owners were owners before, or were pushed.
  lemma CompletedIsPlaced(c: Cluster, s: State, x: Item)
    requires Inv(c, s) && Arrived(c, s, x) && s.gen in s.runs
    requires forall t :: t in TargetsOf(c, s.runs[s.gen]) ==> t in s.runs[s.gen].done
    ensures PlacedIn(c, s, s.runs[s.gen].target, x)
  {
    var run := s.runs[s.gen];
    forall o | ReadCovers(run, x) && o in c.owners(run.target) ensures Placed(c, s, o, x) {
      EveryNewOwnerIsReached(c.self, c.owners(run.base), c.owners(run.target), o);
      if o in TargetsOf(c, run) {
        assert o in run.done && run.siblings.Some?;
        var y :| y in run.siblings.value && Covers(y, x);
        assert DeliveredHeld(s, o);
        PlacedBelow(c, s, o, y, x);
      }
    }
  }

  lemma SamePlaces(c: Cluster, s: State, s': State, x: Item)
    requires s'.held == s.held && s'.hints == s.hints
    ensures Grows(c, s, s', x)
  {
  }

  // Steps that touch neither versions nor hints nor, if it stays, the current run's progress.
  lemma QuietKeeps(c: Cluster, s: State, s': State)
    requires Inv(c, s) && s'.held == s.held && s'.hints == s.hints
    requires s'.gen in s'.runs ==> s'.runs[s'.gen].base == s'.base && RunPlaces(c, s, s'.runs[s'.gen])
    ensures Inv(c, s')
  {
    forall y ensures Grows(c, s, s', y) { SamePlaces(c, s, s', y); }
    forall t ensures DeliveredHeld(s', t) { assert DeliveredHeld(s, t); }
    if s'.gen in s'.runs { GrowsKeepsRun(c, s, s', s'.runs[s'.gen]); }
  }

  lemma StepKeeps(c: Cluster, s: State, step: Step, s': State)
    requires Inv(c, s) && Next(c, s, step, s')
    ensures Inv(c, s')
  {
    match step
    case Merge(node, items) => MergeKeeps(c, s, node, items, s');
    case NewView(v) => QuietKeeps(c, s, s');
    case Start => QuietKeeps(c, s, s');
    case Read(g) => QuietKeeps(c, s, s');
    case Push(g, t) => PushKeeps(c, s, g, t, s');
    case StoreHint(g, t) => StoreHintKeeps(c, s, g, t, s');
    case AddHint(t, item) => AddHintKeeps(c, s, t, item, s');
    case MarkDelivered(t, batch, marker) => MarkKeeps(c, s, t, batch, marker, s');
    case Finish(g, persisted) => QuietKeeps(c, s, s');
    case Abandon(g) => QuietKeeps(c, s, s');
    case Restart => QuietKeeps(c, s, s');
  }

  // ---------------------------------------------------------------- a version that has arrived

  // No step loses a version, wherever it is.
  lemma StepGrows(c: Cluster, s: State, step: Step, s': State, x: Item)
    requires Next(c, s, step, s')
    ensures Grows(c, s, s', x)
  {
    match step
    case Merge(node, items) => MergeGrows(c, s, node, items, s', x);
    case Push(g, t) => MergeGrows(c, s, t, s.runs[g].siblings.value, s', x);
    case StoreHint(g, t) =>
      AddedEventsFacts(s.runs[g].siblings.value);
      AddHintsGrows(c, s, t, AddedEvents(s.runs[g].siblings.value), s', x);
    case AddHint(t, item) => AddHintsGrows(c, s, t, [Hints.Added(item)], s', x);
    case MarkDelivered(t, batch, marker) => MarkGrows(c, s, t, batch, marker, s', x);
    case _ => SamePlaces(c, s, s', x);
  }

  lemma FinishKeepsArrived(c: Cluster, s: State, g: nat, persisted: bool, s': State, x: Item)
    requires Inv(c, s) && Arrived(c, s, x) && Next(c, s, Finish(g, persisted), s')
    ensures Arrived(c, s', x)
  {
    CompletedIsPlaced(c, s, x);
    SamePlaces(c, s, s', x);
    GrowsKeepsPlaced(c, s, s', s.runs[g].target, x);
    GrowsKeepsPlaced(c, s, s', s.saved, x);
  }

  lemma StepKeepsArrived(c: Cluster, s: State, step: Step, s': State, x: Item)
    requires Inv(c, s) && Arrived(c, s, x) && Next(c, s, step, s')
    ensures Arrived(c, s', x)
  {
    StepGrows(c, s, step, s', x);
    match step
    case Finish(g, persisted) => FinishKeepsArrived(c, s, g, persisted, s', x);
    case Start =>
      GrowsKeepsPlaced(c, s, s', s.base, x);
      GrowsKeepsPlaced(c, s, s', s.saved, x);
    case Restart => GrowsKeepsPlaced(c, s, s', s.saved, x);
    case _ => GrowsKeepsArrived(c, s, s', x);
  }

  lemma StepKeepsCurrent(c: Cluster, s: State, step: Step, s': State, x: Item)
    requires Arrived(c, s, x) && CurrentCovers(s, x) && Next(c, s, step, s')
    ensures CurrentCovers(s', x)
  {
  }

  // ---------------------------------------------------------------- whole runs

  ghost predicate StepAt(c: Cluster, states: seq<State>, steps: seq<Step>, i: nat)
    requires i < |steps| < |states|
  {
    Next(c, states[i], steps[i], states[i + 1])
  }

  ghost predicate Steps(c: Cluster, states: seq<State>, steps: seq<Step>) {
    |states| == |steps| + 1 && forall i: nat :: i < |steps| ==> StepAt(c, states, steps, i)
  }

  // Where a node begins: no run, and no hints.
  ghost predicate Genesis(s: State) {
    s.runs == map[] && s.hints == map[]
  }

  lemma {:induction false} RunKeeps(c: Cluster, states: seq<State>, steps: seq<Step>, i: nat)
    requires Steps(c, states, steps) && i < |states| && Genesis(states[0])
    ensures Inv(c, states[i])
  {
    if i == 0 {
      forall t ensures DeliveredHeld(states[0], t) { assert EventsFor(states[0].hints, t) == []; }
    } else {
      RunKeeps(c, states, steps, i - 1);
      assert StepAt(c, states, steps, i - 1);
      StepKeeps(c, states[i - 1], steps[i - 1], states[i]);
    }
  }

  lemma {:induction false} RunKeepsArrived(c: Cluster, states: seq<State>, steps: seq<Step>, i: nat, j: nat, x: Item)
    requires Steps(c, states, steps) && i <= j < |states| && Genesis(states[0]) && Arrived(c, states[i], x)
    ensures Arrived(c, states[j], x)
    decreases j
  {
    if i < j {
      RunKeepsArrived(c, states, steps, i, j - 1, x);
      RunKeeps(c, states, steps, j - 1);
      assert StepAt(c, states, steps, j - 1);
      StepKeepsArrived(c, states[j - 1], steps[j - 1], states[j], x);
    }
  }

  lemma {:induction false} RunKeepsCurrent(c: Cluster, states: seq<State>, steps: seq<Step>, i: nat, j: nat, x: Item)
    requires Steps(c, states, steps) && i <= j < |states| && Genesis(states[0])
    requires Arrived(c, states[i], x) && CurrentCovers(states[i], x)
    ensures CurrentCovers(states[j], x)
    decreases j
  {
    if i < j {
      RunKeepsCurrent(c, states, steps, i, j - 1, x);
      RunKeepsArrived(c, states, steps, i, j - 1, x);
      assert StepAt(c, states, steps, j - 1);
      StepKeepsCurrent(c, states[j - 1], steps[j - 1], states[j], x);
    }
  }

  /** The handoff invariant: once x has arrived, at whatever point of a run, then through any
      chain of completed, canceled and superseded runs, view changes, hint deliveries and
      restarts every owner in the node's base view has x, or this node has a hint for it pending,
      or a hint for it is at or below the join of a batch delivered to that owner which does not
      cover x. */
  lemma BaseIsAlwaysPlaced(c: Cluster, states: seq<State>, steps: seq<Step>, i: nat, j: nat, x: Item, o: string)
    requires Steps(c, states, steps) && i <= j < |states| && Genesis(states[0]) && Arrived(c, states[i], x)
    requires o in c.owners(states[j].base)
    ensures Covered(x, Look(states[j].held, o)) || HintPending(states[j].hints, o, x) || HintMasked(states[j].hints, o, x)
  {
    RunKeepsArrived(c, states, steps, i, j, x);
    assert Placed(c, states[j], o, x);
  }

  // Every hint has an event of its own: what counts it has seen the hint.
  ghost predicate AllDotted(events: seq<Hints.Event>) {
    forall h, e :: h in Hints.AddedItems(events) && e in events && e.Delivered? ==> Hints.Dotted(h, e.batch)
  }

  /** With clocks in which every write counts an event of its own, the third case never arises. */
  lemma DottedBaseIsPlaced(c: Cluster, states: seq<State>, steps: seq<Step>, i: nat, j: nat, x: Item, o: string)
    requires Steps(c, states, steps) && i <= j < |states| && Genesis(states[0]) && Arrived(c, states[i], x)
    requires o in c.owners(states[j].base) && AllDotted(EventsFor(states[j].hints, o))
    ensures Covered(x, Look(states[j].held, o)) || HintPending(states[j].hints, o, x)
  {
    BaseIsAlwaysPlaced(c, states, steps, i, j, x, o);
    var events := EventsFor(states[j].hints, o);
    forall h, e | h in Hints.AddedItems(events) && e in events ensures !Masks(h, e, x) {
      if Masks(h, e, x) {
        Hints.JoinCoversOnlyDelivered(h, e.batch);
        CoveredMonotone(x, h, e.batch);
      }
    }
  }

  /** A node outside the view it hands off to completes only with direct pushes: every owner in
      that view then holds x itself, from any point on at which the run under way, if there is one,
      has not read without it. */
  lemma LeavingNodePushesDirectly(c: Cluster, states: seq<State>, steps: seq<Step>, i: nat, j: nat, x: Item, o: string)
    requires Steps(c, states, steps) && i <= j < |steps| && Genesis(states[0])
    requires Arrived(c, states[i], x) && CurrentCovers(states[i], x)
    requires forall v, m :: m in c.owners(v) ==> m in v.members
    requires steps[j].Finish? && steps[j].run in states[j].runs
    requires c.self !in states[j].runs[steps[j].run].target.members
    requires o in c.owners(states[j + 1].base)
    ensures Covered(x, Look(states[j + 1].held, o))
  {
    RunKeeps(c, states, steps, j);
    RunKeepsCurrent(c, states, steps, i, j, x);
    assert StepAt(c, states, steps, j);
    var s, run := states[j], states[j].runs[steps[j].run];
    EveryNewOwnerIsReached(c.self, c.owners(run.base), c.owners(run.target), o);
    assert o in run.done && run.siblings.Some?;
    var y :| y in run.siblings.value && Covers(y, x);
    assert CoversAll(Look(s.held, o), run.siblings.value);
    CoveredMonotone(x, y, Look(s.held, o));
  }

  // ---------------------------------------------------------------- what a restart resumes from

  // The target of the last run to have completed with its base written to disk.
  ghost function LastSaved(states: seq<State>, steps: seq<Step>, i: nat): View
    requires i <= |steps| < |states|
  {
    if i == 0 then states[0].saved
    else if steps[i - 1].Finish? && steps[i - 1].persisted && steps[i - 1].run in states[i - 1].runs then
      states[i - 1].runs[steps[i - 1].run].target
    else LastSaved(states, steps, i - 1)
  }

  // The target of the last run to have completed since the last restart, or what that resumed from.
  ghost function LastCompleted(states: seq<State>, steps: seq<Step>, i: nat): View
    requires i <= |steps| < |states|
  {
    if i == 0 then states[0].base
    else if steps[i - 1].Restart? then LastSaved(states, steps, i - 1)
    else if steps[i - 1].Finish? && steps[i - 1].run in states[i - 1].runs then states[i - 1].runs[steps[i - 1].run].target
    else LastCompleted(states, steps, i - 1)
  }

  /** In every run the base is the view whose handoff last completed, and after a restart the one
      last written to disk. */
  lemma {:induction false} BaseIsLastCompleted(c: Cluster, states: seq<State>, steps: seq<Step>, i: nat)
    requires Steps(c, states, steps) && i <= |steps|
    ensures states[i].saved == LastSaved(states, steps, i) && states[i].base == LastCompleted(states, steps, i)
  {
    if i > 0 {
      BaseIsLastCompleted(c, states, steps, i - 1);
      assert StepAt(c, states, steps, i - 1);
    }
  }

  // ---------------------------------------------------------------- views only advance

  // Every run leads to a newer view than it starts from, and none to one not yet seen.
  ghost predicate Forward(s: State) {
    && s.base.epoch <= s.newest.epoch && s.saved.epoch <= s.newest.epoch
    && forall g :: g in s.runs ==> s.runs[g].base.epoch < s.runs[g].target.epoch <= s.newest.epoch
  }

  /** In every run of a node that starts at or below the newest view: newer views replace older
      ones only, and a handoff always leads from an older view to a newer one. */
  lemma {:induction false} ViewsOnlyAdvance(c: Cluster, states: seq<State>, steps: seq<Step>, i: nat)
    requires Steps(c, states, steps) && i <= |steps| && Forward(states[0])
    ensures Forward(states[i]) && states[0].newest.epoch <= states[i].newest.epoch
  {
    if i > 0 {
      ViewsOnlyAdvance(c, states, steps, i - 1);
      assert StepAt(c, states, steps, i - 1);
      StepAdvances(c, states[i - 1], steps[i - 1], states[i]);
    }
  }

  lemma StepAdvances(c: Cluster, s: State, step: Step, s': State)
    requires Forward(s) && Next(c, s, step, s')
    ensures Forward(s') && s.newest.epoch <= s'.newest.epoch
  {
  }
}
