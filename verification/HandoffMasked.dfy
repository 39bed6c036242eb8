/**
 A run of handoffs after which an owner lacks a version and nothing is left that would deliver
 it: a hint retired by the join of two versions neither of which covers it.
 */
module HandoffMasked {
  import opened Wrappers
  import opened Clocks
  import opened Versions
  import opened Layers
  import opened Handoff
  import AntiEntropy
  import Hints

  const SELF := "s"
  const OTHER := "t"

  const FROM_P := Hints.FROM_P
  const FROM_Q := Hints.FROM_Q
  const FROM_BOTH := Hints.FROM_BOTH
  const MARKER := Item(3, FROM_BOTH.clock[Hints.DELIVERED := 1], "", Hints.DELIVERED, true)

  const ALONE := View(0, {SELF})
  const BOTH := View(1, {SELF, OTHER})

  function Two(): Cluster {
    Cluster(SELF, (v: View) => if v == BOTH then [SELF, OTHER] else [SELF])
  }

  // ---------------------------------------------------------------- the versions

  lemma Apart()
    ensures !Covers(FROM_P, FROM_Q) && !Covers(FROM_Q, FROM_P)
  {
    assert "p" in FROM_P.clock && FROM_P.clock["p"] > At(FROM_Q.clock, "p");
    assert "q" in FROM_Q.clock && FROM_Q.clock["q"] > At(FROM_P.clock, "q");
  }

  lemma NeitherCovers()
    ensures !Covered(FROM_BOTH, [FROM_P, FROM_Q])
  {
    Hints.OnlyTheJoinCovers();
  }

  lemma BothAbsorbed()
    ensures AntiEntropy.Absorbs([], [FROM_P, FROM_Q], [FROM_P, FROM_Q])
    ensures CoversAll([FROM_P, FROM_Q], [FROM_P, FROM_Q])
  {
    var both := [FROM_P, FROM_Q];
    Apart();
    assert Antichain(both);
    assert [] + both == both;
    forall y | y in both ensures Covered(y, both) { assert Covers(y, y); }
  }

  lemma FirstAbsorbed()
    ensures AntiEntropy.Absorbs([], [FROM_BOTH], [FROM_BOTH])
  {
    assert [] + [FROM_BOTH] == [FROM_BOTH];
    assert Covers(FROM_BOTH, FROM_BOTH);
  }

  // The node that holds the write after both has no use for the others.
  lemma AlreadyCovered(y: Item)
    requires y == FROM_P || y == FROM_Q
    ensures AntiEntropy.Absorbs([FROM_BOTH], [y], [FROM_BOTH])
  {
    assert [FROM_BOTH] + [y] == [FROM_BOTH, y];
    assert Covers(FROM_BOTH, FROM_BOTH) && Covers(FROM_BOTH, y);
  }

  lemma JoinIsBoth(join: Clock)
    requires join == UnionClock([FROM_P, FROM_Q])
    ensures Leq(join, FROM_BOTH.clock) && Leq(FROM_BOTH.clock, join)
  {
    Hints.OnlyTheJoinCovers();
    UnionClockIsLeast([FROM_P, FROM_Q], FROM_BOTH.clock);
  }

  lemma MarkerIsProper()
    ensures Hints.Proper(Hints.Delivered([FROM_P, FROM_Q], MARKER))
  {
    var join := UnionClock([FROM_P, FROM_Q]);
    JoinIsBoth(join);
    MarksClock(join, FROM_BOTH.clock);
  }

  lemma MarksClock(join: Clock, clock: Clock)
    requires Leq(join, clock) && Leq(clock, join)
    ensures Hints.IsMarkerOf(clock[Hints.DELIVERED := 1], join)
  {
    LeqIsPointwise(join, clock);
    LeqIsPointwise(clock, join);
  }

  // ---------------------------------------------------------------- the states

  const E1: seq<Hints.Event> := [Hints.Added(FROM_P)]
  const E2: seq<Hints.Event> := E1 + [Hints.Added(FROM_Q)]
  const E3: seq<Hints.Event> := E2 + [Hints.Delivered([FROM_P, FROM_Q], MARKER)]
  const E4: seq<Hints.Event> := E3 + AddedEvents([FROM_BOTH])

  const S0 := State(ALONE, ALONE, 0, map[], ALONE, map[], map[])
  const S1 := S0.(held := S0.held[SELF := [FROM_BOTH]])
  const S2 := S1.(newest := BOTH)
  const S3 := S2.(gen := 1, runs := S2.runs[1 := RunState(ALONE, BOTH, None, {})])
  const S4 := S3.(hints := S3.hints[OTHER := E1])
  const S5 := S4.(hints := S4.hints[OTHER := E2])
  const S6 := S5.(held := S5.held[OTHER := [FROM_P, FROM_Q]])
  const S7 := S6.(hints := S6.hints[OTHER := E3])
  const S8 := S7.(runs := S7.runs[1 := RunState(ALONE, BOTH, Some([FROM_BOTH]), {})])
  const S9 := S8.(hints := S8.hints[OTHER := E4], runs := S8.runs[1 := RunState(ALONE, BOTH, Some([FROM_BOTH]), {} + {OTHER})])
  const S10 := S9.(base := BOTH, saved := BOTH, runs := S9.runs - {1})

  // The node writes version y, after a context of its client.
  ghost predicate Writes(step: Step, y: Item) {
    step == Merge(SELF, [y]) && exists context :: y.clock == BuildFromContext(context, SELF)
  }

  // What the code takes care of around a step: a hint is of the write just made, for a member of
  // the newest view; a batch is marked as delivered right after a member of the newest view took
  // it, with the marker that the hint store writes.
  ghost predicate AsCoded(s: State, steps: seq<Step>, step: Step) {
    match step
    case AddHint(t, item) =>
      t in s.newest.members && |steps| > 0 && Writes(steps[|steps| - 1], item)
    case MarkDelivered(t, batch, marker) =>
      t in s.newest.members && |steps| > 0 && steps[|steps| - 1] == Merge(t, batch)
      && Hints.Proper(Hints.Delivered(batch, marker))
    case _ => true
  }

  ghost predicate AllAsCoded(states: seq<State>, steps: seq<Step>) {
    && |states| == |steps| + 1
    && forall i: nat {:trigger steps[i]} :: i < |steps| ==> AsCoded(states[i], steps[..i], steps[i])
  }

  ghost predicate Reached(states: seq<State>, steps: seq<Step>, s: State) {
    && Steps(Two(), states, steps) && AllAsCoded(states, steps)
    && |steps| > 0 && states[0] == S0 && states[1] == S1 && states[|steps|] == s
  }

  lemma Extend(states: seq<State>, steps: seq<Step>, s: State, step: Step, s': State)
    requires Reached(states, steps, s) && Next(Two(), s, step, s') && AsCoded(s, steps, step)
    ensures Reached(states + [s'], steps + [step], s')
  {
    var more, more' := states + [s'], steps + [step];
    forall i: nat | i < |more'| ensures StepAt(Two(), more, more', i) && AsCoded(more[i], more'[..i], more'[i]) {
      if i < |steps| {
        assert StepAt(Two(), states, steps, i) && more[i] == states[i] && more[i + 1] == states[i + 1];
        assert AsCoded(states[i], steps[..i], steps[i]) && more'[i] == steps[i] && more'[..i] == steps[..i];
      } else {
        assert more'[..i] == steps;
      }
    }
  }

  lemma WritesBoth()
    ensures Writes(Merge(SELF, [FROM_P]), FROM_P) && Writes(Merge(SELF, [FROM_Q]), FROM_Q)
    ensures Writes(Merge(SELF, [FROM_BOTH]), FROM_BOTH)
  {
    assert FROM_P.clock == BuildFromContext(map["p" := 1], SELF);
    assert FROM_Q.clock == BuildFromContext(map["q" := 1], SELF);
    assert FROM_BOTH.clock == BuildFromContext(map["p" := 1, "q" := 1], SELF);
  }

  // The node writes x alone; then another node joins the view, and a handoff to it starts.
  lemma Begins() returns (states: seq<State>, steps: seq<Step>)
    ensures Reached(states, steps, S3) && Writes(steps[0], FROM_BOTH)
  {
    FirstAbsorbed();
    WritesBoth();
    states, steps := [S0, S1], [Merge(SELF, [FROM_BOTH])];
    assert Next(Two(), S0, Merge(SELF, [FROM_BOTH]), S1);
    forall i: nat | i < 1 ensures StepAt(Two(), states, steps, i) && AsCoded(states[i], steps[..i], steps[i]) {}
    Extend(states, steps, S1, NewView(BOTH), S2);
    states, steps := states + [S2], steps + [NewView(BOTH)];
    Extend(states, steps, S2, Start, S3);
    states, steps := states + [S3], steps + [Start];
  }

  // This node writes y while the other cannot be reached, and keeps a hint for it.
  lemma WritesAndHints(states: seq<State>, steps: seq<Step>, s: State, y: Item, s': State)
    returns (states': seq<State>, steps': seq<Step>)
    requires Reached(states, steps, s) && Look(s.held, SELF) == [FROM_BOTH] && s.newest == BOTH
    requires y == FROM_P || y == FROM_Q
    requires s' == s.(hints := s.hints[OTHER := EventsFor(s.hints, OTHER) + [Hints.Added(y)]])
    ensures Reached(states', steps', s') && steps'[0] == steps[0]
  {
    AlreadyCovered(y);
    WritesBoth();
    var write, hint := Merge(SELF, [y]), AddHint(OTHER, y);
    Extend(states, steps, s, write, s);
    states', steps' := states + [s], steps + [write];
    Extend(states', steps', s, hint, s');
    states', steps' := states' + [s'], steps' + [hint];
  }

  // The other node takes both hints at once, and they are marked.
  lemma Delivers(states: seq<State>, steps: seq<Step>) returns (states': seq<State>, steps': seq<Step>)
    requires Reached(states, steps, S5)
    ensures Reached(states', steps', S7) && steps'[0] == steps[0]
  {
    BothAbsorbed();
    MarkerIsProper();
    var both := [FROM_P, FROM_Q];
    Extend(states, steps, S5, Merge(OTHER, both), S6);
    states', steps' := states + [S6], steps + [Merge(OTHER, both)];
    Extend(states', steps', S6, MarkDelivered(OTHER, both, MARKER), S7);
    states', steps' := states' + [S7], steps' + [MarkDelivered(OTHER, both, MARKER)];
  }

  lemma OtherIsTarget(run: RunState)
    requires run.base == ALONE && run.target == BOTH
    ensures forall id :: id in TargetsOf(Two(), run) <==> id == OTHER
  {
    FilterMembers([SELF, OTHER], SELF, [SELF]);
    assert SELF in [SELF, OTHER] && OTHER in [SELF, OTHER];
    assert TargetsOf(Two(), run) == Filter([SELF, OTHER], SELF, [SELF]);
  }

  // The run reads, cannot reach the other node after all, hints and completes.
  lemma Completes(states: seq<State>, steps: seq<Step>) returns (states': seq<State>, steps': seq<Step>)
    requires Reached(states, steps, S7)
    ensures Reached(states', steps', S10) && steps'[0] == steps[0]
  {
    OtherIsTarget(S8.runs[1]);
    OtherIsTarget(S9.runs[1]);
    Extend(states, steps, S7, Read(1), S8);
    states', steps' := states + [S8], steps + [Read(1)];
    Extend(states', steps', S8, StoreHint(1, OTHER), S9);
    states', steps' := states' + [S9], steps' + [StoreHint(1, OTHER)];
    Extend(states', steps', S9, Finish(1, true), S10);
    states', steps' := states' + [S10], steps' + [Finish(1, true)];
  }

  lemma HasArrived()
    ensures Genesis(S0) && Arrived(Two(), S1, FROM_BOTH)
  {
    assert Covers(FROM_BOTH, FROM_BOTH) && FROM_BOTH in [FROM_BOTH];
  }

  lemma HintIsRetired()
    ensures Hints.Added(FROM_BOTH) in E4 && Hints.Delivered([FROM_P, FROM_Q], MARKER) in E4
    ensures forall h :: h in Hints.AddedItems(E4) ==> h == FROM_P || h == FROM_Q || h == FROM_BOTH
  {
    assert [FROM_BOTH][..0] == [] && AddedEvents([FROM_BOTH]) == [Hints.Added(FROM_BOTH)];
    assert E4 == [Hints.Added(FROM_P), Hints.Added(FROM_Q), Hints.Delivered([FROM_P, FROM_Q], MARKER), Hints.Added(FROM_BOTH)];
    assert E4[2] == Hints.Delivered([FROM_P, FROM_Q], MARKER) && E4[3] == Hints.Added(FROM_BOTH);
    Hints.WrittenMembers(E4);
  }

  lemma JoinMasks()
    ensures Masks(FROM_BOTH, Hints.Delivered([FROM_P, FROM_Q], MARKER), FROM_BOTH)
  {
    Hints.OnlyTheJoinCovers();
    NeitherCovers();
    assert Covers(FROM_BOTH, FROM_BOTH);
  }

  lemma NothingPending()
    ensures !HintPending(S10.hints, OTHER, FROM_BOTH) && HintMasked(S10.hints, OTHER, FROM_BOTH)
  {
    JoinMasks();
    HintIsRetired();
    assert FROM_BOTH in Hints.AddedItems(E4) by { Hints.WrittenMembers(E4); }
    assert EventsFor(S10.hints, OTHER) == E4;
    assert Hints.Retired(FROM_BOTH, E4);
    forall h | h in Hints.AddedItems(E4) && Covers(h, FROM_BOTH) ensures h == FROM_BOTH {
      Hints.OnlyTheJoinCovers();
    }
  }

  /** From nothing held at all, and with hints only of this node's own writes to members of its
      view: at the end the other node is an owner in the base, lacks the version that arrived with
      the first step, and this node has no hint for it that it would deliver. */
  lemma MaskedHintIsLost() returns (states: seq<State>, steps: seq<Step>)
    ensures Steps(Two(), states, steps) && AllAsCoded(states, steps) && Genesis(states[0]) && states[0].held == map[]
    ensures |steps| > 0 && Writes(steps[0], FROM_BOTH) && Arrived(Two(), states[1], FROM_BOTH)
    ensures var s := states[|steps|];
            && OTHER in Two().owners(s.base) && !Covered(FROM_BOTH, Look(s.held, OTHER))
            && !HintPending(s.hints, OTHER, FROM_BOTH) && HintMasked(s.hints, OTHER, FROM_BOTH)
  {
    states, steps := Begins();
    assert EventsFor(S3.hints, OTHER) + [Hints.Added(FROM_P)] == E1;
    states, steps := WritesAndHints(states, steps, S3, FROM_P, S4);
    states, steps := WritesAndHints(states, steps, S4, FROM_Q, S5);
    states, steps := Delivers(states, steps);
    states, steps := Completes(states, steps);
    HasArrived();
    NothingPending();
    NeitherCovers();
  }
}
