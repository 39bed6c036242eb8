/**
 The engine's background work is invisible: in any run, no step of a flush, of a compaction or
 of the segment cleaner changes what any read returns, the order of its versions included, and
 a compaction always finds its run in place.
 */
module EngineBackground {
  import opened Wrappers
  import opened Sequences
  import opened Versions
  import opened Layers
  import opened Engine
  import Compaction

  // run stands whole in tables.
  ghost predicate InPlace(tables: seq<LayerTable>, run: seq<LayerTable>) {
    exists place: nat :: StandsAt(tables, run, place)
  }

  predicate StandsAt(tables: seq<LayerTable>, run: seq<LayerTable>, place: nat) {
    place + |run| <= |tables| && tables[place..place + |run|] == run
  }

  // A registered table is its memtable; a compaction's table is its run's merge, and the run is
  // in place.
  ghost predicate Tidy(s: State) {
    && WellFormed(s)
    && (s.flushing.Some? && s.flushing.value.registered.Some? ==>
          s.flushing.value.registered.value.data == s.mem[s.flushing.value.mem])
    && (s.compacting.Some? ==>
          FoldsInto(s.compacting.value.merged.data, s.compacting.value.sources) && InPlace(s.sstables, s.compacting.value.sources))
  }

  lemma FlushKeepsPlace(tables: seq<LayerTable>, run: seq<LayerTable>, t: LayerTable)
    requires InPlace(tables, run)
    ensures InPlace([t] + tables, run)
  {
    var place: nat :| StandsAt(tables, run, place);
    assert ([t] + tables)[place + 1..place + 1 + |run|] == tables[place..place + |run|];
    assert StandsAt([t] + tables, run, place + 1);
  }

  lemma StepKeepsTidy(s: State, step: Step, s': State)
    requires Tidy(s) && Next(s, step, s')
    ensures Tidy(s')
  {
    match step
    case FlushInstalls =>
      if s.compacting.Some? {
        FlushKeepsPlace(s.sstables, s.compacting.value.sources, s.flushing.value.registered.value);
      }
    case CompactPicks(lo, hi, id) => assert StandsAt(s.sstables, s.sstables[lo..hi], lo);
    case Commit(batch) =>
    case CommitFails(batch, onDisk) =>
    case RotateOnly =>
    case Swap(newMem) =>
    case FlushRegisters(id) =>
    case FlushFails =>
    case DeleteOldest =>
    case CompactAdds =>
    case CompactRemoves =>
    case CompactSwaps(place) =>
    case CompactStops =>
    case Crash(lost, listing) =>
  }

  lemma {:induction false} RunKeepsTidy(states: seq<State>, steps: seq<Step>, i: nat)
    requires Run(states, steps) && i < |states|
    ensures Tidy(states[i])
  {
    if i > 0 {
      RunKeepsTidy(states, steps, i - 1);
      assert StepAt(states, steps, i - 1);
      StepKeepsTidy(states[i - 1], steps[i - 1], states[i]);
    }
  }

  /** In every run the tables a compaction chose stay together until it swaps them: replaceRun
      never fails. */
  lemma RunStaysInPlace(states: seq<State>, steps: seq<Step>, i: nat)
    requires Run(states, steps) && i < |states| && states[i].compacting.Some?
    ensures exists place: nat :: StandsAt(states[i].sstables, states[i].compacting.value.sources, place)
  {
    RunKeepsTidy(states, steps, i);
  }

  // ---------------------------------------------------------------- reads

  predicate Background(step: Step) {
    || step.FlushRegisters? || step.FlushInstalls? || step.FlushFails? || step.DeleteOldest?
    || step.CompactPicks? || step.CompactAdds? || step.CompactRemoves? || step.CompactSwaps? || step.CompactStops?
  }

  lemma InstallKeepsRead(s: State, s': State, key: string)
    requires Tidy(s) && WellFormed(s') && Next(s, FlushInstalls, s')
    ensures GetAll(s', key) == GetAll(s, key)
  {
    var t := s.flushing.value.registered.value;
    ListsCons(t, s.sstables, key);
    FrozenMovesDown(Look(s.mem[s.active], key), Look(t.data, key), LayerLists(s.sstables, key));
  }

  lemma ListsCons(t: LayerTable, tables: seq<LayerTable>, key: string)
    ensures LayerLists([t] + tables, key) == [Look(t.data, key)] + LayerLists(tables, key)
  {
  }

  lemma FrozenMovesDown(active: seq<Item>, frozen: seq<Item>, rest: seq<seq<Item>>)
    ensures [active] + [] + ([frozen] + rest) == [active] + [frozen] + rest
  {
  }

  // Versions put back behind the active ones are folded as they would have been read.
  lemma PutBackIsFold(active: seq<Item>, frozen: seq<Item>, rest: seq<seq<Item>>)
    ensures Compaction.Fold([active] + [frozen] + rest) == Compaction.Fold([Merge(active, frozen)] + [] + rest)
  {
    var two, one := [active] + [frozen], [Merge(active, frozen)] + [];
    MergeAssociative([], active, frozen);
    assert two[..1] == [active] && [active][..0] == [] && one[..0] == [];
    assert Compaction.Fold(two) == Merge(Compaction.Fold([active]), frozen);
    assert Compaction.Fold(one) == Merge([], Merge(active, frozen));
    Compaction.FoldSplit(two, rest);
    Compaction.FoldSplit(one, rest);
  }

  lemma FailKeepsRead(s: State, s': State, key: string)
    requires Tidy(s) && WellFormed(s') && Next(s, FlushFails, s')
    ensures GetAll(s', key) == GetAll(s, key)
  {
    var active, frozen := Look(s.mem[s.active], key), Look(s.mem[s.flushing.value.mem], key);
    PutBackLook(s.mem[s.active], s.mem[s.flushing.value.mem], key);
    PutBackIsFold(active, frozen, LayerLists(s.sstables, key));
  }

  lemma PutBackLook(l: Layer, older: Layer, key: string)
    ensures Look(PutBackLayer(l, older), key) == Merge(Look(l, key), Look(older, key))
  {
  }

  lemma SwapKeepsRead(s: State, place: nat, s': State, key: string)
    requires Tidy(s) && WellFormed(s') && Next(s, CompactSwaps(place), s')
    ensures GetAll(s', key) == GetAll(s, key)
  {
    var c := s.compacting.value;
    var n := |c.sources|;
    var newer, older := s.sstables[..place], s.sstables[place + n..];
    assert s.sstables == newer + c.sources + older;
    var above := [Look(s.mem[s.active], key)] + (if s.flushing.Some? then [Look(s.mem[s.flushing.value.mem], key)] else []);
    ListsSplit(newer, c.sources, older, key);
    ListsSplit(newer, [c.merged], older, key);
    assert LayerLists([c.merged], key) == [Compaction.Fold(LayerLists(c.sources, key))];
    MergeInPlace(above, LayerLists(newer, key), LayerLists(c.sources, key), LayerLists(older, key));
  }

  lemma ListsSplit(a: seq<LayerTable>, b: seq<LayerTable>, c: seq<LayerTable>, key: string)
    ensures LayerLists(a + b + c, key) == LayerLists(a, key) + LayerLists(b, key) + LayerLists(c, key)
  {
  }

  lemma MergeInPlace(above: seq<seq<Item>>, newer: seq<seq<Item>>, run: seq<seq<Item>>, older: seq<seq<Item>>)
    ensures Compaction.Fold(above + (newer + [Compaction.Fold(run)] + older)) == Compaction.Fold(above + (newer + run + older))
  {
    var f := Compaction.Fold(run);
    assert above + (newer + [f] + older) == (above + newer) + [f] + older;
    assert above + (newer + run + older) == (above + newer) + run + older;
    Compaction.RunReplacedByFold(above + newer, run, older);
  }

  // The rest touch nothing a read looks at.
  lemma QuietKeepsRead(s: State, s': State, key: string)
    requires WellFormed(s) && WellFormed(s') && s'.mem == s.mem && s'.active == s.active && s'.sstables == s.sstables
    requires s'.flushing.Some? == s.flushing.Some? && (s.flushing.Some? ==> s'.flushing.value.mem == s.flushing.value.mem)
    ensures GetAll(s', key) == GetAll(s, key)
  {
    assert ReadLists(s', key) == ReadLists(s, key);
  }

  /** In every run, no step of a flush (one that fails and is put back included), a compaction or
      the segment cleaner changes what GetAll returns for any key: the same versions in the same
      order. */
  lemma BackgroundIsInvisible(states: seq<State>, steps: seq<Step>, i: nat, key: string)
    requires Run(states, steps) && i < |steps| && Background(steps[i])
    ensures WellFormed(states[i]) && WellFormed(states[i + 1]) && GetAll(states[i + 1], key) == GetAll(states[i], key)
  {
    var s, s' := states[i], states[i + 1];
    RunKeepsTidy(states, steps, i);
    RunKeepsTidy(states, steps, i + 1);
    assert StepAt(states, steps, i);
    match steps[i]
    case FlushInstalls => InstallKeepsRead(s, s', key);
    case FlushFails => FailKeepsRead(s, s', key);
    case CompactSwaps(place) => SwapKeepsRead(s, place, s', key);
    case FlushRegisters(id) => QuietKeepsRead(s, s', key);
    case DeleteOldest => QuietKeepsRead(s, s', key);
    case CompactPicks(lo, hi, id) => QuietKeepsRead(s, s', key);
    case CompactAdds => QuietKeepsRead(s, s', key);
    case CompactRemoves => QuietKeepsRead(s, s', key);
    case CompactStops => QuietKeepsRead(s, s', key);
  }
}
