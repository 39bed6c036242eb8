/**
 A failed flush that did not fail. Manifest.Add reports an error when syncing its line fails,
 although the line may be on disk: the flush then puts its versions back into memory, and its
 table is live all the same. A rollback of such a version takes full effect, and a crash undoes it.
 */
module EngineStray {
  import opened Wrappers
  import opened Versions
  import opened Layers
  import opened Engine
  import Compaction

  // ---------------------------------------------------------------- the memtables

  lemma OnePut(key: string, y: Item)
    ensures PutItems([], y) == [y] && ApplyAll(map[], [PutWrite(key, y)]) == map[key := [y]]
  {
    PutItemsIsNewest([], y);
    assert [PutWrite(key, y)][..0] == [];
  }

  lemma PutBack(key: string, y: Item)
    ensures PutBackLayer(map[], map[key := [y]]) == map[key := [y]]
  {
    MergeAntichainIsIdentity([y]);
  }

  lemma Undone(key: string, y: Item)
    ensures ApplyAll(map[key := [y]], [RestoreWrite(key, [])]) == map[]
  {
    assert [RestoreWrite(key, [])][..0] == [];
    assert map[key := [y]] - {key} == map[];
  }

  lemma Replayed(key: string, y: Item, a: Segment, b: Segment)
    requires a.writes == [PutWrite(key, y)] && b.writes == [RestoreWrite(key, [])]
    ensures Replay(Writes([a, b])) == map[]
  {
    WritesOne(a);
    assert [a, b][..1] == [a];
    ApplyAllConcat(map[], a.writes, b.writes);
    OnePut(key, y);
    Undone(key, y);
  }

  // ---------------------------------------------------------------- the states

  function Fresh(): State {
    State(map[0 := map[]], 0, None, [], {}, {}, [], [], Segment(1, []), [], false, None, None, [])
  }

  function Written(key: string, y: Item): State {
    Fresh().(mem := map[0 := map[key := [y]]], current := Segment(1, [PutWrite(key, y)]), history := [PutWrite(key, y)])
  }

  function Swapped(key: string, y: Item): State {
    Written(key, y).(mem := Written(key, y).mem[1 := map[]], active := 1, flushing := Some(Frozen(0, 1, None)),
                     sealedSegs := [Segment(1, [PutWrite(key, y)])], current := Segment(2, []))
  }

  function Landed(key: string, y: Item, t: LayerTable): State {
    Swapped(key, y).(live := {t}, flushing := Some(Frozen(0, 1, Some(t))))
  }

  function Failed(key: string, y: Item, t: LayerTable): State {
    Landed(key, y, t).(mem := Swapped(key, y).mem[1 := map[key := [y]]], strays := {t}, flushing := None)
  }

  function RolledBack(key: string, y: Item, t: LayerTable): State {
    Failed(key, y, t).(mem := Failed(key, y, t).mem[1 := map[]], current := Segment(2, [RestoreWrite(key, [])]),
                       history := [PutWrite(key, y), RestoreWrite(key, [])])
  }

  function Crashed(key: string, y: Item, t: LayerTable): State {
    State(map[0 := map[]], 0, None, [t], {t}, {}, [],
          NonEmpty([Segment(1, [PutWrite(key, y)]), Segment(2, [RestoreWrite(key, [])])]),
          Segment(3, []), [], false, None, None, [PutWrite(key, y), RestoreWrite(key, [])])
  }

  // ---------------------------------------------------------------- the steps

  ghost predicate Takes(s: State, step: Step, s': State) {
    WellFormed(s) && Next(s, step, s')
  }

  lemma Begins(key: string, y: Item)
    ensures Init(Fresh()) && Takes(Fresh(), Commit([PutWrite(key, y)]), Written(key, y))
    ensures Takes(Written(key, y), Swap(1), Swapped(key, y))
  {
    OnePut(key, y);
  }

  lemma Registers(key: string, y: Item, t: LayerTable)
    requires t.data == map[key := [y]]
    ensures Takes(Swapped(key, y), FlushRegisters(t.id), Landed(key, y, t))
  {
    assert key in t.data && t == LayerTable(t.id, t.data);
  }

  lemma Fails(key: string, y: Item, t: LayerTable)
    ensures Takes(Landed(key, y, t), FlushFails, Failed(key, y, t))
  {
    var s := Landed(key, y, t);
    PutBack(key, y);
    assert s.mem[s.active] == map[] && s.mem[0] == map[key := [y]];
    assert s.strays + Registered(s.flushing.value) * s.live == {t};
  }

  lemma RollsBack(key: string, y: Item, t: LayerTable)
    ensures Takes(Failed(key, y, t), Commit([RestoreWrite(key, [])]), RolledBack(key, y, t))
  {
    Undone(key, y);
  }

  lemma Crashes(key: string, y: Item, t: LayerTable)
    ensures Takes(RolledBack(key, y, t), Crash(0, [t]), Crashed(key, y, t))
  {
    var s, a, b := RolledBack(key, y, t), Segment(1, [PutWrite(key, y)]), Segment(2, [RestoreWrite(key, [])]);
    assert s.current.writes + s.torn == s.current.writes && s.deleted[0..] == [];
    assert [] + [a] + [b] == [a, b];
    assert s.history + s.torn == s.history;
    Replayed(key, y, a, b);
  }

  // ---------------------------------------------------------------- what is read

  lemma HiddenThenBack(key: string, y: Item, t: LayerTable)
    requires t.data == map[key := [y]]
    ensures GetAll(RolledBack(key, y, t), key) == [] && GetAll(Crashed(key, y, t), key) == [y]
  {
    assert ReadLists(RolledBack(key, y, t), key) == [[]];
    assert ReadLists(Crashed(key, y, t), key) == [[], [y]];
    FoldsToOne(y);
  }

  lemma FoldsToOne(y: Item)
    ensures Compaction.Fold([[]]) == [] && Compaction.Fold([[], [y]]) == [y]
  {
    var one: seq<seq<Item>> := [[]];
    assert [[], [y]][..1] == one && one[..0] == [];
    MergeAntichainIsIdentity([y]);
  }

  // ---------------------------------------------------------------- the run

  // A run that has taken these steps to s, after n others.
  ghost predicate Reached(states: seq<State>, steps: seq<Step>, n: nat, s: State) {
    Run(states, steps) && |steps| == n && states[n] == s
  }

  lemma Extend(states: seq<State>, steps: seq<Step>, n: nat, s: State, step: Step, s': State)
    requires Reached(states, steps, n, s) && Takes(s, step, s')
    ensures Reached(states + [s'], steps + [step], n + 1, s')
  {
    var more, more' := states + [s'], steps + [step];
    forall i: nat | i < |more'| ensures StepAt(more, more', i) {
      if i < |steps| { assert StepAt(states, steps, i) && more[i] == states[i] && more[i + 1] == states[i + 1]; }
    }
  }

  lemma Fills(key: string, y: Item) returns (states: seq<State>, steps: seq<Step>)
    ensures Reached(states, steps, 2, Swapped(key, y)) && steps[0] == Commit([PutWrite(key, y)])
  {
    Begins(key, y);
    assert Reached([Fresh()], [], 0, Fresh());
    Extend([Fresh()], [], 0, Fresh(), Commit([PutWrite(key, y)]), Written(key, y));
    states, steps := [Fresh()] + [Written(key, y)], [] + [Commit([PutWrite(key, y)])];
    Extend(states, steps, 1, Written(key, y), Swap(1), Swapped(key, y));
    states, steps := states + [Swapped(key, y)], steps + [Swap(1)];
  }

  lemma Flushes(key: string, y: Item, t: LayerTable) returns (states: seq<State>, steps: seq<Step>)
    requires t.data == map[key := [y]]
    ensures Reached(states, steps, 4, Failed(key, y, t)) && steps[0] == Commit([PutWrite(key, y)])
  {
    states, steps := Fills(key, y);
    Registers(key, y, t);
    Extend(states, steps, 2, Swapped(key, y), FlushRegisters(t.id), Landed(key, y, t));
    states, steps := states + [Landed(key, y, t)], steps + [FlushRegisters(t.id)];
    Fails(key, y, t);
    Extend(states, steps, 3, Landed(key, y, t), FlushFails, Failed(key, y, t));
    states, steps := states + [Failed(key, y, t)], steps + [FlushFails];
  }

  lemma Undoes(key: string, y: Item, t: LayerTable) returns (states: seq<State>, steps: seq<Step>)
    requires t.data == map[key := [y]]
    ensures Reached(states, steps, 5, RolledBack(key, y, t)) && steps[0] == Commit([PutWrite(key, y)])
    ensures steps[4] == Commit([RestoreWrite(key, [])])
  {
    states, steps := Flushes(key, y, t);
    RollsBack(key, y, t);
    Extend(states, steps, 4, Failed(key, y, t), Commit([RestoreWrite(key, [])]), RolledBack(key, y, t));
    states, steps := states + [RolledBack(key, y, t)], steps + [Commit([RestoreWrite(key, [])])];
  }

  lemma Restarts(key: string, y: Item, t: LayerTable) returns (states: seq<State>, steps: seq<Step>)
    requires t.data == map[key := [y]]
    ensures Reached(states, steps, 6, Crashed(key, y, t)) && states[5] == RolledBack(key, y, t)
    ensures steps[0] == Commit([PutWrite(key, y)]) && steps[4] == Commit([RestoreWrite(key, [])]) && steps[5].Crash?
  {
    states, steps := Undoes(key, y, t);
    Crashes(key, y, t);
    Extend(states, steps, 5, RolledBack(key, y, t), Crash(0, [t]), Crashed(key, y, t));
    states, steps := states + [Crashed(key, y, t)], steps + [Crash(0, [t])];
  }

  /** For any version: written, flushed with an error that came after the line had landed, and
      rolled back, after which no read returns it; a crash brings it back. */
  lemma RolledBackComesBack(key: string, y: Item, id: nat) returns (states: seq<State>, steps: seq<Step>)
    ensures Run(states, steps) && |steps| == 6
    ensures steps[0] == Commit([PutWrite(key, y)]) && steps[4] == Commit([RestoreWrite(key, [])]) && steps[5].Crash?
    ensures WellFormed(states[5]) && GetAll(states[5], key) == [] && states[5].torn == []
    ensures WellFormed(states[6]) && GetAll(states[6], key) == [y]
  {
    var t := LayerTable(id, map[key := [y]]);
    states, steps := Restarts(key, y, t);
    HiddenThenBack(key, y, t);
  }
}
