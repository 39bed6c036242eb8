/**
 The storage engine as a step system: batched commits to a segmented log and the active
 memtable, memtable swaps, background flushes that succeed or fail, segment deletion,
 compaction, and crashes followed by replay, in any order they can interleave.

 A step that decides by size or by a file-system outcome (a threshold crossed, a write that
 fails) may be taken whenever the code could take it, so every run of the engine is a run here.
 */
module Engine {
  import opened Wrappers
  import opened Sequences
  import opened Versions
  import opened Layers
  import Compaction

  // A log record: a version to merge, or a version set to install verbatim (rollback).
  datatype Write =
    | PutWrite(key: string, item: Item)
    | RestoreWrite(key: string, items: seq<Item>)

  datatype Segment = Segment(seqno: nat, writes: seq<Write>)

  datatype LayerTable = LayerTable(id: nat, data: Layer)

  // The memtable being flushed, the segment sealed with it, and its table once registered.
  datatype Frozen = Frozen(mem: nat, sealedSeg: nat, registered: Option<LayerTable>)

  datatype Phase = Picked | Added | Removed

  datatype Compacting = Compacting(sources: seq<LayerTable>, merged: LayerTable, phase: Phase)

  datatype State = State(
    mem: map<nat, Layer>,          // memtables by identity; readers may still hold old ones
    active: nat,
    flushing: Option<Frozen>,
    sstables: seq<LayerTable>,          // in memory, newest first
    live: set<LayerTable>,              // what the manifest on disk says is live
    strays: set<LayerTable>,            // of those, what a flush registered that was told it failed
    deleted: seq<Segment>,         // deletions a crash may still undo, oldest first
    sealedSegs: seq<Segment>,      // oldest first
    current: Segment,
    torn: seq<Write>,              // what a failed batch left on disk; only when halted
    halted: bool,
    flushedThrough: Option<nat>,   // segments up to here may be deleted
    compacting: Option<Compacting>,
    history: seq<Write>            // every write acknowledged, or recovered by a replay
  )

  datatype Step =
    | Commit(batch: seq<Write>)
    | CommitFails(batch: seq<Write>, onDisk: nat)
    | RotateOnly
    | Swap(newMem: nat)
    | FlushRegisters(id: nat)
    | FlushInstalls
    | FlushFails
    | DeleteOldest
    | CompactPicks(lo: nat, hi: nat, id: nat)
    | CompactAdds
    | CompactRemoves
    | CompactSwaps(place: nat)
    | CompactStops
    | Crash(lost: nat, listing: seq<LayerTable>)

  // ---------------------------------------------------------------- applying writes

  function Apply(l: Layer, w: Write): Layer {
    match w
    case PutWrite(key, item) => PutLayer(l, key, item)
    case RestoreWrite(key, items) => ReplaceLayer(l, key, items)
  }

  function ApplyAll(l: Layer, ws: seq<Write>): Layer {
    if ws == [] then l else Apply(ApplyAll(l, ws[..|ws| - 1]), ws[|ws| - 1])
  }

  // Replaying a log, from an empty memtable.
  function Replay(ws: seq<Write>): Layer {
    ApplyAll(map[], ws)
  }

  function Writes(segs: seq<Segment>): seq<Write> {
    if segs == [] then [] else Writes(segs[..|segs| - 1]) + segs[|segs| - 1].writes
  }

  // OpenLog drops segments that hold nothing.
  function NonEmpty(segs: seq<Segment>): seq<Segment> {
    if segs == [] then []
    else NonEmpty(segs[..|segs| - 1]) + (if segs[|segs| - 1].writes == [] then [] else [segs[|segs| - 1]])
  }

  // The table a compaction writes: for every key, the fold of its sources, newest first.
  function LayerLists(tables: seq<LayerTable>, key: string): seq<seq<Item>> {
    seq(|tables|, i requires 0 <= i < |tables| => Look(tables[i].data, key))
  }

  ghost predicate FoldsInto(merged: Layer, sources: seq<LayerTable>) {
    forall k :: Look(merged, k) == Compaction.Fold(LayerLists(sources, k))
  }

  // ---------------------------------------------------------------- steps

  ghost predicate Init(s: State) {
    s == State(map[0 := map[]], 0, None, [], {}, {}, [], [], Segment(1, []), [], false, None, None, [])
  }

  predicate WellFormed(s: State) {
    && s.active in s.mem
    && (s.flushing.Some? ==> s.flushing.value.mem in s.mem && s.flushing.value.mem != s.active)
  }

  ghost predicate Next(s: State, step: Step, s': State)
    requires WellFormed(s)
  {
    match step
    case Commit(batch) =>
      // One WAL write and fsync, then the batch applied in order under one lock.
      && !s.halted
      && s' == s.(mem := s.mem[s.active := ApplyAll(s.mem[s.active], batch)],
                  current := s.current.(writes := s.current.writes + batch),
                  history := s.history + batch)
    case CommitFails(batch, onDisk) =>
      // Any prefix of the batch may be on disk; none of it is applied, and writes halt.
      && !s.halted && onDisk <= |batch|
      && s' == s.(halted := true, torn := batch[..onDisk])
    case RotateOnly =>
      // Rotate created the next segment but failed to close the old one: nothing is frozen.
      && !s.halted
      && s' == s.(sealedSegs := s.sealedSegs + [s.current], current := Segment(s.current.seqno + 1, []))
    case Swap(newMem) =>
      && !s.halted && s.flushing.None? && newMem !in s.mem
      && s' == s.(sealedSegs := s.sealedSegs + [s.current], current := Segment(s.current.seqno + 1, []),
                  flushing := Some(Frozen(s.active, s.current.seqno, None)),
                  mem := s.mem[newMem := map[]], active := newMem)
    case FlushRegisters(id) =>
      // An SSTable is never empty: writing one fails.
      && s.flushing.Some? && s.flushing.value.registered.None? && s.mem[s.flushing.value.mem] != map[]
      && var t := LayerTable(id, s.mem[s.flushing.value.mem]);
         s' == s.(live := s.live + {t}, flushing := Some(s.flushing.value.(registered := Some(t))))
    case FlushInstalls =>
      && s.flushing.Some? && s.flushing.value.registered.Some?
      && s' == s.(sstables := [s.flushing.value.registered.value] + s.sstables, flushing := None,
                  flushedThrough := Some(Later(s.flushedThrough, s.flushing.value.sealedSeg)))
    case FlushFails =>
      // An error at any of its steps. The manifest's line may have reached the disk all the same,
      // when syncing it is what failed.
      && s.flushing.Some?
      && s' == s.(mem := s.mem[s.active := PutBackLayer(s.mem[s.active], s.mem[s.flushing.value.mem])],
                  strays := s.strays + Registered(s.flushing.value) * s.live, flushing := None)
    case DeleteOldest =>
      && s.flushedThrough.Some? && s.sealedSegs != [] && s.sealedSegs[0].seqno <= s.flushedThrough.value
      && s' == s.(deleted := s.deleted + [s.sealedSegs[0]], sealedSegs := s.sealedSegs[1..])
    case CompactPicks(lo, hi, id) =>
      && s.compacting.None? && lo < hi <= |s.sstables|
      && s'.compacting.Some? && s' == s.(compacting := s'.compacting)
      && var c := s'.compacting.value;
         && c.sources == s.sstables[lo..hi] && c.merged.id == id && c.phase == Picked
         && FoldsInto(c.merged.data, c.sources)
         && (forall t :: t in c.sources ==> t.id != id)
    case CompactAdds =>
      && s.compacting.Some? && s.compacting.value.phase == Picked
      && s' == s.(live := s.live + {s.compacting.value.merged},
                  compacting := Some(s.compacting.value.(phase := Added)))
    case CompactRemoves =>
      && s.compacting.Some? && s.compacting.value.phase == Added
      && s' == s.(live := s.live - (set t | t in s.compacting.value.sources),
                  strays := s.strays - (set t | t in s.compacting.value.sources),
                  compacting := Some(s.compacting.value.(phase := Removed)))
    case CompactSwaps(place) =>
      && s.compacting.Some? && s.compacting.value.phase == Removed
      && var c := s.compacting.value;
         && place + |c.sources| <= |s.sstables| && s.sstables[place..place + |c.sources|] == c.sources
         && s' == s.(sstables := s.sstables[..place] + [c.merged] + s.sstables[place + |c.sources|..],
                     compacting := None)
    case CompactStops =>
      // An error at any of its steps, which all leave the rest undone.
      && s.compacting.Some? && s' == s.(compacting := None)
    case Crash(lost, listing) =>
      // Undone deletions come back as a suffix; the log is replayed into one memtable.
      && lost <= |s.deleted| && (forall t :: t in listing <==> t in s.live)
      && var segs := s.deleted[lost..] + s.sealedSegs + [s.current.(writes := s.current.writes + s.torn)];
         s' == State(map[0 := Replay(Writes(segs))], 0, None, listing, s.live, {}, [], NonEmpty(segs),
                     Segment(s.current.seqno + 1, []), [], false, None, None, s.history + s.torn)
  }

  function Registered(f: Frozen): set<LayerTable> {
    if f.registered.Some? then {f.registered.value} else {}
  }

  function Later(a: Option<nat>, b: nat): nat {
    if a.Some? && a.value > b then a.value else b
  }

  ghost predicate StepAt(states: seq<State>, steps: seq<Step>, i: nat)
    requires i < |steps| < |states|
  {
    WellFormed(states[i]) && Next(states[i], steps[i], states[i + 1])
  }

  ghost predicate Steps(states: seq<State>, steps: seq<Step>) {
    && |states| == |steps| + 1
    && forall i: nat :: i < |steps| ==> StepAt(states, steps, i)
  }

  ghost predicate Run(states: seq<State>, steps: seq<Step>) {
    Steps(states, steps) && Init(states[0])
  }

  // ---------------------------------------------------------------- what the steps have written

  // What is on disk of a batch that failed since the last crash: its first records.
  function Failing(steps: seq<Step>): seq<Write> {
    if steps == [] then []
    else
      match steps[|steps| - 1]
      case CommitFails(batch, onDisk) => if onDisk <= |batch| then batch[..onDisk] else batch
      case Crash(_, _) => []
      case _ => Failing(steps[..|steps| - 1])
  }

  // Every batch acknowledged, in order, and at each crash what was on disk of one that failed.
  function Recorded(steps: seq<Step>): seq<Write> {
    if steps == [] then []
    else
      var before := steps[..|steps| - 1];
      match steps[|steps| - 1]
      case Commit(batch) => Recorded(before) + batch
      case Crash(_, _) => Recorded(before) + Failing(before)
      case _ => Recorded(before)
  }

  /** The history of a state is what the steps to it have written, and nothing else. */
  lemma {:induction false} HistoryIsRecorded(states: seq<State>, steps: seq<Step>, i: nat)
    requires Run(states, steps) && i <= |steps|
    ensures states[i].history == Recorded(steps[..i]) && states[i].torn == Failing(steps[..i])
  {
    if i > 0 {
      HistoryIsRecorded(states, steps, i - 1);
      assert StepAt(states, steps, i - 1);
      StepRecords(states[i - 1], steps[..i - 1], steps[i - 1], states[i]);
      assert steps[..i] == steps[..i - 1] + [steps[i - 1]];
    }
  }

  lemma StepRecords(s: State, before: seq<Step>, step: Step, s': State)
    requires WellFormed(s) && Next(s, step, s') && s.history == Recorded(before) && s.torn == Failing(before)
    ensures s'.history == Recorded(before + [step]) && s'.torn == Failing(before + [step])
  {
    assert (before + [step])[..|before|] == before;
  }

  /** After a batch has failed nothing is written, acknowledged or sealed before the next crash, so
      that nothing is appended behind what the failed batch left on disk. */
  lemma {:induction false} HaltedUntilCrash(states: seq<State>, steps: seq<Step>, i: nat, j: nat)
    requires Run(states, steps) && i < j <= |steps| && steps[i].CommitFails?
    requires forall k :: i < k < j ==> !steps[k].Crash?
    ensures states[j].halted && states[j].current == states[i].current && states[j].torn == Failing(steps[..i + 1])
    ensures forall k :: i < k < j ==> !steps[k].Commit? && !steps[k].CommitFails? && !steps[k].Swap? && !steps[k].RotateOnly?
    decreases j
  {
    assert StepAt(states, steps, j - 1);
    if i + 1 < j {
      HaltedUntilCrash(states, steps, i, j - 1);
    } else {
      assert steps[..i + 1][i] == steps[i];
    }
  }

  // What holds at the start and is kept by every step holds throughout.
  lemma {:induction false} Induction(states: seq<State>, inv: State -> bool, i: nat)
    requires i < |states| && inv(states[0])
    requires forall j: nat :: j + 1 < |states| && inv(states[j]) ==> inv(states[j + 1])
    ensures inv(states[i])
  {
    if i > 0 { Induction(states, inv, i - 1); }
  }

  // ---------------------------------------------------------------- what a read returns

  // The layers a read folds, newest first: active, flushing, then the SSTables.
  function ReadLists(s: State, key: string): seq<seq<Item>>
    requires WellFormed(s)
  {
    [Look(s.mem[s.active], key)]
    + (if s.flushing.Some? then [Look(s.mem[s.flushing.value.mem], key)] else [])
    + LayerLists(s.sstables, key)
  }

  function GetAll(s: State, key: string): seq<Item>
    requires WellFormed(s)
  {
    Compaction.Fold(ReadLists(s, key))
  }

  // ---------------------------------------------------------------- coverage by layers

  // Some layer holds a version of key at or after y.
  ghost predicate Cov(ls: set<Layer>, key: string, y: Item) {
    exists l :: l in ls && Covered(y, Look(l, key))
  }

  ghost predicate CovAll(ls: set<Layer>, key: string, ys: seq<Item>) {
    forall y :: y in ys ==> Cov(ls, key, y)
  }

  // Everything any of ms holds is covered by ls.
  ghost predicate CovLayers(ls: set<Layer>, key: string, ms: set<Layer>) {
    forall m :: m in ms ==> CovAll(ls, key, Look(m, key))
  }

  ghost function TableLayers(ts: set<LayerTable>): set<Layer> {
    set t | t in ts :: t.data
  }

  ghost function Listed(ts: seq<LayerTable>): set<LayerTable> {
    set t | t in ts
  }

  ghost function FrozenLayers(s: State): set<Layer>
    requires WellFormed(s)
  {
    if s.flushing.Some? then {s.mem[s.flushing.value.mem]} else {}
  }

  // The layers a read folds, as a set.
  ghost function MemoryLayers(s: State): set<Layer>
    requires WellFormed(s)
  {
    {s.mem[s.active]} + FrozenLayers(s) + TableLayers(Listed(s.sstables))
  }

  lemma CovItself(ls: set<Layer>, key: string, l: Layer, y: Item)
    requires l in ls && y in Look(l, key)
    ensures Cov(ls, key, y)
  {
    assert Covers(y, y);
    assert Covered(y, Look(l, key));
  }

  lemma CovTransitive(ls: set<Layer>, ms: set<Layer>, key: string, y: Item)
    requires Cov(ls, key, y) && CovLayers(ms, key, ls)
    ensures Cov(ms, key, y)
  {
    var l :| l in ls && Covered(y, Look(l, key));
    var x :| x in Look(l, key) && Covers(x, y);
    assert CovAll(ms, key, Look(l, key));
    CovBelow(ms, key, x, y);
  }

  lemma CovBelow(ls: set<Layer>, key: string, x: Item, y: Item)
    requires Cov(ls, key, x) && Covers(x, y)
    ensures Cov(ls, key, y)
  {
    var l :| l in ls && Covered(x, Look(l, key));
    CoveredMonotone(y, x, Look(l, key));
  }

  lemma CovGrows(ls: set<Layer>, ms: set<Layer>, key: string, y: Item)
    requires Cov(ls, key, y) && ls <= ms
    ensures Cov(ms, key, y)
  {
  }

  lemma CovLayersReflexive(ls: set<Layer>, ms: set<Layer>, key: string)
    requires ms <= ls
    ensures CovLayers(ls, key, ms)
  {
    forall m | m in ms ensures CovAll(ls, key, Look(m, key)) {
      forall y | y in Look(m, key) ensures Cov(ls, key, y) { CovItself(ls, key, m, y); }
    }
  }

  lemma CovAllTransitive(ls: set<Layer>, ms: set<Layer>, key: string, ys: seq<Item>)
    requires CovAll(ls, key, ys) && CovLayers(ms, key, ls)
    ensures CovAll(ms, key, ys)
  {
    forall y | y in ys ensures Cov(ms, key, y) { CovTransitive(ls, ms, key, y); }
  }

  lemma CovLayersTransitive(ls: set<Layer>, ms: set<Layer>, ns: set<Layer>, key: string)
    requires CovLayers(ls, key, ms) && CovLayers(ms, key, ns)
    ensures CovLayers(ls, key, ns)
  {
    forall n | n in ns ensures CovAll(ls, key, Look(n, key)) { CovAllTransitive(ms, ls, key, Look(n, key)); }
  }

  // ---------------------------------------------------------------- folds and layers

  lemma {:induction false} ConcatMembers(lists: seq<seq<Item>>, x: Item)
    ensures x in Compaction.Concat(lists) <==> exists i :: 0 <= i < |lists| && x in lists[i]
  {
    if lists != [] {
      var front := lists[..|lists| - 1];
      ConcatMembers(front, x);
      if x in Compaction.Concat(front) {
        var i :| 0 <= i < |front| && x in front[i];
        assert x in lists[i];
      }
      if exists i :: 0 <= i < |lists| && x in lists[i] {
        var i :| 0 <= i < |lists| && x in lists[i];
        if i < |front| { assert x in front[i]; }
      }
    }
  }

  // A fold covers exactly what its lists cover, holds only their versions, and no redundancy.
  lemma FoldFacts(lists: seq<seq<Item>>)
    ensures Antichain(Compaction.Fold(lists))
    ensures forall x :: x in Compaction.Fold(lists) ==> exists i :: 0 <= i < |lists| && x in lists[i]
    ensures forall i, y :: 0 <= i < |lists| && y in lists[i] ==> Covered(y, Compaction.Fold(lists))
  {
    var all := Compaction.Concat(lists);
    Compaction.FoldIsMerge(lists);
    MergeKeepsAntichain([], all);
    MergeMembers([], all);
    MergeCoversBoth([], all);
    forall x | x in Compaction.Fold(lists) ensures exists i :: 0 <= i < |lists| && x in lists[i] {
      ConcatMembers(lists, x);
      assert x in [] + all;
    }
    forall i, y | 0 <= i < |lists| && y in lists[i] ensures Covered(y, Compaction.Fold(lists)) {
      ConcatMembers(lists, y);
      assert y in [] + all;
    }
  }

  // A read's lists are its layers.
  lemma ReadListsAreLayers(s: State, key: string)
    requires WellFormed(s)
    ensures forall i :: 0 <= i < |ReadLists(s, key)| ==>
              exists l :: l in MemoryLayers(s) && ReadLists(s, key)[i] == Look(l, key)
    ensures forall l :: l in MemoryLayers(s) ==> Look(l, key) in ReadLists(s, key)
  {
    var lists := ReadLists(s, key);
    var n := if s.flushing.Some? then 2 else 1;
    forall i | 0 <= i < |lists| ensures exists l :: l in MemoryLayers(s) && lists[i] == Look(l, key) {
      if i >= n {
        var t := s.sstables[i - n];
        assert t in Listed(s.sstables) && t.data in MemoryLayers(s) && lists[i] == Look(t.data, key);
      } else if i == 0 {
        assert s.mem[s.active] in MemoryLayers(s);
      } else {
        assert s.mem[s.flushing.value.mem] in MemoryLayers(s);
      }
    }
    forall l | l in MemoryLayers(s) ensures Look(l, key) in lists {
      if l == s.mem[s.active] {
        assert lists[0] == Look(l, key);
      } else if l in FrozenLayers(s) {
        assert lists[1] == Look(l, key);
      } else {
        var t :| t in Listed(s.sstables) && t.data == l;
        var i :| 0 <= i < |s.sstables| && s.sstables[i] == t;
        assert lists[n + i] == LayerLists(s.sstables, key)[i];
      }
    }
  }

  // A version is at or below a read's answer exactly when some layer covers it.
  lemma GetAllCovers(s: State, key: string, y: Item)
    requires WellFormed(s)
    ensures Covered(y, GetAll(s, key)) <==> Cov(MemoryLayers(s), key, y)
  {
    var lists := ReadLists(s, key);
    FoldFacts(lists);
    ReadListsAreLayers(s, key);
    if Covered(y, GetAll(s, key)) {
      var x :| x in GetAll(s, key) && Covers(x, y);
      var i :| 0 <= i < |lists| && x in lists[i];
      var l :| l in MemoryLayers(s) && lists[i] == Look(l, key);
      assert Covered(y, Look(l, key));
    }
    if Cov(MemoryLayers(s), key, y) {
      var l :| l in MemoryLayers(s) && Covered(y, Look(l, key));
      var x :| x in Look(l, key) && Covers(x, y);
      assert Look(l, key) in lists;
      var i :| 0 <= i < |lists| && lists[i] == Look(l, key);
      CoveredMonotone(y, x, GetAll(s, key));
    }
  }

  lemma GetAllMembers(s: State, key: string, x: Item)
    requires WellFormed(s) && x in GetAll(s, key)
    ensures exists l :: l in MemoryLayers(s) && x in Look(l, key)
  {
    var lists := ReadLists(s, key);
    FoldFacts(lists);
    ReadListsAreLayers(s, key);
    var i :| 0 <= i < |lists| && x in lists[i];
    var l :| l in MemoryLayers(s) && lists[i] == Look(l, key);
    assert x in Look(l, key);
  }

  // What a compaction's table covers and holds, key by key.
  lemma MergedFacts(merged: Layer, sources: seq<LayerTable>, key: string)
    requires FoldsInto(merged, sources)
    ensures CovLayers({merged}, key, TableLayers(Listed(sources)))
    ensures forall x :: x in Look(merged, key) ==> exists t :: t in sources && x in Look(t.data, key)
  {
    var lists := LayerLists(sources, key);
    FoldFacts(lists);
    forall m | m in TableLayers(Listed(sources)) ensures CovAll({merged}, key, Look(m, key)) {
      var t :| t in Listed(sources) && t.data == m;
      var i :| 0 <= i < |sources| && sources[i] == t;
      forall y | y in Look(m, key) ensures Cov({merged}, key, y) {
        assert y in lists[i];
        assert Covered(y, Look(merged, key));
      }
    }
    forall x | x in Look(merged, key) ensures exists t :: t in sources && x in Look(t.data, key) {
      var i :| 0 <= i < |lists| && x in lists[i];
      assert sources[i] in sources;
    }
  }

  // ---------------------------------------------------------------- applying and coverage

  lemma {:induction false} ApplyAllConcat(l: Layer, a: seq<Write>, b: seq<Write>)
    ensures ApplyAll(l, a + b) == ApplyAll(ApplyAll(l, a), b)
  {
    if b == [] {
      NothingBeside(b, a);
    } else {
      var front, last := b[..|b| - 1], b[|b| - 1];
      ApplyAllConcat(l, a, front);
      LastOfConcat(a, b);
      ApplyAllNext(l, a + front, last);
      ApplyAllNext(ApplyAll(l, a), front, last);
    }
  }

  lemma ApplyAllNext(l: Layer, ws: seq<Write>, w: Write)
    ensures ApplyAll(l, ws + [w]) == Apply(ApplyAll(l, ws), w)
  {
    assert (ws + [w])[..|ws|] == ws;
  }

  lemma {:induction false} WritesConcat(a: seq<Segment>, b: seq<Segment>)
    ensures Writes(a + b) == Writes(a) + Writes(b)
  {
    if b == [] {
      assert a + b == a;
    } else {
      WritesConcat(a, b[..|b| - 1]);
      assert (a + b)[..|a + b| - 1] == a + b[..|b| - 1];
    }
  }

  lemma WritesOne(seg: Segment)
    ensures Writes([seg]) == seg.writes
  {
    assert [seg][..0] == [];
  }

  lemma {:induction false} WritesNonEmpty(segs: seq<Segment>)
    ensures Writes(NonEmpty(segs)) == Writes(segs)
  {
    if segs != [] {
      var front, last := segs[..|segs| - 1], segs[|segs| - 1];
      WritesNonEmpty(front);
      if last.writes != [] {
        assert NonEmpty(segs)[..|NonEmpty(segs)| - 1] == NonEmpty(front);
      } else {
        assert NonEmpty(segs) == NonEmpty(front);
      }
    }
  }

  lemma {:induction false} NonEmptyMembers(segs: seq<Segment>)
    ensures forall g :: g in NonEmpty(segs) ==> g in segs
  {
    if segs != [] { NonEmptyMembers(segs[..|segs| - 1]); }
  }
}
