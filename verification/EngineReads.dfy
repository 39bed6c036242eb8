/**
 Reads that run beside writes. GetAll copies the layer pointers once and then reads the layers
 one by one, while commits, swaps, flushes that finish or are put back, and compactions go on.
 In runs without rollbacks it still misses no write acknowledged before it began.
 */
module EngineReads {
  import opened Wrappers
  import opened Versions
  import opened Layers
  import opened Engine
  import opened EngineRefinement
  import Compaction

  // Where a read takes its pointers, then reads the active and the flushing memtable.
  datatype Read = Read(start: nat, active: nat, flushing: nat)

  ghost predicate PutOnlyRun(states: seq<State>, steps: seq<Step>) {
    Run(states, steps) && forall n :: 0 <= n < |steps| ==> PutOnlyStep(steps[n])
  }

  // The process stays up from the first to the last moment of the read.
  ghost predicate Happens(states: seq<State>, steps: seq<Step>, r: Read) {
    && |states| == |steps| + 1
    && r.start <= r.active <= r.flushing < |states|
    && forall n :: r.start <= n < r.flushing ==> !steps[n].Crash?
  }

  // The memtable objects a read points at still exist when it reads them.
  predicate Reachable(states: seq<State>, r: Read)
  {
    && r.start < |states| && r.active < |states| && r.flushing < |states|
    && WellFormed(states[r.start])
    && states[r.start].active in states[r.active].mem
    && (states[r.start].flushing.Some? ==> states[r.start].flushing.value.mem in states[r.flushing].mem)
  }

  // What the read folds, from the three moments it looks.
  function SeenLists(states: seq<State>, r: Read, key: string): seq<seq<Item>>
    requires Reachable(states, r)
  {
    var s := states[r.start];
    [Look(states[r.active].mem[s.active], key)]
    + (if s.flushing.Some? then [Look(states[r.flushing].mem[s.flushing.value.mem], key)] else [])
    + LayerLists(s.sstables, key)
  }

  function Result(states: seq<State>, r: Read, key: string): seq<Item>
    requires Reachable(states, r)
  {
    Compaction.Fold(SeenLists(states, r, key))
  }

  // ---------------------------------------------------------------- memtables only rise

  // Every memtable object is still there and covers what it held.
  ghost predicate Risen(m: map<nat, Layer>, m': map<nat, Layer>, key: string) {
    forall id :: id in m ==> id in m' && CovAll({m'[id]}, key, Look(m[id], key))
  }

  lemma SameIsRisen(l: Layer, key: string)
    ensures CovAll({l}, key, Look(l, key))
  {
    forall y | y in Look(l, key) ensures Cov({l}, key, y) { CovItself({l}, key, l, y); }
  }

  lemma RisenTransitive(a: map<nat, Layer>, b: map<nat, Layer>, c: map<nat, Layer>, key: string)
    requires Risen(a, b, key) && Risen(b, c, key)
    ensures Risen(a, c, key)
  {
    forall id | id in a ensures id in c && CovAll({c[id]}, key, Look(a[id], key)) {
      assert CovAll({b[id]}, key, Look(a[id], key)) && CovAll({c[id]}, key, Look(b[id], key));
      CovAllTransitive({b[id]}, {c[id]}, key, Look(a[id], key));
    }
  }

  lemma StepRaises(s: State, step: Step, s': State, key: string)
    requires WellFormed(s) && Next(s, step, s') && PutOnlyStep(step) && !step.Crash?
    ensures Risen(s.mem, s'.mem, key)
  {
    var a := s.mem[s.active];
    if step.Commit? {
      ApplyPuts(a, step.batch, key);
    } else if step.FlushFails? {
      PutBackFacts(a, s.mem[s.flushing.value.mem], key);
      assert a in {a, s.mem[s.flushing.value.mem]};
    }
    forall id | id in s.mem ensures id in s'.mem && CovAll({s'.mem[id]}, key, Look(s.mem[id], key)) {
      SameIsRisen(s.mem[id], key);
    }
  }

  lemma {:induction false} StepsRaise(states: seq<State>, steps: seq<Step>, i: nat, j: nat, key: string)
    requires PutOnlyRun(states, steps) && i <= j < |states| && forall n :: i <= n < j ==> !steps[n].Crash?
    ensures Risen(states[i].mem, states[j].mem, key)
    decreases j - i
  {
    if i == j {
      forall id | id in states[i].mem ensures CovAll({states[i].mem[id]}, key, Look(states[i].mem[id], key)) {
        SameIsRisen(states[i].mem[id], key);
      }
    } else {
      StepsRaise(states, steps, i, j - 1, key);
      assert StepAt(states, steps, j - 1);
      StepRaises(states[j - 1], steps[j - 1], states[j], key);
      RisenTransitive(states[i].mem, states[j - 1].mem, states[j].mem, key);
    }
  }

  // ---------------------------------------------------------------- histories only grow

  lemma {:induction false} HistoryIsPrefix(states: seq<State>, steps: seq<Step>, i: nat, j: nat)
    requires Run(states, steps) && i <= j < |states|
    ensures states[i].history <= states[j].history
    decreases j - i
  {
    if i < j {
      HistoryIsPrefix(states, steps, i, j - 1);
      assert StepAt(states, steps, j - 1);
    }
  }

  lemma PutsOfPrefix(h: seq<Write>, h': seq<Write>, key: string, x: Item)
    requires h <= h' && x in Puts(h, key)
    ensures x in Puts(h', key)
  {
    assert h' == h + h'[|h|..];
    PutsConcat(h, h'[|h|..], key);
  }

  // What a memtable object holds at some moment, a later history holds too.
  lemma SeenIsWritten(states: seq<State>, steps: seq<Step>, i: nat, j: nat, l: Layer, key: string, x: Item)
    requires PutOnlyRun(states, steps) && i <= j < |states|
    requires l in AllLayers(states[i]) && x in Look(l, key)
    ensures x in Puts(states[j].history, key)
  {
    RunKeeps(states, steps, i, key);
    assert FromHistory(AllLayers(states[i]), key, states[i].history);
    HistoryIsPrefix(states, steps, i, j);
    PutsOfPrefix(states[i].history, states[j].history, key, x);
  }

  // ---------------------------------------------------------------- the read

  lemma ReadIsReachable(states: seq<State>, steps: seq<Step>, r: Read)
    requires PutOnlyRun(states, steps) && Happens(states, steps, r)
    ensures Reachable(states, r)
  {
    RunKeeps(states, steps, r.start, "");
    StepsRaise(states, steps, r.start, r.active, "");
    StepsRaise(states, steps, r.start, r.flushing, "");
  }

  lemma ListIsWritten(states: seq<State>, steps: seq<Step>, r: Read, key: string, i: nat, x: Item)
    requires PutOnlyRun(states, steps) && Happens(states, steps, r) && Reachable(states, r)
    requires i < |SeenLists(states, r, key)| && x in SeenLists(states, r, key)[i]
    ensures x in Puts(states[r.flushing].history, key)
  {
    var s := states[r.start];
    var n := if s.flushing.Some? then 2 else 1;
    if i >= n {
      var t := s.sstables[i - n];
      assert SeenLists(states, r, key)[i] == LayerLists(s.sstables, key)[i - n];
      assert t in Listed(s.sstables) && t.data in AllLayers(s);
      SeenIsWritten(states, steps, r.start, r.flushing, t.data, key, x);
    } else if i == 0 {
      SeenIsWritten(states, steps, r.active, r.flushing, states[r.active].mem[s.active], key, x);
    } else {
      SeenIsWritten(states, steps, r.flushing, r.flushing, states[r.flushing].mem[s.flushing.value.mem], key, x);
    }
  }

  // A layer of the snapshot has, in what the read saw of it, everything it held at the start.
  lemma LayerIsSeen(states: seq<State>, steps: seq<Step>, r: Read, key: string, l: Layer, y: Item)
    requires PutOnlyRun(states, steps) && Happens(states, steps, r) && Reachable(states, r)
    requires l in MemoryLayers(states[r.start]) && y in Look(l, key)
    ensures exists i :: 0 <= i < |SeenLists(states, r, key)| && Covered(y, SeenLists(states, r, key)[i])
  {
    var s, lists := states[r.start], SeenLists(states, r, key);
    if l == s.mem[s.active] {
      StepsRaise(states, steps, r.start, r.active, key);
      assert Cov({states[r.active].mem[s.active]}, key, y);
      assert Covered(y, lists[0]);
    } else if l in FrozenLayers(s) {
      StepsRaise(states, steps, r.start, r.flushing, key);
      assert Cov({states[r.flushing].mem[s.flushing.value.mem]}, key, y);
      assert Covered(y, lists[1]);
    } else {
      var t :| t in Listed(s.sstables) && t.data == l;
      var i :| 0 <= i < |s.sstables| && s.sstables[i] == t;
      var n := if s.flushing.Some? then 2 else 1;
      assert lists[n + i] == LayerLists(s.sstables, key)[i];
      assert Covers(y, y);
      assert Covered(y, lists[n + i]);
    }
  }

  lemma ResultCovers(states: seq<State>, steps: seq<Step>, r: Read, key: string, y: Item)
    requires PutOnlyRun(states, steps) && Happens(states, steps, r) && Reachable(states, r)
    requires y in Puts(states[r.start].history, key)
    ensures Covered(y, Result(states, r, key))
  {
    var s, lists := states[r.start], SeenLists(states, r, key);
    RunKeeps(states, steps, r.start, key);
    assert Cov(MemoryLayers(s), key, y);
    var l :| l in MemoryLayers(s) && Covered(y, Look(l, key));
    var x :| x in Look(l, key) && Covers(x, y);
    LayerIsSeen(states, steps, r, key, l, x);
    var i :| 0 <= i < |lists| && Covered(x, lists[i]);
    var z :| z in lists[i] && Covers(z, x);
    FoldFacts(lists);
    assert Covered(z, Result(states, r, key));
    CoveredMonotone(x, z, Result(states, r, key));
    CoveredMonotone(y, x, Result(states, r, key));
  }

  /** A read that overlaps any steps but a crash returns a sibling set of versions written
      by the time it ends, covering every write acknowledged before it began. */
  lemma ReadsMissNothing(states: seq<State>, steps: seq<Step>, r: Read, key: string)
    requires PutOnlyRun(states, steps) && Happens(states, steps, r)
    ensures Reachable(states, r)
    ensures Antichain(Result(states, r, key))
    ensures Subset(Result(states, r, key), Puts(Recorded(steps[..r.flushing]), key))
    ensures CoversAll(Result(states, r, key), Puts(Recorded(steps[..r.start]), key))
  {
    HistoryIsRecorded(states, steps, r.start);
    HistoryIsRecorded(states, steps, r.flushing);
    ReadIsReachable(states, steps, r);
    var lists := SeenLists(states, r, key);
    FoldFacts(lists);
    forall x | x in Result(states, r, key) ensures x in Puts(states[r.flushing].history, key) {
      var i :| 0 <= i < |lists| && x in lists[i];
      ListIsWritten(states, steps, r, key, i, x);
    }
    forall y | y in Puts(states[r.start].history, key) ensures Covered(y, Result(states, r, key)) {
      ResultCovers(states, steps, r, key, y);
    }
  }

  /** Reads do not go back: one that begins after another ended covers its whole answer, even
      with crashes in between. */
  lemma LaterReadCoversEarlier(states: seq<State>, steps: seq<Step>, r: Read, later: Read, key: string)
    requires PutOnlyRun(states, steps) && Happens(states, steps, r) && Happens(states, steps, later)
    requires r.flushing <= later.start
    ensures Reachable(states, r) && Reachable(states, later)
    ensures CoversAll(Result(states, later, key), Result(states, r, key))
  {
    ReadsMissNothing(states, steps, r, key);
    ReadsMissNothing(states, steps, later, key);
    HistoryIsPrefix(states, steps, r.flushing, later.start);
    HistoryIsRecorded(states, steps, r.flushing);
    HistoryIsRecorded(states, steps, later.start);
    forall x | x in Result(states, r, key) ensures Covered(x, Result(states, later, key)) {
      PutsOfPrefix(states[r.flushing].history, states[later.start].history, key, x);
    }
  }
}
