/**
 Crash-safe refinement. In every run without rollbacks, whatever interleaving of commits,
 swaps, flushes, deletions, compactions and crashes it takes, a read of a key returns exactly
 the maximal clocks among the writes acknowledged so far and, after a crash, the prefix of a
 failed batch that its replay brought back.
 */
module EngineRefinement {
  import opened Wrappers
  import opened Sequences
  import opened Versions
  import opened Layers
  import opened Engine

  // The versions put under key, in order.
  function Puts(ws: seq<Write>, key: string): seq<Item> {
    if ws == [] then []
    else
      var w := ws[|ws| - 1];
      Puts(ws[..|ws| - 1], key) + (if w.PutWrite? && w.key == key then [w.item] else [])
  }

  lemma {:induction false} PutsAreWrites(ws: seq<Write>, key: string)
    ensures forall x :: x in Puts(ws, key) <==> PutWrite(key, x) in ws
  {
    if ws != [] {
      var front, last := ws[..|ws| - 1], ws[|ws| - 1];
      PutsAreWrites(front, key);
      assert ws == front + [last];
    }
  }

  predicate PutOnly(ws: seq<Write>) {
    forall w :: w in ws ==> w.PutWrite?
  }

  predicate PutOnlyStep(step: Step) {
    (step.Commit? ==> PutOnly(step.batch)) && (step.CommitFails? ==> PutOnly(step.batch))
  }

  lemma {:induction false} PutsConcat(a: seq<Write>, b: seq<Write>, key: string)
    ensures Puts(a + b, key) == Puts(a, key) + Puts(b, key)
  {
    if b == [] {
      assert a + b == a;
    } else {
      PutsConcat(a, b[..|b| - 1], key);
      assert (a + b)[..|a + b| - 1] == a + b[..|b| - 1];
    }
  }

  // A key's versions after putting items one by one.
  function PutAll(held: seq<Item>, items: seq<Item>): seq<Item> {
    if items == [] then held else PutItems(PutAll(held, items[..|items| - 1]), items[|items| - 1])
  }

  lemma PutsLast(ws: seq<Write>, key: string)
    requires ws != [] && ws[|ws| - 1].PutWrite?
    ensures var front, w := Puts(ws[..|ws| - 1], key), ws[|ws| - 1];
            Puts(ws, key) == if w.key == key then front + [w.item] else front
  {
    NothingBeside([], Puts(ws[..|ws| - 1], key));
  }

  // A log of puts, applied to a memtable, puts each key's items on that key.
  lemma {:induction false} AppliedOnKey(l: Layer, ws: seq<Write>, key: string)
    requires PutOnly(ws)
    ensures Look(ApplyAll(l, ws), key) == PutAll(Look(l, key), Puts(ws, key))
  {
    if ws != [] {
      var front, w := ws[..|ws| - 1], ws[|ws| - 1];
      assert w in ws && forall v :: v in front ==> v in ws;
      AppliedOnKey(l, front, key);
      PutsLast(ws, key);
      if w.key == key { PutAllAppend(Look(l, key), Puts(front, key), w.item); }
    }
  }

  lemma PutAllAppend(held: seq<Item>, items: seq<Item>, x: Item)
    ensures PutAll(held, items + [x]) == PutItems(PutAll(held, items), x)
  {
    assert (items + [x])[..|items|] == items;
  }

  lemma {:induction false} PutAllCovers(held: seq<Item>, items: seq<Item>, y: Item)
    ensures Covered(y, held) || Covered(y, items) ==> Covered(y, PutAll(held, items))
  {
    if items != [] {
      var front, last := items[..|items| - 1], items[|items| - 1];
      PutAllCovers(held, front, y);
      PutItemsCovers(PutAll(held, front), last, y);
      CoveredByEither(y, PutAll(held, front), [last]);
      if Covered(y, items) {
        var x :| x in items && Covers(x, y);
        assert x in front || x == last;
      }
    }
  }

  lemma CoveredByEither(y: Item, a: seq<Item>, b: seq<Item>)
    ensures Covered(y, a + b) <==> Covered(y, a) || Covered(y, b)
  {
  }

  lemma {:induction false} PutAllMembers(held: seq<Item>, items: seq<Item>)
    ensures forall x :: x in PutAll(held, items) ==> x in held || x in items
  {
    if items != [] {
      var front, last := items[..|items| - 1], items[|items| - 1];
      PutAllMembers(held, front);
      PutItemsMembers(PutAll(held, front), last);
      UnbeatenMembers(PutAll(held, front), [last]);
    }
  }

  // Merging a log of puts into a memtable covers what was there and every put, and adds
  // nothing else.
  lemma ApplyPuts(l: Layer, ws: seq<Write>, key: string)
    requires PutOnly(ws)
    ensures CovAll({ApplyAll(l, ws)}, key, Look(l, key) + Puts(ws, key))
    ensures forall x :: x in Look(ApplyAll(l, ws), key) ==> x in Look(l, key) + Puts(ws, key)
  {
    var held, puts, m := Look(l, key), Puts(ws, key), ApplyAll(l, ws);
    AppliedOnKey(l, ws, key);
    PutAllMembers(held, puts);
    forall y | y in held + puts ensures Cov({m}, key, y) {
      assert Covers(y, y);
      PutAllCovers(held, puts, y);
      assert Covered(y, Look(m, key));
    }
  }

  // ---------------------------------------------------------------- the invariant

  // Every version a layer holds for key was put there by the history.
  ghost predicate FromHistory(ls: set<Layer>, key: string, h: seq<Write>) {
    forall l, x :: l in ls && x in Look(l, key) ==> x in Puts(h, key)
  }

  ghost predicate PutsFromHistory(ws: seq<Write>, key: string, h: seq<Write>) {
    forall x :: x in Puts(ws, key) ==> x in Puts(h, key)
  }

  // Every memtable object, a live or listed table, and a merge under way.
  ghost function AllLayers(s: State): set<Layer> {
    s.mem.Values + TableLayers(Listed(s.sstables)) + TableLayers(s.live)
    + (if s.compacting.Some? then {s.compacting.value.merged.data} + TableLayers(Listed(s.compacting.value.sources)) else {})
  }

  // Segments numbered at most n.
  function Through(segs: seq<Segment>, n: nat): seq<Segment> {
    if segs == [] then []
    else Through(segs[..|segs| - 1], n) + Kept(segs[|segs| - 1], n)
  }

  function Kept(seg: Segment, n: nat): seq<Segment> {
    if seg.seqno <= n then [seg] else []
  }

  function LogWrites(s: State): seq<Write> {
    Writes(s.sealedSegs) + s.current.writes
  }

  // Only versions the history put, anywhere.
  ghost predicate Sound(s: State, key: string) {
    && FromHistory(AllLayers(s), key, s.history)
    && PutsFromHistory(Writes(s.deleted), key, s.history)
    && PutsFromHistory(LogWrites(s), key, s.history)
    && PutOnly(Writes(s.deleted)) && PutOnly(LogWrites(s)) && PutOnly(s.torn)
  }

  // Every version of the history is visible, and would survive a crash.
  ghost predicate Complete(s: State, key: string)
    requires WellFormed(s)
  {
    && CovAll(MemoryLayers(s), key, Puts(s.history, key))
    && forall y :: y in Puts(s.history, key) ==>
         Cov(TableLayers(s.live), key, y) || Covered(y, Puts(LogWrites(s), key))
  }

  // What each segment's deletion and each table's retirement rely on.
  ghost predicate Backed(s: State, key: string)
    requires WellFormed(s)
  {
    && CovLayers(TableLayers(s.live), key, TableLayers(Listed(s.sstables)))
    && (s.flushing.Some? ==>
          && s.flushing.value.sealedSeg < s.current.seqno
          && CovAll(TableLayers(s.live) + FrozenLayers(s), key, Puts(Writes(Through(s.sealedSegs, s.flushing.value.sealedSeg)), key))
          && (s.flushing.value.registered.Some? ==>
                && s.flushing.value.registered.value.data == s.mem[s.flushing.value.mem]
                && CovLayers(TableLayers(s.live), key, FrozenLayers(s))))
    && (s.flushedThrough.Some? ==>
          && s.flushedThrough.value < s.current.seqno
          && CovAll(TableLayers(s.live), key, Puts(Writes(Through(s.sealedSegs, s.flushedThrough.value)), key)))
    && (s.compacting.Some? ==>
          var c := s.compacting.value;
          && FoldsInto(c.merged.data, c.sources) && c.merged !in c.sources
          && (c.phase != Picked ==> c.merged in s.live))
  }

  // The log is numbered upwards.
  predicate Numbered(s: State) {
    forall i :: 0 <= i < |s.sealedSegs| ==> s.sealedSegs[i].seqno < s.current.seqno
  }

  ghost predicate Inv(s: State, key: string) {
    WellFormed(s) && Numbered(s) && Sound(s, key) && Complete(s, key) && Backed(s, key)
  }

  // ---------------------------------------------------------------- segments

  lemma {:induction false} ThroughAll(segs: seq<Segment>, n: nat)
    requires forall g :: g in segs ==> g.seqno <= n
    ensures Through(segs, n) == segs
  {
    if segs != [] {
      var front, last := segs[..|segs| - 1], segs[|segs| - 1];
      assert segs == front + [last];
      ThroughAll(front, n);
      assert last in segs && Through(segs, n) == Through(front, n) + [last];
    }
  }

  lemma {:induction false} ThroughMembers(segs: seq<Segment>, n: nat)
    ensures forall g :: g in Through(segs, n) ==> g in segs && g.seqno <= n
  {
    if segs != [] { ThroughMembers(segs[..|segs| - 1], n); }
  }

  lemma {:induction false} ThroughTail(segs: seq<Segment>, n: nat)
    requires segs != []
    ensures Through(segs, n) == Kept(segs[0], n) + Through(segs[1..], n)
  {
    var front, tail := segs[..|segs| - 1], segs[1..];
    if |segs| == 1 {
      assert front == [] && tail == [];
      assert Through(segs, n) == [] + Kept(segs[0], n);
      NothingBeside([], Kept(segs[0], n));
    } else {
      ThroughTail(front, n);
      assert front[1..] == tail[..|tail| - 1];
      ConcatAssociates(Kept(segs[0], n), Through(front[1..], n), Kept(segs[|segs| - 1], n));
    }
  }

  lemma {:induction false} PutsOfMember(segs: seq<Segment>, g: Segment, key: string)
    requires g in segs
    ensures forall x :: x in Puts(g.writes, key) ==> x in Puts(Writes(segs), key)
  {
    var front, last := segs[..|segs| - 1], segs[|segs| - 1];
    PutsConcat(Writes(front), last.writes, key);
    if g != last {
      assert g in front;
      PutsOfMember(front, g, key);
    }
  }

  lemma {:induction false} PutsHaveSegment(segs: seq<Segment>, key: string, x: Item)
    requires x in Puts(Writes(segs), key)
    ensures exists g :: g in segs && x in Puts(g.writes, key)
  {
    if segs != [] {
      var front, last := segs[..|segs| - 1], segs[|segs| - 1];
      PutsConcat(Writes(front), last.writes, key);
      if x in Puts(Writes(front), key) {
        PutsHaveSegment(front, key, x);
        var g :| g in front && x in Puts(g.writes, key);
        assert g in segs;
      } else {
        assert last in segs;
      }
    }
  }

  // ---------------------------------------------------------------- every step keeps it

  lemma InitKeeps(s: State, key: string)
    requires Init(s)
    ensures Inv(s, key)
  {
  }

  lemma HistoryGrows(ls: set<Layer>, key: string, h: seq<Write>, more: seq<Write>)
    requires FromHistory(ls, key, h)
    ensures FromHistory(ls, key, h + more)
    ensures forall ws :: PutsFromHistory(ws, key, h) ==> PutsFromHistory(ws, key, h + more)
  {
    PutsConcat(h, more, key);
  }

  lemma PutsOfConcat(a: seq<Write>, b: seq<Write>, key: string, h: seq<Write>)
    requires PutsFromHistory(a, key, h) && PutsFromHistory(b, key, h)
    ensures PutsFromHistory(a + b, key, h)
  {
    PutsConcat(a, b, key);
  }

  // ---------------------------------------------------------------- layers and what covers them

  lemma CovLayersUnion(ls: set<Layer>, key: string, a: set<Layer>, b: set<Layer>)
    requires CovLayers(ls, key, a) && CovLayers(ls, key, b)
    ensures CovLayers(ls, key, a + b)
  {
  }

  lemma GrownCoverage(fixed: set<Layer>, ts: set<Layer>, ts': set<Layer>, key: string)
    requires CovLayers(ts', key, ts)
    ensures CovLayers(fixed + ts', key, fixed + ts)
  {
    CovLayersReflexive(fixed + ts', fixed, key);
    CovLayersReflexive(fixed + ts', ts', key);
    CovLayersTransitive(fixed + ts', ts', ts, key);
    CovLayersUnion(fixed + ts', key, fixed, ts);
  }

  // The layers a commit leaves alone.
  ghost function Others(s: State): set<Layer>
    requires WellFormed(s)
  {
    FrozenLayers(s) + TableLayers(Listed(s.sstables))
  }

  lemma ActiveAndOthers(s: State)
    requires WellFormed(s)
    ensures MemoryLayers(s) == {s.mem[s.active]} + Others(s)
  {
  }

  lemma CommitLayers(s: State, batch: seq<Write>, s': State)
    requires WellFormed(s) && Next(s, Commit(batch), s')
    ensures WellFormed(s') && s'.mem[s'.active] == ApplyAll(s.mem[s.active], batch) && Others(s') == Others(s)
  {
    assert FrozenLayers(s') == FrozenLayers(s);
  }

  lemma CommittedLog(s: State, batch: seq<Write>, s': State)
    requires s'.sealedSegs == s.sealedSegs && s'.current.writes == s.current.writes + batch
    ensures LogWrites(s') == LogWrites(s) + batch
  {
    ConcatAssociates(Writes(s.sealedSegs), s.current.writes, batch);
  }

  lemma CommitSound(s: State, batch: seq<Write>, s': State, key: string)
    requires Inv(s, key) && PutOnly(batch) && Next(s, Commit(batch), s')
    ensures Sound(s', key)
  {
    var l, l' := s.mem[s.active], s'.mem[s.active];
    HistoryGrows(AllLayers(s), key, s.history, batch);
    ApplyPuts(l, batch, key);
    PutsConcat(s.history, batch, key);
    assert l in AllLayers(s);
    forall m, x | m in AllLayers(s') && x in Look(m, key) ensures x in Puts(s'.history, key) {
      if m != l' { assert m in AllLayers(s); }
    }
    CommittedLog(s, batch, s');
    PutsOfConcat(LogWrites(s), batch, key, s'.history);
  }

  lemma CommitComplete(s: State, batch: seq<Write>, s': State, key: string)
    requires Inv(s, key) && PutOnly(batch) && Next(s, Commit(batch), s')
    ensures Complete(s', key)
  {
    var l', m' := s'.mem[s.active], MemoryLayers(s');
    CommitCoverage(s, batch, s', key);
    CovAllTransitive(MemoryLayers(s), m', key, Puts(s.history, key));
    PutsConcat(s.history, batch, key);
    CommittedLog(s, batch, s');
    forall y ensures Covered(y, Puts(LogWrites(s), key)) || y in Puts(batch, key) ==> Covered(y, Puts(LogWrites(s'), key)) {
      LogGrows(LogWrites(s), batch, key, y);
    }
  }

  lemma LogGrows(log: seq<Write>, batch: seq<Write>, key: string, y: Item)
    ensures Covered(y, Puts(log, key)) || y in Puts(batch, key) ==> Covered(y, Puts(log + batch, key))
  {
    PutsConcat(log, batch, key);
    assert Covers(y, y);
    if Covered(y, Puts(log, key)) {
      var x :| x in Puts(log, key) && Covers(x, y);
      assert x in Puts(log + batch, key);
    }
  }

  lemma CommitCoverage(s: State, batch: seq<Write>, s': State, key: string)
    requires WellFormed(s) && PutOnly(batch) && Next(s, Commit(batch), s')
    ensures CovLayers(MemoryLayers(s'), key, MemoryLayers(s))
    ensures CovAll(MemoryLayers(s'), key, Puts(batch, key))
  {
    var l, l' := s.mem[s.active], ApplyAll(s.mem[s.active], batch);
    ApplyPuts(l, batch, key);
    CommitLayers(s, batch, s');
    ActiveAndOthers(s);
    ActiveAndOthers(s');
    assert CovLayers({l'}, key, {l});
    GrownCoverage(Others(s), {l}, {l'}, key);
    assert Others(s) + {l} == {l} + Others(s) && Others(s) + {l'} == {l'} + Others(s);
    forall y | y in Puts(batch, key) ensures Cov(MemoryLayers(s'), key, y) {
      CovGrows({l'}, MemoryLayers(s'), key, y);
    }
  }

  lemma CommitKeeps(s: State, batch: seq<Write>, s': State, key: string)
    requires Inv(s, key) && PutOnly(batch) && Next(s, Commit(batch), s')
    ensures Inv(s', key)
  {
    CommitSound(s, batch, s', key);
    CommitComplete(s, batch, s', key);
    assert FrozenLayers(s') == FrozenLayers(s);
  }

  // Sealing the current segment moves no write and no boundary below it.
  lemma SealKeepsLog(s: State, s': State, n: nat, key: string)
    requires s'.sealedSegs == s.sealedSegs + [s.current] && s'.current == Segment(s.current.seqno + 1, [])
    ensures LogWrites(s') == LogWrites(s)
    ensures n < s.current.seqno ==> Through(s'.sealedSegs, n) == Through(s.sealedSegs, n)
  {
    assert s'.sealedSegs[..|s.sealedSegs|] == s.sealedSegs;
  }

  lemma RotateKeeps(s: State, s': State, key: string)
    requires Inv(s, key) && Next(s, RotateOnly, s')
    ensures Inv(s', key)
  {
    SealKeepsLog(s, s', if s.flushing.Some? then s.flushing.value.sealedSeg else 0, key);
    SealKeepsLog(s, s', if s.flushedThrough.Some? then s.flushedThrough.value else 0, key);
    assert AllLayers(s') == AllLayers(s);
    assert MemoryLayers(s') == MemoryLayers(s);
    assert FrozenLayers(s') == FrozenLayers(s);
  }

  lemma SwapBacked(s: State, newMem: nat, s': State, key: string)
    requires Inv(s, key) && Next(s, Swap(newMem), s')
    ensures Backed(s', key)
  {
    var live, frozen := TableLayers(s.live), FrozenLayers(s');
    assert frozen == {s.mem[s.active]};
    SealKeepsLog(s, s', if s.flushedThrough.Some? then s.flushedThrough.value else 0, key);
    ThroughAll(s'.sealedSegs, s.current.seqno);
    assert Writes(s'.sealedSegs) == LogWrites(s) by { assert LogWrites(s') == Writes(s'.sealedSegs); }
    CovLayersReflexive(live + frozen, frozen, key);
    forall m | m in MemoryLayers(s) ensures CovAll(live + frozen, key, Look(m, key)) {
      if m !in frozen {
        assert CovAll(live, key, Look(m, key));
        forall y | y in Look(m, key) ensures Cov(live + frozen, key, y) { CovGrows(live, live + frozen, key, y); }
      }
    }
    CovAllTransitive(MemoryLayers(s), live + frozen, key, Puts(s.history, key));
  }

  lemma SwapKeeps(s: State, newMem: nat, s': State, key: string)
    requires Inv(s, key) && Next(s, Swap(newMem), s')
    ensures Inv(s', key)
  {
    SwapBacked(s, newMem, s', key);
    SealKeepsLog(s, s', 0, key);
    forall l, x | l in AllLayers(s') && x in Look(l, key) ensures x in Puts(s'.history, key) {
      assert l in AllLayers(s) || l == map[];
    }
    assert MemoryLayers(s) <= MemoryLayers(s');
    forall y | y in Puts(s.history, key) ensures Cov(MemoryLayers(s'), key, y) {
      CovGrows(MemoryLayers(s), MemoryLayers(s'), key, y);
    }
  }

  // Changes to what is live that lose no coverage.
  lemma LiveChanges(s: State, s': State, key: string)
    requires Inv(s, key) && WellFormed(s')
    requires s' == s.(live := s'.live, strays := s'.strays, flushing := s'.flushing, compacting := s'.compacting)
    requires s'.flushing.Some? == s.flushing.Some?
    requires s.flushing.Some? ==> s'.flushing.value.mem == s.flushing.value.mem && s'.flushing.value.sealedSeg == s.flushing.value.sealedSeg
    requires s.flushing.Some? && s'.flushing.value.registered.Some? ==>
               && s'.flushing.value.registered.value.data == s.mem[s.flushing.value.mem]
               && CovLayers(TableLayers(s'.live), key, FrozenLayers(s))
    requires s'.compacting.Some? ==>
               var c := s'.compacting.value;
               FoldsInto(c.merged.data, c.sources) && c.merged !in c.sources && (c.phase != Picked ==> c.merged in s'.live)
    requires CovLayers(TableLayers(s'.live), key, TableLayers(s.live))
    requires FromHistory(AllLayers(s'), key, s.history)
    ensures Inv(s', key)
  {
    var a, b, f := TableLayers(s.live), TableLayers(s'.live), FrozenLayers(s);
    assert MemoryLayers(s') == MemoryLayers(s) && FrozenLayers(s') == f;
    CovLayersTransitive(b, a, TableLayers(Listed(s.sstables)), key);
    CovLayersReflexive(b + f, f, key);
    forall m | m in a + f ensures CovAll(b + f, key, Look(m, key)) {
      if m in a {
        assert CovAll(b, key, Look(m, key));
        forall y | y in Look(m, key) ensures Cov(b + f, key, y) { CovGrows(b, b + f, key, y); }
      }
    }
    if s.flushing.Some? {
      CovAllTransitive(a + f, b + f, key, Puts(Writes(Through(s.sealedSegs, s.flushing.value.sealedSeg)), key));
    }
    if s.flushedThrough.Some? {
      CovAllTransitive(a, b, key, Puts(Writes(Through(s.sealedSegs, s.flushedThrough.value)), key));
    }
    forall y | y in Puts(s.history, key) && Cov(a, key, y) ensures Cov(b, key, y) { CovTransitive(a, b, key, y); }
  }

  lemma RegisterKeeps(s: State, id: nat, s': State, key: string)
    requires Inv(s, key) && Next(s, FlushRegisters(id), s')
    ensures Inv(s', key)
  {
    var f := s.mem[s.flushing.value.mem];
    assert LayerTable(id, f) in s'.live && f in TableLayers(s'.live);
    assert TableLayers(s.live) <= TableLayers(s'.live);
    CovLayersReflexive(TableLayers(s'.live), TableLayers(s.live), key);
    CovLayersReflexive(TableLayers(s'.live), FrozenLayers(s), key);
    assert f in AllLayers(s);
    forall l | l in AllLayers(s') ensures l in AllLayers(s) { }
    LiveChanges(s, s', key);
  }

  lemma ListedCons(t: LayerTable, ts: seq<LayerTable>)
    ensures TableLayers(Listed([t] + ts)) == {t.data} + TableLayers(Listed(ts))
  {
    assert Listed([t] + ts) == {t} + Listed(ts);
    TableLayersAdd(t, Listed(ts));
  }

  // Installing a flushed table changes where its versions are read from, not what is read.
  lemma InstallLayers(s: State, s': State)
    requires WellFormed(s) && Next(s, FlushInstalls, s')
    requires s.flushing.value.registered.value.data == s.mem[s.flushing.value.mem]
    ensures TableLayers(Listed(s'.sstables)) == FrozenLayers(s) + TableLayers(Listed(s.sstables))
    ensures MemoryLayers(s') == MemoryLayers(s)
  {
    ListedCons(s.flushing.value.registered.value, s.sstables);
    assert FrozenLayers(s') == {};
  }

  lemma InstallSound(s: State, s': State, key: string)
    requires Inv(s, key) && Next(s, FlushInstalls, s')
    ensures Sound(s', key)
  {
    InstallLayers(s, s');
    assert s.mem[s.flushing.value.mem] in s.mem.Values;
    assert AllLayers(s') <= AllLayers(s);
  }

  lemma InstallBacked(s: State, s': State, key: string)
    requires Inv(s, key) && Next(s, FlushInstalls, s')
    ensures Backed(s', key)
  {
    var live, frozen, n := TableLayers(s.live), FrozenLayers(s), s.flushing.value.sealedSeg;
    InstallLayers(s, s');
    CovLayersReflexive(live, live, key);
    CovLayersUnion(live, key, live, frozen);
    CovLayersUnion(live, key, frozen, TableLayers(Listed(s.sstables)));
    CovAllTransitive(live + frozen, live, key, Puts(Writes(Through(s.sealedSegs, n)), key));
  }

  lemma InstallKeeps(s: State, s': State, key: string)
    requires Inv(s, key) && Next(s, FlushInstalls, s')
    ensures Inv(s', key)
  {
    InstallSound(s, s', key);
    InstallBacked(s, s', key);
    InstallLayers(s, s');
  }

  lemma TableLayersAdd(t: LayerTable, ts: set<LayerTable>)
    ensures TableLayers({t} + ts) == {t.data} + TableLayers(ts)
  {
  }

  // A failed flush's versions go back behind the newer ones without a read noticing.
  lemma PutBackFacts(a: Layer, f: Layer, key: string)
    ensures CovLayers({PutBackLayer(a, f)}, key, {a, f})
    ensures forall x :: x in Look(PutBackLayer(a, f), key) ==> x in Look(a, key) || x in Look(f, key)
  {
    var p := PutBackLayer(a, f);
    MergeMembers(Look(a, key), Look(f, key));
    MergeCoversBoth(Look(a, key), Look(f, key));
    assert key !in f ==> Look(p, key) == Look(a, key);
    forall m | m in {a, f} ensures CovAll({p}, key, Look(m, key)) {
      forall y | y in Look(m, key) ensures Cov({p}, key, y) {
        if key in f {
          assert y in Look(a, key) + Look(f, key);
          assert Covered(y, Look(p, key));
        } else {
          CovItself({p}, key, p, y);
        }
      }
    }
  }

  // The versions put back are read from the active memtable instead.
  lemma PutBackCovers(s: State, s': State, key: string)
    requires WellFormed(s) && Next(s, FlushFails, s')
    ensures WellFormed(s') && CovLayers(MemoryLayers(s'), key, MemoryLayers(s))
  {
    var a, f, p := s.mem[s.active], s.mem[s.flushing.value.mem], s'.mem[s.active];
    var m' := MemoryLayers(s');
    PutBackFacts(a, f, key);
    CovLayersReflexive(m', TableLayers(Listed(s.sstables)), key);
    forall n | n in {a, f} ensures CovAll(m', key, Look(n, key)) {
      forall y | y in Look(n, key) ensures Cov(m', key, y) {
        assert CovAll({p}, key, Look(n, key));
        CovGrows({p}, m', key, y);
      }
    }
    CovLayersUnion(m', key, {a, f}, TableLayers(Listed(s.sstables)));
    assert MemoryLayers(s) == {a, f} + TableLayers(Listed(s.sstables));
  }

  lemma FlushFailsSound(s: State, s': State, key: string)
    requires Inv(s, key) && Next(s, FlushFails, s')
    ensures Sound(s', key)
  {
    var a, f, p := s.mem[s.active], s.mem[s.flushing.value.mem], s'.mem[s.active];
    PutBackFacts(a, f, key);
    assert a in AllLayers(s) && f in AllLayers(s);
    forall l, x | l in AllLayers(s') && x in Look(l, key) ensures x in Puts(s.history, key) {
      if l != p { assert l in AllLayers(s); }
    }
  }

  lemma FlushFailsKeeps(s: State, s': State, key: string)
    requires Inv(s, key) && Next(s, FlushFails, s')
    ensures Inv(s', key)
  {
    FlushFailsSound(s, s', key);
    PutBackCovers(s, s', key);
    CovAllTransitive(MemoryLayers(s), MemoryLayers(s'), key, Puts(s.history, key));
  }

  /** No segment is deleted while it holds a version the live SSTables do not cover. */
  lemma DeletedIsCovered(s: State, s': State, key: string)
    requires Inv(s, key) && Next(s, DeleteOldest, s')
    ensures CovAll(TableLayers(s.live), key, Puts(s.sealedSegs[0].writes, key))
  {
    var n := s.flushedThrough.value;
    ThroughTail(s.sealedSegs, n);
    PutsOfMember(Through(s.sealedSegs, n), s.sealedSegs[0], key);
  }

  lemma TailOfLog(s: State, s': State, key: string)
    requires s.sealedSegs != [] && s'.sealedSegs == s.sealedSegs[1..] && s'.current == s.current
    ensures LogWrites(s) == s.sealedSegs[0].writes + LogWrites(s')
    ensures Puts(LogWrites(s), key) == Puts(s.sealedSegs[0].writes, key) + Puts(LogWrites(s'), key)
  {
    var g, tail := s.sealedSegs[0], s'.sealedSegs;
    assert Writes(s.sealedSegs) == g.writes + Writes(tail) by {
      assert s.sealedSegs == [g] + tail;
      WritesConcat([g], tail);
      WritesOne(g);
    }
    assert (g.writes + Writes(tail)) + s.current.writes == g.writes + (Writes(tail) + s.current.writes);
    PutsConcat(g.writes, LogWrites(s'), key);
  }

  lemma DeleteSound(s: State, s': State, key: string)
    requires Inv(s, key) && Next(s, DeleteOldest, s')
    ensures Sound(s', key)
  {
    var g := s.sealedSegs[0];
    TailOfLog(s, s', key);
    assert Writes(s'.deleted) == Writes(s.deleted) + g.writes by {
      WritesConcat(s.deleted, [g]);
      WritesOne(g);
    }
    PutsConcat(Writes(s.deleted), g.writes, key);
    assert AllLayers(s') == AllLayers(s);
    assert forall w :: w in g.writes ==> w in LogWrites(s);
    assert forall w :: w in LogWrites(s') ==> w in LogWrites(s);
  }

  lemma DeleteComplete(s: State, s': State, key: string)
    requires Inv(s, key) && Next(s, DeleteOldest, s')
    ensures Complete(s', key)
  {
    var g := s.sealedSegs[0];
    TailOfLog(s, s', key);
    DeletedIsCovered(s, s', key);
    assert MemoryLayers(s') == MemoryLayers(s);
    forall y | y in Puts(s.history, key)
      ensures Cov(TableLayers(s.live), key, y) || Covered(y, Puts(LogWrites(s'), key))
    {
      if Covered(y, Puts(LogWrites(s), key)) {
        var x :| x in Puts(LogWrites(s), key) && Covers(x, y);
        if x in Puts(g.writes, key) {
          CovBelow(TableLayers(s.live), key, x, y);
        } else {
          assert Covered(y, Puts(LogWrites(s'), key));
        }
      }
    }
  }

  lemma ThroughOfTail(segs: seq<Segment>, n: nat, key: string)
    requires segs != []
    ensures forall x :: x in Puts(Writes(Through(segs[1..], n)), key) ==> x in Puts(Writes(Through(segs, n)), key)
  {
    ThroughTail(segs, n);
    if segs[0].seqno <= n {
      WritesConcat([segs[0]], Through(segs[1..], n));
      PutsConcat(Writes([segs[0]]), Writes(Through(segs[1..], n)), key);
    } else {
      assert [] + Through(segs[1..], n) == Through(segs[1..], n);
    }
  }

  // What covers the versions of a log's older segments covers those of its tail's.
  lemma TailStaysCovered(ls: set<Layer>, segs: seq<Segment>, n: nat, key: string)
    requires segs != [] && CovAll(ls, key, Puts(Writes(Through(segs, n)), key))
    ensures CovAll(ls, key, Puts(Writes(Through(segs[1..], n)), key))
  {
    ThroughOfTail(segs, n, key);
  }

  lemma DeleteNumbered(s: State, s': State)
    requires WellFormed(s) && Numbered(s) && Next(s, DeleteOldest, s')
    ensures WellFormed(s') && Numbered(s')
  {
    forall i | 0 <= i < |s'.sealedSegs| ensures s'.sealedSegs[i].seqno < s'.current.seqno {
      assert s'.sealedSegs[i] == s.sealedSegs[i + 1];
    }
  }

  lemma DeleteBacked(s: State, s': State, key: string)
    requires WellFormed(s) && WellFormed(s') && Backed(s, key) && Next(s, DeleteOldest, s')
    ensures Backed(s', key)
  {
    var live, segs := TableLayers(s.live), s.sealedSegs;
    TailStaysCovered(live, segs, s.flushedThrough.value, key);
    if s.flushing.Some? {
      assert FrozenLayers(s') == FrozenLayers(s);
      TailStaysCovered(live + FrozenLayers(s), segs, s.flushing.value.sealedSeg, key);
    }
  }

  lemma DeleteKeeps(s: State, s': State, key: string)
    requires Inv(s, key) && Next(s, DeleteOldest, s')
    ensures Inv(s', key)
  {
    assert WellFormed(s') && Numbered(s') by { DeleteNumbered(s, s'); }
    assert Sound(s', key) by { DeleteSound(s, s', key); }
    assert Complete(s', key) by { DeleteComplete(s, s', key); }
    assert Backed(s', key) by { DeleteBacked(s, s', key); }
  }

  lemma PickKeeps(s: State, lo: nat, hi: nat, id: nat, s': State, key: string)
    requires Inv(s, key) && Next(s, CompactPicks(lo, hi, id), s')
    ensures Inv(s', key)
  {
    var c := s'.compacting.value;
    MergedFacts(c.merged.data, c.sources, key);
    assert forall t :: t in c.sources ==> t in Listed(s.sstables);
    forall l, x | l in AllLayers(s') && x in Look(l, key) ensures x in Puts(s.history, key) {
      if l == c.merged.data {
        var t :| t in c.sources && x in Look(t.data, key);
        assert t.data in AllLayers(s);
      } else if l in TableLayers(Listed(c.sources)) {
        assert l in AllLayers(s);
      } else {
        assert l in AllLayers(s);
      }
    }
    CovLayersReflexive(TableLayers(s.live), TableLayers(s.live), key);
    LiveChanges(s, s', key);
  }

  lemma AddKeeps(s: State, s': State, key: string)
    requires Inv(s, key) && Next(s, CompactAdds, s')
    ensures Inv(s', key)
  {
    var c := s.compacting.value;
    TableLayersAdd(c.merged, s.live);
    assert s'.live == {c.merged} + s.live;
    CovLayersReflexive(TableLayers(s'.live), TableLayers(s.live), key);
    forall l | l in AllLayers(s') ensures l in AllLayers(s) { }
    if s.flushing.Some? && s.flushing.value.registered.Some? {
      CovLayersTransitive(TableLayers(s'.live), TableLayers(s.live), FrozenLayers(s), key);
    }
    LiveChanges(s, s', key);
  }

  // Dropping a merge's sources from the manifest loses nothing: the merge covers them.
  lemma RemoveKeepsCoverage(s: State, s': State, key: string)
    requires Inv(s, key) && Next(s, CompactRemoves, s')
    ensures CovLayers(TableLayers(s'.live), key, TableLayers(s.live))
  {
    var c, live' := s.compacting.value, TableLayers(s'.live);
    MergedFacts(c.merged.data, c.sources, key);
    assert c.merged in s'.live && c.merged.data in live';
    forall m | m in TableLayers(s.live) ensures CovAll(live', key, Look(m, key)) {
      var t :| t in s.live && t.data == m;
      forall y | y in Look(m, key) ensures Cov(live', key, y) {
        if t in c.sources {
          assert t in Listed(c.sources);
          assert CovAll({c.merged.data}, key, Look(m, key));
          CovGrows({c.merged.data}, live', key, y);
        } else {
          assert t in s'.live;
          CovItself(live', key, m, y);
        }
      }
    }
  }

  lemma RemoveKeeps(s: State, s': State, key: string)
    requires Inv(s, key) && Next(s, CompactRemoves, s')
    ensures Inv(s', key)
  {
    RemoveKeepsCoverage(s, s', key);
    forall l | l in AllLayers(s') ensures l in AllLayers(s) { }
    if s.flushing.Some? && s.flushing.value.registered.Some? {
      CovLayersTransitive(TableLayers(s'.live), TableLayers(s.live), FrozenLayers(s), key);
    }
    LiveChanges(s, s', key);
  }

  lemma SwapInTables(s: State, place: nat, s': State, key: string)
    requires WellFormed(s) && Next(s, CompactSwaps(place), s')
    requires FoldsInto(s.compacting.value.merged.data, s.compacting.value.sources)
    ensures CovLayers(TableLayers(Listed(s'.sstables)), key, TableLayers(Listed(s.sstables)))
  {
    var c, ts' := s.compacting.value, TableLayers(Listed(s'.sstables));
    MergedFacts(c.merged.data, c.sources, key);
    assert s'.sstables[place] == c.merged;
    assert c.merged in Listed(s'.sstables) && c.merged.data in ts';
    SplicedMembers(s.sstables, place, c.sources, c.merged);
    forall m | m in TableLayers(Listed(s.sstables)) ensures CovAll(ts', key, Look(m, key)) {
      var t :| t in Listed(s.sstables) && t.data == m;
      forall y | y in Look(m, key) ensures Cov(ts', key, y) {
        if t in c.sources {
          assert t in Listed(c.sources);
          assert CovAll({c.merged.data}, key, Look(m, key));
          CovGrows({c.merged.data}, ts', key, y);
        } else {
          assert t in Listed(s'.sstables);
          CovItself(ts', key, m, y);
        }
      }
    }
  }

  lemma SwapInCoverage(s: State, place: nat, s': State, key: string)
    requires WellFormed(s) && Next(s, CompactSwaps(place), s')
    requires FoldsInto(s.compacting.value.merged.data, s.compacting.value.sources)
    ensures WellFormed(s')
    ensures CovLayers(MemoryLayers(s'), key, MemoryLayers(s))
    ensures forall t :: t in Listed(s'.sstables) ==> t == s.compacting.value.merged || t in Listed(s.sstables)
  {
    var c, fixed := s.compacting.value, {s.mem[s.active]} + FrozenLayers(s);
    SwapInTables(s, place, s', key);
    GrownCoverage(fixed, TableLayers(Listed(s.sstables)), TableLayers(Listed(s'.sstables)), key);
    SplicedMembers(s.sstables, place, c.sources, c.merged);
  }

  lemma SplicedMembers(ts: seq<LayerTable>, place: nat, run: seq<LayerTable>, merged: LayerTable)
    requires place + |run| <= |ts| && ts[place..place + |run|] == run
    ensures var out := ts[..place] + [merged] + ts[place + |run|..];
            && (forall t :: t in out ==> t == merged || t in ts)
            && (forall t :: t in ts ==> t in out || t in run)
  {
    var out := ts[..place] + [merged] + ts[place + |run|..];
    assert ts == ts[..place] + run + ts[place + |run|..];
  }

  lemma SwapInKeeps(s: State, place: nat, s': State, key: string)
    requires Inv(s, key) && Next(s, CompactSwaps(place), s')
    ensures Inv(s', key)
  {
    var c, live := s.compacting.value, TableLayers(s.live);
    SwapInCoverage(s, place, s', key);
    CovAllTransitive(MemoryLayers(s), MemoryLayers(s'), key, Puts(s.history, key));
    forall l | l in AllLayers(s') ensures l in AllLayers(s) {
      if l in TableLayers(Listed(s'.sstables)) {
        var t :| t in Listed(s'.sstables) && t.data == l;
        assert t == c.merged || t in Listed(s.sstables);
      }
    }
    assert FrozenLayers(s') == FrozenLayers(s);
    CovLayersReflexive(live, live, key);
    forall m | m in TableLayers(Listed(s'.sstables)) ensures CovAll(live, key, Look(m, key)) {
      var t :| t in Listed(s'.sstables) && t.data == m;
      if t == c.merged { assert c.merged.data in live; } else { assert m in TableLayers(Listed(s.sstables)); }
    }
  }

  lemma StopKeeps(s: State, s': State, key: string)
    requires Inv(s, key) && Next(s, CompactStops, s')
    ensures Inv(s', key)
  {
    assert AllLayers(s') <= AllLayers(s);
    CovLayersReflexive(TableLayers(s.live), TableLayers(s.live), key);
    LiveChanges(s, s', key);
  }

  // ---------------------------------------------------------------- crash and replay

  function DiskSegments(s: State, lost: nat): seq<Segment>
    requires lost <= |s.deleted|
  {
    s.deleted[lost..] + s.sealedSegs + [s.current.(writes := s.current.writes + s.torn)]
  }

  lemma Regroup(a: seq<Write>, b: seq<Write>, c: seq<Write>, d: seq<Write>)
    ensures (a + b) + (c + d) == a + (b + c) + d
  {
  }

  // What is replayed: the deletions that did not last, the log, and what a failed batch left.
  lemma DiskWrites(s: State, lost: nat)
    requires lost <= |s.deleted|
    ensures Writes(DiskSegments(s, lost)) == Writes(s.deleted[lost..]) + LogWrites(s) + s.torn
  {
    var back, last := s.deleted[lost..], s.current.(writes := s.current.writes + s.torn);
    WritesConcat(back + s.sealedSegs, [last]);
    WritesConcat(back, s.sealedSegs);
    WritesOne(last);
    Regroup(Writes(back), Writes(s.sealedSegs), s.current.writes, s.torn);
  }

  lemma DeletedWrites(s: State, lost: nat)
    requires lost <= |s.deleted|
    ensures Writes(s.deleted) == Writes(s.deleted[..lost]) + Writes(s.deleted[lost..])
  {
    assert s.deleted == s.deleted[..lost] + s.deleted[lost..];
    WritesConcat(s.deleted[..lost], s.deleted[lost..]);
  }

  lemma ReplayedPuts(s: State, lost: nat, key: string)
    requires Inv(s, key) && lost <= |s.deleted|
    ensures PutOnly(Writes(DiskSegments(s, lost)))
    ensures PutsFromHistory(Writes(DiskSegments(s, lost)), key, s.history + s.torn)
    ensures forall x :: x in Puts(LogWrites(s), key) || x in Puts(s.torn, key) ==> x in Puts(Writes(DiskSegments(s, lost)), key)
  {
    var back := Writes(s.deleted[lost..]);
    DiskWrites(s, lost);
    DeletedWrites(s, lost);
    assert forall w :: w in back ==> w in Writes(s.deleted);
    PutsConcat(Writes(s.deleted[..lost]), back, key);
    PutsConcat(back + LogWrites(s), s.torn, key);
    PutsConcat(back, LogWrites(s), key);
    PutsConcat(s.history, s.torn, key);
  }

  lemma CrashSound(s: State, lost: nat, listing: seq<LayerTable>, s': State, key: string)
    requires Inv(s, key) && Next(s, Crash(lost, listing), s')
    ensures Sound(s', key)
  {
    var segs := DiskSegments(s, lost);
    ReplayedPuts(s, lost, key);
    WritesNonEmpty(segs);
    assert LogWrites(s') == Writes(segs);
    CrashLayers(s, lost, listing, s', key);
  }

  lemma CrashLayers(s: State, lost: nat, listing: seq<LayerTable>, s': State, key: string)
    requires Inv(s, key) && Next(s, Crash(lost, listing), s')
    ensures FromHistory(AllLayers(s'), key, s'.history)
  {
    var replayed := Writes(DiskSegments(s, lost));
    ReplayedPuts(s, lost, key);
    ApplyPuts(map[], replayed, key);
    HistoryGrows(AllLayers(s), key, s.history, s.torn);
    ListedIsLive(listing, s.live);
    assert AllLayers(s') <= {Replay(replayed)} + AllLayers(s);
  }

  lemma ListedIsLive(listing: seq<LayerTable>, live: set<LayerTable>)
    requires forall t :: t in listing <==> t in live
    ensures Listed(listing) == live
  {
  }

  lemma NoneBefore(none: seq<Write>, ws: seq<Write>)
    requires none == []
    ensures none + ws == ws && ws + none == ws
  {
  }

  lemma UnionNone(ls: set<Layer>)
    ensures ls + {} == ls
  {
  }

  lemma CrashLog(s: State, lost: nat, listing: seq<LayerTable>, s': State)
    requires WellFormed(s) && Next(s, Crash(lost, listing), s')
    ensures LogWrites(s') == Writes(DiskSegments(s, lost))
  {
    WritesNonEmpty(DiskSegments(s, lost));
    NoneBefore(s'.current.writes, Writes(s'.sealedSegs));
  }

  // The state a reopen builds: one memtable replayed from the log, over the live tables.
  lemma CrashRebuilds(s: State, lost: nat, listing: seq<LayerTable>, s': State)
    requires WellFormed(s) && Next(s, Crash(lost, listing), s')
    ensures WellFormed(s') && LogWrites(s') == Writes(DiskSegments(s, lost)) && s'.live == s.live
    ensures MemoryLayers(s') == {Replay(LogWrites(s'))} + TableLayers(s.live)
  {
    CrashLog(s, lost, listing, s');
    ListedIsLive(listing, s.live);
    UnionNone({s'.mem[s'.active]});
  }

  lemma CrashComplete(s: State, lost: nat, listing: seq<LayerTable>, s': State, key: string)
    requires Inv(s, key) && Next(s, Crash(lost, listing), s')
    ensures Complete(s', key)
  {
    var live := TableLayers(s.live);
    CrashRebuilds(s, lost, listing, s');
    forall y | y in Puts(s'.history, key)
      ensures Cov(MemoryLayers(s'), key, y) && (Cov(live, key, y) || Covered(y, Puts(LogWrites(s'), key)))
    {
      SurvivesCrash(s, lost, key, y);
    }
  }

  // Each version of the history is in a live table or is replayed.
  lemma SurvivesCrash(s: State, lost: nat, key: string, y: Item)
    requires Inv(s, key) && lost <= |s.deleted| && y in Puts(s.history + s.torn, key)
    ensures var replayed, live := Writes(DiskSegments(s, lost)), TableLayers(s.live);
            && Cov({Replay(replayed)} + live, key, y)
            && (Cov(live, key, y) || Covered(y, Puts(replayed, key)))
  {
    var replayed, live := Writes(DiskSegments(s, lost)), TableLayers(s.live);
    var m := Replay(replayed);
    PutsConcat(s.history, s.torn, key);
    if y in Puts(s.history, key) && Cov(live, key, y) {
      CovGrows(live, {m} + live, key, y);
    } else {
      ReplayedPuts(s, lost, key);
      assert Covers(y, y);
      var x :| x in Puts(replayed, key) && Covers(x, y);
      ApplyPuts(map[], replayed, key);
      assert x in Look(map[], key) + Puts(replayed, key);
      CovBelow({m}, key, x, y);
      CovGrows({m}, {m} + live, key, y);
    }
  }

  lemma CrashKeeps(s: State, lost: nat, listing: seq<LayerTable>, s': State, key: string)
    requires Inv(s, key) && Next(s, Crash(lost, listing), s') && DeletedNumbered(s)
    ensures Inv(s', key)
  {
    CrashSound(s, lost, listing, s', key);
    CrashComplete(s, lost, listing, s', key);
    CrashBacked(s, lost, listing, s', key);
    CrashNumbered(s, lost, listing, s');
  }

  lemma CrashBacked(s: State, lost: nat, listing: seq<LayerTable>, s': State, key: string)
    requires WellFormed(s) && Next(s, Crash(lost, listing), s')
    ensures WellFormed(s') && Backed(s', key)
  {
    ListedIsLive(listing, s.live);
    CovLayersReflexive(TableLayers(s.live), TableLayers(s.live), key);
  }

  lemma CrashNumbered(s: State, lost: nat, listing: seq<LayerTable>, s': State)
    requires WellFormed(s) && Next(s, Crash(lost, listing), s') && DeletedNumbered(s) && Numbered(s)
    ensures Numbered(s')
  {
    var segs := DiskSegments(s, lost);
    NonEmptyMembers(segs);
    forall g | g in segs ensures g.seqno < s'.current.seqno {
      if g in s.deleted[lost..] { assert g in s.deleted; }
    }
    forall i | 0 <= i < |s'.sealedSegs| ensures s'.sealedSegs[i].seqno < s'.current.seqno {
      assert s'.sealedSegs[i] in NonEmpty(segs);
    }
  }

  predicate DeletedNumbered(s: State) {
    forall i :: 0 <= i < |s.deleted| ==> s.deleted[i].seqno < s.current.seqno
  }

  lemma NumberingKept(s: State, step: Step, s': State, key: string)
    requires Inv(s, key) && DeletedNumbered(s) && Next(s, step, s')
    ensures DeletedNumbered(s')
  {
  }

  lemma StepKeeps(s: State, step: Step, s': State, key: string)
    requires Inv(s, key) && DeletedNumbered(s) && PutOnlyStep(step) && Next(s, step, s')
    ensures Inv(s', key) && DeletedNumbered(s')
  {
    NumberingKept(s, step, s', key);
    match step
    case Commit(batch) => CommitKeeps(s, batch, s', key);
    case CommitFails(batch, onDisk) =>
      assert AllLayers(s') == AllLayers(s) && MemoryLayers(s') == MemoryLayers(s);
      assert FrozenLayers(s') == FrozenLayers(s);
    case RotateOnly => RotateKeeps(s, s', key);
    case Swap(newMem) => SwapKeeps(s, newMem, s', key);
    case FlushRegisters(id) => RegisterKeeps(s, id, s', key);
    case FlushInstalls => InstallKeeps(s, s', key);
    case FlushFails => FlushFailsKeeps(s, s', key);
    case DeleteOldest => DeleteKeeps(s, s', key);
    case CompactPicks(lo, hi, id) => PickKeeps(s, lo, hi, id, s', key);
    case CompactAdds => AddKeeps(s, s', key);
    case CompactRemoves => RemoveKeeps(s, s', key);
    case CompactSwaps(place) => SwapInKeeps(s, place, s', key);
    case CompactStops => StopKeeps(s, s', key);
    case Crash(lost, listing) => CrashKeeps(s, lost, listing, s', key);
  }

  lemma {:induction false} RunKeeps(states: seq<State>, steps: seq<Step>, i: nat, key: string)
    requires Run(states, steps) && i < |states| && forall n :: 0 <= n < |steps| ==> PutOnlyStep(steps[n])
    ensures Inv(states[i], key) && DeletedNumbered(states[i])
  {
    if i == 0 {
      InitKeeps(states[0], key);
    } else {
      RunKeeps(states, steps, i - 1, key);
      assert StepAt(states, steps, i - 1);
      StepKeeps(states[i - 1], steps[i - 1], states[i], key);
    }
  }

  /** Crash-safe refinement: at every point of every run without rollbacks, a read holds no
      two comparable versions, only versions that were written, and exactly the maximal
      clocks of what the steps so far have written. */
  lemma ReadsAreMaximal(states: seq<State>, steps: seq<Step>, i: nat, key: string)
    requires Run(states, steps) && i < |states| && forall n :: 0 <= n < |steps| ==> PutOnlyStep(steps[n])
    ensures WellFormed(states[i])
    ensures var read, written := GetAll(states[i], key), Puts(Recorded(steps[..i]), key);
            && Antichain(read) && Subset(read, written) && ClockSet(read) == MaximalClocks(written)
            && (forall x :: x in written <==> PutWrite(key, x) in Recorded(steps[..i]))
  {
    HistoryIsRecorded(states, steps, i);
    PutsAreWrites(Recorded(steps[..i]), key);
    RunKeeps(states, steps, i, key);
    var s := states[i];
    var read, written := GetAll(s, key), Puts(s.history, key);
    FoldFacts(ReadLists(s, key));
    forall x | x in read ensures x in written {
      GetAllMembers(s, key, x);
      var l :| l in MemoryLayers(s) && x in Look(l, key);
      assert l in AllLayers(s);
    }
    forall y | y in written ensures Covered(y, read) {
      GetAllCovers(s, key, y);
    }
    AntichainHoldsMaximal(read, written);
  }
}
