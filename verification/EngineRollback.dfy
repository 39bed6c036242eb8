/**
 Rollbacks and crashes. A Restore replaces a key's set in the active memtable verbatim, and a
 replay applies it to everything the log still holds. Runs here mix writes and rollbacks with
 every other step; the result is the direction a crash may move a read: a version visible
 after a replay is covered by one that was visible before the crash, or is in the batch that
 was failing, or is in a table of a flush that was told it had failed and had not. Apart from
 that last case, a replay may hide what an incomplete Restore left visible but never brings back
 what a Restore hid.
 */
module EngineRollback {
  import opened Wrappers
  import opened Versions
  import opened Layers
  import opened Engine
  import Compaction
  import R = EngineRefinement

  // Everything the log has held that a crash may still replay, oldest first.
  function Log(s: State): seq<Write> {
    Writes(s.deleted) + Writes(s.sealedSegs) + s.current.writes
  }

  // The versions a write puts or installs under key.
  function Mentioned(ws: seq<Write>, key: string): seq<Item> {
    if ws == [] then []
    else
      var w := ws[|ws| - 1];
      Mentioned(ws[..|ws| - 1], key)
      + (if w.key != key then [] else if w.PutWrite? then [w.item] else w.items)
  }

  ghost function RegisteredLayers(s: State): set<Layer>
    requires WellFormed(s)
  {
    if s.flushing.Some? && Registered(s.flushing.value) * s.live != {} then FrozenLayers(s) else {}
  }

  predicate Names(w: Write, key: string, x: Item) {
    w.key == key && (if w.PutWrite? then w.item == x else x in w.items)
  }

  lemma {:induction false} MentionedAre(ws: seq<Write>, key: string)
    ensures forall x :: x in Mentioned(ws, key) <==> exists w :: w in ws && Names(w, key, x)
  {
    if ws != [] {
      var front, last := ws[..|ws| - 1], ws[|ws| - 1];
      MentionedAre(front, key);
      assert ws == front + [last];
      forall x ensures x in Mentioned(ws, key) <==> exists w :: w in ws && Names(w, key, x) {
        if w :| w in front && Names(w, key, x) { assert w in ws; }
        if Names(last, key, x) { assert last in ws; }
      }
    }
  }

  // The layers only flushes and compactions change: the SSTables, and a registered flush.
  ghost function SettledLayers(s: State): set<Layer>
    requires WellFormed(s)
  {
    TableLayers(Listed(s.sstables)) + RegisteredLayers(s)
  }

  // Those, and the tables left live by flushes that count as failed.
  ghost function Accounted(s: State): set<Layer>
    requires WellFormed(s)
  {
    SettledLayers(s) + TableLayers(s.strays)
  }

  // Replaying the log from its i-th write on gives nothing that is not visible now.
  ghost predicate SuffixIsVisible(s: State, key: string, i: nat)
    requires WellFormed(s)
  {
    i <= |Log(s)| ==> CovAll(MemoryLayers(s), key, Look(Replay(Log(s)[i..]), key))
  }

  ghost predicate ReplayIsVisible(s: State, key: string)
    requires WellFormed(s)
  {
    forall i: nat :: SuffixIsVisible(s, key, i)
  }

  ghost predicate Inv(s: State, key: string) {
    && WellFormed(s)
    && ReplayIsVisible(s, key)
    && s.strays <= s.live && CovLayers(Accounted(s), key, TableLayers(s.live))
    && (s.flushing.Some? && s.flushing.value.registered.Some? ==>
          s.flushing.value.registered.value.data == s.mem[s.flushing.value.mem])
    && (s.compacting.Some? ==>
          && FoldsInto(s.compacting.value.merged.data, s.compacting.value.sources)
          && forall t :: t in s.compacting.value.sources ==> t in s.sstables)
  }

  // ---------------------------------------------------------------- one write on two memtables

  // A write applied to both sides keeps one below the other, whatever else is around.
  lemma WriteKeepsBelow(a: Layer, b: Layer, others: set<Layer>, w: Write, key: string)
    requires CovAll({b} + others, key, Look(a, key))
    ensures CovAll({Apply(b, w)} + others, key, Look(Apply(a, w), key))
  {
    var a', b' := Apply(a, w), Apply(b, w);
    if w.key != key {
      assert Look(a', key) == Look(a, key) && Look(b', key) == Look(b, key);
      forall y | y in Look(a', key) ensures Cov({b'} + others, key, y) {
        var l :| l in {b} + others && Covered(y, Look(l, key));
        if l == b { assert Covered(y, Look(b', key)); }
      }
    } else if w.RestoreWrite? {
      forall y | y in Look(a', key) ensures Cov({b'} + others, key, y) {
        assert y in Look(b', key);
        CovItself({b'} + others, key, b', y);
      }
    } else {
      PutItemsMembers(Look(a, key), w.item);
      UnbeatenMembers(Look(a, key), [w.item]);
      forall y | y in Look(a', key) ensures Cov({b'} + others, key, y) {
        assert y in Look(a, key) || y == w.item;
        PutCoversMore(b, w, key, y);
        if y in Look(a, key) {
          var l :| l in {b} + others && Covered(y, Look(l, key));
          if l == b { assert Covered(y, Look(b', key)); }
        } else {
          assert Covered(y, Look(b', key));
        }
      }
    }
  }

  lemma PutCoversMore(b: Layer, w: Write, key: string, y: Item)
    requires w.PutWrite? && w.key == key
    ensures Covered(y, Look(b, key)) || y == w.item ==> Covered(y, Look(Apply(b, w), key))
  {
    PutItemsCovers(Look(b, key), w.item, y);
    if Covered(y, Look(b, key)) {
      var x :| x in Look(b, key) && Covers(x, y);
      assert x in Look(b, key) + [w.item];
    }
    assert Covers(w.item, w.item) && w.item in Look(b, key) + [w.item];
  }

  lemma {:induction false} WritesKeepBelow(a: Layer, b: Layer, others: set<Layer>, ws: seq<Write>, key: string)
    requires CovAll({b} + others, key, Look(a, key))
    ensures CovAll({ApplyAll(b, ws)} + others, key, Look(ApplyAll(a, ws), key))
  {
    if ws != [] {
      var front := ws[..|ws| - 1];
      WritesKeepBelow(a, b, others, front, key);
      WriteKeepsBelow(ApplyAll(a, front), ApplyAll(b, front), others, ws[|ws| - 1], key);
    }
  }

  // A replay that starts later gives nothing a replay from the start does not.
  lemma LaterReplayIsBelow(b: Layer, ws: seq<Write>, m: nat, others: set<Layer>, key: string)
    requires m <= |ws|
    ensures CovAll({ApplyAll(b, ws)} + others, key, Look(Replay(ws[m..]), key))
  {
    assert ws == ws[..m] + ws[m..];
    ApplyAllConcat(b, ws[..m], ws[m..]);
    WritesKeepBelow(map[], ApplyAll(b, ws[..m]), others, ws[m..], key);
  }

  // Applying writes brings in only the versions they mention.
  lemma {:induction false} AppliedAreMentioned(l: Layer, ws: seq<Write>, key: string)
    ensures forall x :: x in Look(ApplyAll(l, ws), key) ==> x in Look(l, key) || x in Mentioned(ws, key)
  {
    if ws != [] {
      var front, w := ws[..|ws| - 1], ws[|ws| - 1];
      AppliedAreMentioned(l, front, key);
      var m := ApplyAll(l, front);
      if w.PutWrite? && w.key == key {
        PutItemsMembers(Look(m, key), w.item);
        UnbeatenMembers(Look(m, key), [w.item]);
      }
    }
  }

  // ---------------------------------------------------------------- steps

  lemma InitKeeps(s: State, key: string)
    requires Init(s)
    ensures Inv(s, key)
  {
    assert Log(s) == [] by { assert Writes([]) == []; }
    forall i: nat ensures SuffixIsVisible(s, key, i) {
      if i <= |Log(s)| { assert Log(s)[i..] == []; }
    }
  }

  lemma CommitLog(s: State, batch: seq<Write>, s': State)
    requires WellFormed(s) && Next(s, Commit(batch), s')
    ensures Log(s') == Log(s) + batch
  {
    var before := Writes(s.deleted) + Writes(s.sealedSegs);
    assert before + (s.current.writes + batch) == before + s.current.writes + batch;
  }

  lemma CommitLayers(s: State, batch: seq<Write>, s': State)
    requires WellFormed(s) && Next(s, Commit(batch), s')
    ensures WellFormed(s') && s'.mem[s'.active] == ApplyAll(s.mem[s.active], batch)
    ensures R.Others(s') == R.Others(s) && Accounted(s') == Accounted(s)
  {
    R.CommitLayers(s, batch, s');
    assert FrozenLayers(s') == FrozenLayers(s);
  }

  lemma CommittedReplay(log: seq<Write>, batch: seq<Write>, b: Layer, others: set<Layer>, i: nat, key: string)
    requires i <= |log + batch|
    requires i <= |log| ==> CovAll({b} + others, key, Look(Replay(log[i..]), key))
    ensures CovAll({ApplyAll(b, batch)} + others, key, Look(Replay((log + batch)[i..]), key))
  {
    if i <= |log| {
      assert (log + batch)[i..] == log[i..] + batch;
      ReplayedOn(log[i..], batch, b, others, key);
    } else {
      assert (log + batch)[i..] == batch[i - |log|..];
      LaterReplayIsBelow(b, batch, i - |log|, others, key);
    }
  }

  lemma ReplayedOn(log: seq<Write>, batch: seq<Write>, b: Layer, others: set<Layer>, key: string)
    requires CovAll({b} + others, key, Look(Replay(log), key))
    ensures CovAll({ApplyAll(b, batch)} + others, key, Look(Replay(log + batch), key))
  {
    ApplyAllConcat(map[], log, batch);
    WritesKeepBelow(Replay(log), b, others, batch, key);
  }

  lemma CommitKeeps(s: State, batch: seq<Write>, s': State, key: string)
    requires Inv(s, key) && Next(s, Commit(batch), s')
    ensures Inv(s', key)
  {
    CommitLog(s, batch, s');
    CommitLayers(s, batch, s');
    R.ActiveAndOthers(s);
    R.ActiveAndOthers(s');
    forall i: nat ensures SuffixIsVisible(s', key, i) {
      assert SuffixIsVisible(s, key, i);
      if i <= |Log(s')| { CommittedReplay(Log(s), batch, s.mem[s.active], R.Others(s), i, key); }
    }
  }

  // A step that moves no write and uncovers nothing a read sees keeps every replay visible.
  lemma SameLogKeepsReplay(s: State, s': State, key: string)
    requires WellFormed(s) && WellFormed(s') && ReplayIsVisible(s, key)
    requires Log(s') == Log(s) && CovLayers(MemoryLayers(s'), key, MemoryLayers(s))
    ensures ReplayIsVisible(s', key)
  {
    forall i: nat ensures SuffixIsVisible(s', key, i) {
      assert SuffixIsVisible(s, key, i);
      if i <= |Log(s)| { CovAllTransitive(MemoryLayers(s), MemoryLayers(s'), key, Look(Replay(Log(s)[i..]), key)); }
    }
  }

  lemma SealKeepsLog(s: State, s': State)
    requires s'.sealedSegs == s.sealedSegs + [s.current] && s'.current == Segment(s.current.seqno + 1, [])
    requires s'.deleted == s.deleted
    ensures Log(s') == Log(s)
  {
    assert s'.sealedSegs[..|s.sealedSegs|] == s.sealedSegs;
    assert Writes(s'.sealedSegs) == Writes(s.sealedSegs) + s.current.writes;
  }

  lemma SwapKeeps(s: State, newMem: nat, s': State, key: string)
    requires Inv(s, key) && Next(s, Swap(newMem), s')
    ensures Inv(s', key)
  {
    SealKeepsLog(s, s');
    assert MemoryLayers(s) <= MemoryLayers(s');
    CovLayersReflexive(MemoryLayers(s'), MemoryLayers(s), key);
    SameLogKeepsReplay(s, s', key);
    assert SettledLayers(s') == SettledLayers(s);
  }

  lemma RotateKeeps(s: State, s': State, key: string)
    requires Inv(s, key) && Next(s, RotateOnly, s')
    ensures Inv(s', key)
  {
    SealKeepsLog(s, s');
    CovLayersReflexive(MemoryLayers(s'), MemoryLayers(s), key);
    SameLogKeepsReplay(s, s', key);
    assert SettledLayers(s') == SettledLayers(s);
  }

  lemma RegisterKeeps(s: State, id: nat, s': State, key: string)
    requires Inv(s, key) && Next(s, FlushRegisters(id), s')
    ensures Inv(s', key)
  {
    var f := s.mem[s.flushing.value.mem];
    assert MemoryLayers(s') == MemoryLayers(s);
    CovLayersReflexive(MemoryLayers(s'), MemoryLayers(s), key);
    SameLogKeepsReplay(s, s', key);
    assert SettledLayers(s') == SettledLayers(s) + {f};
    R.TableLayersAdd(LayerTable(id, f), s.live);
    assert s'.live == {LayerTable(id, f)} + s.live;
    MoreAccounted(s, s', key);
    CovLayersReflexive(Accounted(s'), {f}, key);
    R.CovLayersUnion(Accounted(s'), key, {f}, TableLayers(s.live));
  }

  lemma InstallKeeps(s: State, s': State, key: string)
    requires Inv(s, key) && Next(s, FlushInstalls, s')
    ensures Inv(s', key)
  {
    R.InstallLayers(s, s');
    CovLayersReflexive(MemoryLayers(s'), MemoryLayers(s), key);
    SameLogKeepsReplay(s, s', key);
    assert SettledLayers(s) <= SettledLayers(s');
    MoreAccounted(s, s', key);
  }

  lemma MoreAccounted(s: State, s': State, key: string)
    requires WellFormed(s) && WellFormed(s') && Accounted(s) <= Accounted(s')
    requires CovLayers(Accounted(s), key, TableLayers(s.live))
    ensures CovLayers(Accounted(s'), key, TableLayers(s.live))
  {
    CovLayersReflexive(Accounted(s'), Accounted(s), key);
    CovLayersTransitive(Accounted(s'), Accounted(s), TableLayers(s.live), key);
  }

  // A table that stays live though its flush failed is still accounted for.
  lemma StrayIsAccounted(s: State, s': State, key: string)
    requires Inv(s, key) && Next(s, FlushFails, s')
    ensures WellFormed(s') && Accounted(s') == Accounted(s)
  {
    var f := s.flushing.value;
    if f.registered.Some? && f.registered.value in s.live {
      var t := f.registered.value;
      R.TableLayersAdd(t, s.strays);
      assert s'.strays == {t} + s.strays && t in Registered(f) * s.live;
      assert SettledLayers(s) == SettledLayers(s') + {t.data};
    } else {
      assert s'.strays == s.strays;
    }
  }

  lemma FlushFailsKeeps(s: State, s': State, key: string)
    requires Inv(s, key) && Next(s, FlushFails, s')
    ensures Inv(s', key)
  {
    R.PutBackCovers(s, s', key);
    SameLogKeepsReplay(s, s', key);
    StrayIsAccounted(s, s', key);
  }

  lemma DeleteKeeps(s: State, s': State, key: string)
    requires Inv(s, key) && Next(s, DeleteOldest, s')
    ensures Inv(s', key)
  {
    var g, tail := s.sealedSegs[0], s'.sealedSegs;
    assert Writes(s.sealedSegs) == g.writes + Writes(tail) by {
      assert s.sealedSegs == [g] + tail;
      WritesConcat([g], tail);
      WritesOne(g);
    }
    assert Writes(s'.deleted) == Writes(s.deleted) + g.writes by {
      WritesConcat(s.deleted, [g]);
      WritesOne(g);
    }
    assert Log(s') == Log(s);
    CovLayersReflexive(MemoryLayers(s'), MemoryLayers(s), key);
    SameLogKeepsReplay(s, s', key);
    assert SettledLayers(s') == SettledLayers(s);
  }

  // Steps that change only the manifest and compaction's own record.
  lemma ManifestKeeps(s: State, s': State, key: string)
    requires Inv(s, key) && WellFormed(s')
    requires s' == s.(live := s'.live, strays := s'.strays, compacting := s'.compacting)
    requires s'.strays <= s'.live && CovLayers(Accounted(s'), key, TableLayers(s'.live))
    requires s'.compacting.Some? ==>
               && FoldsInto(s'.compacting.value.merged.data, s'.compacting.value.sources)
               && forall t :: t in s'.compacting.value.sources ==> t in s.sstables
    ensures Inv(s', key)
  {
    assert MemoryLayers(s') == MemoryLayers(s);
    CovLayersReflexive(MemoryLayers(s'), MemoryLayers(s), key);
    SameLogKeepsReplay(s, s', key);
  }

  lemma AddKeeps(s: State, s': State, key: string)
    requires Inv(s, key) && Next(s, CompactAdds, s')
    ensures Inv(s', key)
  {
    var c := s.compacting.value;
    R.TableLayersAdd(c.merged, s.live);
    assert s'.live == {c.merged} + s.live;
    MergedFacts(c.merged.data, c.sources, key);
    forall y | y in Look(c.merged.data, key) ensures Cov(Accounted(s'), key, y) {
      var t :| t in c.sources && y in Look(t.data, key);
      assert t in Listed(s.sstables) && t.data in Accounted(s');
      CovItself(Accounted(s'), key, t.data, y);
    }
    assert RegisteredLayers(s) <= RegisteredLayers(s');
    MoreAccounted(s, s', key);
    R.CovLayersUnion(Accounted(s'), key, {c.merged.data}, TableLayers(s.live));
    ManifestKeeps(s, s', key);
  }

  lemma RemoveKeeps(s: State, s': State, key: string)
    requires Inv(s, key) && Next(s, CompactRemoves, s')
    ensures Inv(s', key)
  {
    assert TableLayers(s'.live) <= TableLayers(s.live);
    assert Accounted(s) <= Accounted(s') by {
      RemovedIsListed(s, s', key);
      forall t | t in s.strays && t !in s'.strays ensures t.data in SettledLayers(s) {
        assert t in Listed(s.sstables);
      }
    }
    MoreAccounted(s, s', key);
    ManifestKeeps(s, s', key);
  }

  // A registered flush whose table is a source is among the SSTables.
  lemma RemovedIsListed(s: State, s': State, key: string)
    requires Inv(s, key) && Next(s, CompactRemoves, s')
    ensures WellFormed(s') && SettledLayers(s') == SettledLayers(s)
  {
    if s.flushing.Some? && s.flushing.value.registered.Some? {
      var t := s.flushing.value.registered.value;
      if t in s.live {
        assert t in Registered(s.flushing.value) * s.live;
        if t in s.compacting.value.sources { assert t in Listed(s.sstables); }
        else { assert t in Registered(s'.flushing.value) * s'.live; }
      }
    }
  }

  lemma SwapInKeeps(s: State, place: nat, s': State, key: string)
    requires Inv(s, key) && Next(s, CompactSwaps(place), s')
    ensures Inv(s', key)
  {
    R.SwapInTables(s, place, s', key);
    var ts, ts' := TableLayers(Listed(s.sstables)), TableLayers(Listed(s'.sstables));
    var fixed := {s.mem[s.active]} + FrozenLayers(s);
    assert MemoryLayers(s) == fixed + ts && MemoryLayers(s') == fixed + ts';
    R.GrownCoverage(fixed, ts, ts', key);
    SameLogKeepsReplay(s, s', key);
    var kept := RegisteredLayers(s) + TableLayers(s.strays);
    assert Accounted(s) == kept + ts && Accounted(s') == kept + ts';
    R.GrownCoverage(kept, ts, ts', key);
    CovLayersTransitive(Accounted(s'), Accounted(s), TableLayers(s.live), key);
  }

  // ---------------------------------------------------------------- crash

  // What a crash replays is a suffix of the log, then what a failed batch left on disk.
  lemma CrashReplays(s: State, lost: nat)
    requires lost <= |s.deleted|
    ensures var n := |Writes(s.deleted[..lost])|;
            n <= |Log(s)| && Writes(R.DiskSegments(s, lost)) == Log(s)[n..] + s.torn
  {
    R.DiskWrites(s, lost);
    R.DeletedWrites(s, lost);
    var gone, back := Writes(s.deleted[..lost]), Writes(s.deleted[lost..]);
    assert Log(s) == gone + (back + Writes(s.sealedSegs) + s.current.writes);
    assert back + Writes(s.sealedSegs) + s.current.writes == back + R.LogWrites(s);
  }

  lemma CrashLog(s: State, lost: nat, listing: seq<LayerTable>, s': State)
    requires WellFormed(s) && Next(s, Crash(lost, listing), s')
    ensures Log(s') == Writes(R.DiskSegments(s, lost))
  {
    R.CrashRebuilds(s, lost, listing, s');
    R.NoneBefore(Writes(s'.deleted), Writes(s'.sealedSegs));
  }

  lemma CrashSettled(s: State, lost: nat, listing: seq<LayerTable>, s': State)
    requires WellFormed(s) && Next(s, Crash(lost, listing), s')
    ensures WellFormed(s') && Accounted(s') == TableLayers(s.live)
  {
    R.ListedIsLive(listing, s.live);
    R.UnionNone(TableLayers(Listed(s'.sstables)));
    assert TableLayers(s'.strays) == {};
    R.UnionNone(SettledLayers(s'));
  }

  lemma CrashRebuilds(s: State, lost: nat, listing: seq<LayerTable>, s': State)
    requires WellFormed(s) && Next(s, Crash(lost, listing), s')
    ensures WellFormed(s') && Log(s') == Writes(R.DiskSegments(s, lost))
    ensures MemoryLayers(s') == {Replay(Log(s'))} + TableLayers(s.live)
    ensures Accounted(s') == TableLayers(s.live)
  {
    CrashLog(s, lost, listing, s');
    CrashSettled(s, lost, listing, s');
    R.CrashRebuilds(s, lost, listing, s');
  }

  lemma CrashKeeps(s: State, lost: nat, listing: seq<LayerTable>, s': State, key: string)
    requires Inv(s, key) && Next(s, Crash(lost, listing), s')
    ensures Inv(s', key)
  {
    var live := TableLayers(s.live);
    CrashRebuilds(s, lost, listing, s');
    forall i: nat ensures SuffixIsVisible(s', key, i) {
      if i <= |Log(s')| { LaterReplayIsBelow(map[], Log(s'), i, live, key); }
    }
    CovLayersReflexive(live, live, key);
  }

  lemma StepKeeps(s: State, step: Step, s': State, key: string)
    requires Inv(s, key) && Next(s, step, s')
    ensures Inv(s', key)
  {
    match step
    case Commit(batch) => CommitKeeps(s, batch, s', key);
    case CommitFails(batch, onDisk) =>
      assert MemoryLayers(s') == MemoryLayers(s) && SettledLayers(s') == SettledLayers(s);
      CovLayersReflexive(MemoryLayers(s'), MemoryLayers(s), key);
      SameLogKeepsReplay(s, s', key);
    case RotateOnly => RotateKeeps(s, s', key);
    case Swap(newMem) => SwapKeeps(s, newMem, s', key);
    case FlushRegisters(id) => RegisterKeeps(s, id, s', key);
    case FlushInstalls => InstallKeeps(s, s', key);
    case FlushFails => FlushFailsKeeps(s, s', key);
    case DeleteOldest => DeleteKeeps(s, s', key);
    case CompactPicks(lo, hi, id) => ManifestKeeps(s, s', key);
    case CompactAdds => AddKeeps(s, s', key);
    case CompactRemoves => RemoveKeeps(s, s', key);
    case CompactSwaps(place) => SwapInKeeps(s, place, s', key);
    case CompactStops => ManifestKeeps(s, s', key);
    case Crash(lost, listing) => CrashKeeps(s, lost, listing, s', key);
  }

  lemma StepAtKeeps(states: seq<State>, steps: seq<Step>, i: nat, key: string)
    requires Run(states, steps) && i < |steps| && Inv(states[i], key)
    ensures Inv(states[i + 1], key)
  {
    assert StepAt(states, steps, i);
    StepKeeps(states[i], steps[i], states[i + 1], key);
  }

  lemma RunKeeps(states: seq<State>, steps: seq<Step>, i: nat, key: string)
    requires Run(states, steps) && i < |states|
    ensures Inv(states[i], key)
  {
    var inv := s => Inv(s, key);
    InitKeeps(states[0], key);
    forall j: nat | j < |steps| && inv(states[j]) ensures inv(states[j + 1]) {
      StepAtKeeps(states, steps, j, key);
    }
    Induction(states, inv, i);
  }

  lemma CrashUncoversNothing(s: State, lost: nat, listing: seq<LayerTable>, s': State, key: string, x: Item)
    requires Inv(s, key) && Next(s, Crash(lost, listing), s') && x in GetAll(s', key)
    ensures Cov(MemoryLayers(s), key, x) || x in Mentioned(s.torn, key) || Cov(TableLayers(s.strays), key, x)
  {
    CrashRebuilds(s, lost, listing, s');
    GetAllMembers(s', key, x);
    var l :| l in MemoryLayers(s') && x in Look(l, key);
    if l == Replay(Log(s')) {
      CrashReplays(s, lost);
      var n := |Writes(s.deleted[..lost])|;
      assert SuffixIsVisible(s, key, n);
      ApplyAllConcat(map[], Log(s)[n..], s.torn);
      AppliedAreMentioned(Replay(Log(s)[n..]), s.torn, key);
    } else {
      assert CovAll(Accounted(s), key, Look(l, key));
      var m :| m in Accounted(s) && Covered(x, Look(m, key));
      if m !in TableLayers(s.strays) { assert m in MemoryLayers(s); }
    }
  }

  // A write of x under key was in what the failing batch had put on disk.
  ghost predicate WasFailing(steps: seq<Step>, i: nat, key: string, x: Item)
    requires i <= |steps|
  {
    exists w :: w in Failing(steps[..i]) && Names(w, key, x)
  }

  /** At any crash in any run, mixing writes and rollbacks: a version a read returns after the
      replay is covered by what a read returned just before, unless it is one the failing batch
      had already put on disk, or a table left live by a flush that counts as failed covers it. */
  lemma ReplayNeverBringsBack(states: seq<State>, steps: seq<Step>, i: nat, key: string, x: Item)
    requires Run(states, steps) && i < |steps| && steps[i].Crash?
    requires WellFormed(states[i + 1]) && x in GetAll(states[i + 1], key)
    ensures WellFormed(states[i])
    ensures || Covered(x, GetAll(states[i], key)) || WasFailing(steps, i, key, x)
            || Cov(TableLayers(states[i].strays), key, x)
  {
    HistoryIsRecorded(states, steps, i);
    MentionedAre(Failing(steps[..i]), key);
    RunKeeps(states, steps, i, key);
    assert StepAt(states, steps, i);
    CrashUncoversNothing(states[i], steps[i].lost, steps[i].listing, states[i + 1], key, x);
    GetAllCovers(states[i], key, x);
  }

  // Up to step i, a flush that failed had not got its table registered.
  ghost predicate FailuresAreReal(states: seq<State>, steps: seq<Step>, i: nat)
    requires i <= |steps| < |states|
  {
    forall j: nat :: j < i && steps[j].FlushFails? && states[j].flushing.Some? ==> states[j].flushing.value.registered.None?
  }

  lemma {:induction false} NoStrays(states: seq<State>, steps: seq<Step>, i: nat)
    requires Run(states, steps) && i <= |steps| && FailuresAreReal(states, steps, i)
    ensures states[i].strays == {}
  {
    if i > 0 {
      NoStrays(states, steps, i - 1);
      assert StepAt(states, steps, i - 1);
      if steps[i - 1].FlushFails? { assert Registered(states[i - 1].flushing.value) == {}; }
    }
  }

  /** If no flush that failed has registered its table, a crash at most hides versions, but for
      those of the failing batch. */
  lemma RealFailuresStayHidden(states: seq<State>, steps: seq<Step>, i: nat, key: string, x: Item)
    requires Run(states, steps) && i < |steps| && steps[i].Crash? && FailuresAreReal(states, steps, i)
    requires WellFormed(states[i + 1]) && x in GetAll(states[i + 1], key)
    ensures WellFormed(states[i])
    ensures Covered(x, GetAll(states[i], key)) || WasFailing(steps, i, key, x)
  {
    ReplayNeverBringsBack(states, steps, i, key, x);
    NoStrays(states, steps, i);
  }

  // What a read returned before the crash, or the failing batch, accounts for y.
  ghost predicate WasThere(s: State, key: string, y: Item)
    requires WellFormed(s)
  {
    Covered(y, GetAll(s, key)) || Covered(y, Mentioned(s.torn, key))
  }

  lemma WasThereBelow(s: State, key: string, y: Item, x: Item)
    requires WellFormed(s) && WasThere(s, key, y) && Covers(y, x)
    ensures WasThere(s, key, x)
  {
    if Covered(y, GetAll(s, key)) {
      CoveredMonotone(x, y, GetAll(s, key));
    } else {
      CoveredMonotone(x, y, Mentioned(s.torn, key));
    }
  }

  // A stray is read again after the crash.
  lemma StrayComesBack(s: State, lost: nat, listing: seq<LayerTable>, s': State, key: string, t: LayerTable, y: Item)
    requires Inv(s, key) && Next(s, Crash(lost, listing), s') && t in s.strays && y in Look(t.data, key)
    ensures WellFormed(s') && Covered(y, GetAll(s', key))
  {
    CrashRebuilds(s, lost, listing, s');
    assert t in s.live && t.data in MemoryLayers(s');
    CovItself(MemoryLayers(s'), key, t.data, y);
    GetAllCovers(s', key, y);
  }

  /** Exactly when a crash brings nothing back: for every key, if and only if what the tables of
      flushes that count as failed hold under it was still there before the crash. */
  lemma CrashBringsNothingBackIff(states: seq<State>, steps: seq<Step>, i: nat, key: string)
    requires Run(states, steps) && i < |steps| && steps[i].Crash?
    ensures WellFormed(states[i]) && WellFormed(states[i + 1])
    ensures (forall x :: x in GetAll(states[i + 1], key) ==> WasThere(states[i], key, x)) <==>
            (forall t, y :: t in states[i].strays && y in Look(t.data, key) ==> WasThere(states[i], key, y))
  {
    var s, s' := states[i], states[i + 1];
    RunKeeps(states, steps, i, key);
    RunKeeps(states, steps, i + 1, key);
    assert StepAt(states, steps, i);
    if forall x :: x in GetAll(s', key) ==> WasThere(s, key, x) {
      forall t, y | t in s.strays && y in Look(t.data, key) ensures WasThere(s, key, y) {
        StrayComesBack(s, steps[i].lost, steps[i].listing, s', key, t, y);
        var x :| x in GetAll(s', key) && Covers(x, y);
        WasThereBelow(s, key, x, y);
      }
    }
    if forall t, y :: t in s.strays && y in Look(t.data, key) ==> WasThere(s, key, y) {
      forall x | x in GetAll(s', key) ensures WasThere(s, key, x) {
        ReplayNeverBringsBack(states, steps, i, key, x);
        HistoryIsRecorded(states, steps, i);
        MentionedAre(Failing(steps[..i]), key);
        BackedByStray(s, key, x);
      }
    }
  }

  lemma BackedByStray(s: State, key: string, x: Item)
    requires WellFormed(s)
    requires forall t, y :: t in s.strays && y in Look(t.data, key) ==> WasThere(s, key, y)
    requires Covered(x, GetAll(s, key)) || x in Mentioned(s.torn, key) || Cov(TableLayers(s.strays), key, x)
    ensures WasThere(s, key, x)
  {
    assert Covers(x, x);
    if Cov(TableLayers(s.strays), key, x) {
      var l :| l in TableLayers(s.strays) && Covered(x, Look(l, key));
      var t :| t in s.strays && t.data == l;
      var y :| y in Look(l, key) && Covers(y, x);
      WasThereBelow(s, key, y, x);
    }
  }

  // ---------------------------------------------------------------- Restore's own check

  // A fold that starts with a sibling set covering all the rest is that set.
  lemma CoveringHeadIsFold(items: seq<Item>, others: seq<seq<Item>>)
    requires Antichain(items) && forall y :: y in Compaction.Concat(others) ==> Covered(y, items)
    ensures Compaction.Fold([items] + others) == items
  {
    Compaction.FoldSplit([items], others);
    assert Compaction.Fold([items]) == items by {
      assert [items][..0] == [];
      MergeAntichainIsIdentity(items);
    }
    MergeAbsorbed(items, Compaction.Concat(others));
  }

  /** Restore reports success exactly when it took full effect: the replacement is a sibling
      set and no other layer holds a version it does not cover. */
  lemma RestoreCompleteIff(items: seq<Item>, others: seq<seq<Item>>)
    ensures Compaction.Fold([items] + others) == items <==>
            Antichain(items) && forall y :: y in Compaction.Concat(others) ==> Covered(y, items)
  {
    var lists := [items] + others;
    if Compaction.Fold(lists) == items {
      FoldFacts(lists);
      forall y | y in Compaction.Concat(others) ensures Covered(y, items) {
        ConcatMembers(others, y);
        var i :| 0 <= i < |others| && y in others[i];
        assert y in lists[i + 1];
      }
    }
    if Antichain(items) && forall y :: y in Compaction.Concat(others) ==> Covered(y, items) {
      CoveringHeadIsFold(items, others);
    }
  }

  // The lists a read folds after the active memtable's, and the layers they come from.
  lemma RestComesFromOthers(s: State, key: string, i: nat)
    requires WellFormed(s) && i + 1 < |ReadLists(s, key)|
    ensures exists l :: l in R.Others(s) && ReadLists(s, key)[i + 1] == Look(l, key)
  {
    var n := if s.flushing.Some? then 1 else 0;
    if i < n {
      assert s.mem[s.flushing.value.mem] in R.Others(s);
    } else {
      var t := s.sstables[i - n];
      assert ReadLists(s, key)[i + 1] == LayerLists(s.sstables, key)[i - n];
      assert t in Listed(s.sstables) && t.data in R.Others(s);
    }
  }

  lemma OtherIsRead(s: State, key: string, l: Layer)
    requires WellFormed(s) && l in R.Others(s)
    ensures exists i :: 1 <= i < |ReadLists(s, key)| && ReadLists(s, key)[i] == Look(l, key)
  {
    if l in FrozenLayers(s) {
      assert ReadLists(s, key)[1] == Look(l, key);
    } else {
      var n := if s.flushing.Some? then 1 else 0;
      var t :| t in Listed(s.sstables) && t.data == l;
      var i: nat :| i < |s.sstables| && s.sstables[i] == t;
      assert ReadLists(s, key)[n + i + 1] == LayerLists(s.sstables, key)[i];
    }
  }

  lemma OtherListsAreOthers(s: State, key: string, y: Item)
    requires WellFormed(s)
    ensures y in Compaction.Concat(ReadLists(s, key)[1..]) <==> exists l :: l in R.Others(s) && y in Look(l, key)
  {
    var lists := ReadLists(s, key);
    var rest := lists[1..];
    ConcatMembers(rest, y);
    if i :| 0 <= i < |rest| && y in rest[i] {
      RestComesFromOthers(s, key, i);
      assert rest[i] == lists[i + 1];
    }
    if l :| l in R.Others(s) && y in Look(l, key) {
      OtherIsRead(s, key, l);
      var i :| 1 <= i < |lists| && lists[i] == Look(l, key);
      assert rest[i - 1] == lists[i];
    }
  }

  lemma RestoredLists(s: State, key: string, items: seq<Item>, s': State)
    requires WellFormed(s) && Next(s, Commit([RestoreWrite(key, items)]), s')
    ensures WellFormed(s') && ReadLists(s', key) == [items] + ReadLists(s, key)[1..]
  {
    var w := RestoreWrite(key, items);
    assert ApplyAll(s.mem[s.active], [w]) == Apply(s.mem[s.active], w) by { assert [w][..0] == []; }
    assert Look(s'.mem[s.active], key) == items;
  }

  /** The check behind Restore's result: a read right after it returns exactly the replacement
      if and only if the replacement is a sibling set and covers every version the flushing
      memtable and the SSTables hold. */
  lemma RestoreTakesEffectIff(s: State, key: string, items: seq<Item>, s': State)
    requires WellFormed(s) && Next(s, Commit([RestoreWrite(key, items)]), s')
    ensures WellFormed(s')
    ensures GetAll(s', key) == items <==>
            Antichain(items) && forall l, y :: l in R.Others(s) && y in Look(l, key) ==> Covered(y, items)
  {
    var rest := ReadLists(s, key)[1..];
    RestoredLists(s, key, items, s');
    RestoreCompleteIff(items, rest);
    forall y ensures y in Compaction.Concat(rest) <==> exists l :: l in R.Others(s) && y in Look(l, key) {
      OtherListsAreOthers(s, key, y);
    }
  }
}
