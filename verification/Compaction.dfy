/**
 Size-tiered compaction: choosing a run of adjacent SSTables, folding it into one table, and
 putting that table in the run's place. The law is that no read can tell: every key's list
 of versions stays the same, order and equal-clock choice included.
 */
module Compaction {
  import opened Versions
  import opened Layers
  import opened Sequences
  import Memtables
  import Keys

  const MIN_TIER_SIZE := 4

  datatype Table = Table(id: string, size: nat, entries: seq<Entry>)

  // ---------------------------------------------------------------- reading a stack of layers

  // One key's version lists from several layers, newest layer first, folded: GetAll's answer.
  function Fold(lists: seq<seq<Item>>): seq<Item> {
    if lists == [] then [] else Merge(Fold(lists[..|lists| - 1]), lists[|lists| - 1])
  }

  function Concat(lists: seq<seq<Item>>): seq<Item> {
    if lists == [] then [] else Concat(lists[..|lists| - 1]) + lists[|lists| - 1]
  }

  lemma {:induction false} FoldIsMerge(lists: seq<seq<Item>>)
    ensures Fold(lists) == Merge([], Concat(lists))
  {
    if lists != [] {
      FoldIsMerge(lists[..|lists| - 1]);
      MergeConcat([], Concat(lists[..|lists| - 1]), lists[|lists| - 1]);
    }
  }

  lemma {:induction false} ConcatSplit(a: seq<seq<Item>>, b: seq<seq<Item>>)
    ensures Concat(a + b) == Concat(a) + Concat(b)
  {
    if b == [] {
      assert a + b == a;
    } else {
      ConcatSplit(a, b[..|b| - 1]);
      assert (a + b)[..|a + b| - 1] == a + b[..|b| - 1];
    }
  }

  lemma FoldSplit(a: seq<seq<Item>>, b: seq<seq<Item>>)
    ensures Fold(a + b) == Merge(Fold(a), Concat(b))
  {
    FoldIsMerge(a + b);
    ConcatSplit(a, b);
    FoldIsMerge(a);
    MergeConcat([], Concat(a), Concat(b));
  }

  /** A contiguous run of layers replaced by its own fold, whatever is above and below it. */
  lemma RunReplacedByFold(newer: seq<seq<Item>>, run: seq<seq<Item>>, older: seq<seq<Item>>)
    ensures Fold(newer + [Fold(run)] + older) == Fold(newer + run + older)
  {
    FoldSplit(newer + [Fold(run)], older);
    FoldSplit(newer + run, older);
    FoldSplit(newer, run);
    FoldSplit(newer, [Fold(run)]);
    assert Concat([Fold(run)]) == Fold(run) by { assert [Fold(run)][..0] == []; }
    FoldIsMerge(run);
    MergeFolded(Fold(newer), Concat(run));
  }

  /** The fold and its sources both present, the fold just above them: nothing changes. This
      is what a crash between registering the merged table and dropping its sources leaves. */
  lemma RunShadowedByFold(newer: seq<seq<Item>>, run: seq<seq<Item>>, older: seq<seq<Item>>)
    ensures Fold(newer + [Fold(run)] + run + older) == Fold(newer + run + older)
  {
    var above := newer + [Fold(run)];
    FoldSplit(above + run, older);
    FoldSplit(above, run);
    FoldIsMerge(above);
    MergeKeepsAntichain([], Concat(above));
    forall y | y in Concat(run) ensures Covered(y, Fold(above)) {
      ConcatSplit(newer, [Fold(run)]);
      assert Concat([Fold(run)]) == Fold(run) by { assert [Fold(run)][..0] == []; }
      FoldIsMerge(run);
      MergeCoversBoth([], Concat(run));
      assert y in [] + Concat(run);
      var z :| z in Fold(run) && Covers(z, y);
      MergeCoversBoth([], Concat(above));
      assert z in [] + Concat(above);
      CoveredMonotone(y, z, Fold(above));
    }
    MergeAbsorbed(Fold(above), Concat(run));
    FoldSplit(above, older);
    RunReplacedByFold(newer, run, older);
  }

  // ---------------------------------------------------------------- tables

  function ListsOf(tables: seq<Table>, key: string): seq<seq<Item>> {
    seq(|tables|, i requires 0 <= i < |tables| => ItemsFor(tables[i].entries, key))
  }

  // GetAll over SSTables alone, newest first.
  function ReadTables(tables: seq<Table>, key: string): seq<Item> {
    Fold(ListsOf(tables, key))
  }

  // merged holds, for every key, the fold of what the run holds.
  ghost predicate IsMergeOf(merged: Table, run: seq<Table>) {
    SortedByKey(merged.entries) && forall k :: ItemsFor(merged.entries, k) == ReadTables(run, k)
  }

  // mergeLayers' loop over the SSTables, on the lists their lookups return.
  method FoldLists(lists: seq<seq<Item>>) returns (merged: seq<Item>)
    ensures merged == Fold(lists)
  {
    merged := [];
    for i := 0 to |lists|
      invariant merged == Fold(lists[..i])
    {
      assert lists[..i + 1][..i] == lists[..i];
      merged := MergeSiblings(merged, lists[i]);
    }
    assert lists[..|lists|] == lists;
  }

  /** What swapping a run for its merge, with any number of tables flushed on top since the
      run was chosen, does to reads: nothing. */
  lemma CompactionPreservesReads(newer: seq<Table>, run: seq<Table>, older: seq<Table>, merged: Table, key: string)
    requires IsMergeOf(merged, run)
    ensures ReadTables(newer + [merged] + older, key) == ReadTables(newer + run + older, key)
    ensures ReadTables(newer + [merged] + run + older, key) == ReadTables(newer + run + older, key)
  {
    var n, r, o := ListsOf(newer, key), ListsOf(run, key), ListsOf(older, key);
    assert ListsOf([merged], key) == [Fold(r)];
    assert ListsOf(newer + [merged] + older, key) == n + [Fold(r)] + o;
    assert ListsOf(newer + [merged] + run + older, key) == n + [Fold(r)] + r + o;
    assert ListsOf(newer + run + older, key) == n + r + o;
    RunReplacedByFold(n, r, o);
    RunShadowedByFold(n, r, o);
  }

  // ---------------------------------------------------------------- merging a run

  // One source folded into the versions gathered so far.
  function GatherSource(byKey: Layer, entries: seq<Entry>): Layer {
    if entries == [] then byKey
    else
      var before := GatherSource(byKey, entries[..|entries| - 1]);
      var e := entries[|entries| - 1];
      before[e.key := Resolve(Look(before, e.key), e.item)]
  }

  lemma {:induction false} GatherSourceLook(byKey: Layer, entries: seq<Entry>, k: string)
    ensures Look(GatherSource(byKey, entries), k) == Merge(Look(byKey, k), ItemsFor(entries, k))
  {
    if entries != [] {
      var front, e := entries[..|entries| - 1], entries[|entries| - 1];
      GatherSourceLook(byKey, front, k);
      var before := GatherSource(byKey, front);
      assert GatherSource(byKey, entries) == before[e.key := Resolve(Look(before, e.key), e.item)];
      if e.key == k {
        assert ItemsFor(entries, k) == ItemsFor(front, k) + [e.item];
        MergeAppend(Look(byKey, k), ItemsFor(front, k), e.item);
      } else {
        assert ItemsFor(entries, k) == ItemsFor(front, k);
      }
    }
  }

  function Gather(sources: seq<Table>): Layer {
    if sources == [] then map[] else GatherSource(Gather(sources[..|sources| - 1]), sources[|sources| - 1].entries)
  }

  lemma {:induction false} GatherLook(sources: seq<Table>, k: string)
    ensures Look(Gather(sources), k) == ReadTables(sources, k)
  {
    if sources != [] {
      var front, last := sources[..|sources| - 1], sources[|sources| - 1];
      GatherLook(front, k);
      GatherSourceLook(Gather(front), last.entries, k);
      assert ListsOf(sources, k)[..|sources| - 1] == ListsOf(front, k);
    }
  }

  // compaction.Merge: every entry of every source, newest source first, folded by key.
  method MergeTables(sources: seq<Table>) returns (entries: seq<Entry>)
    ensures SortedByKey(entries)
    ensures forall k :: ItemsFor(entries, k) == ReadTables(sources, k)
  {
    var byKey: Layer := map[];
    for i := 0 to |sources|
      invariant byKey == Gather(sources[..i])
    {
      var src := sources[i].entries;
      ghost var before := byKey;
      for j := 0 to |src|
        invariant byKey == GatherSource(before, src[..j])
      {
        assert src[..j + 1][..j] == src[..j];
        var items := ResolveItems(Look(byKey, src[j].key), src[j].item);
        byKey := byKey[src[j].key := items];
      }
      assert src[..|src|] == src;
      assert sources[..i + 1][..i] == sources[..i];
    }
    assert sources[..|sources|] == sources;
    var keys := Keys.Sorted(byKey.Keys);
    entries := [];
    for i := 0 to |keys|
      invariant entries == Memtables.FlattenKeys(byKey, keys[..i])
    {
      assert keys[..i + 1][..i] == keys[..i];
      var block := Memtables.Block(keys[i], Look(byKey, keys[i]));
      entries := entries + block;
    }
    assert keys[..|keys|] == keys;
    Memtables.FlattenKeysFlattens(byKey, keys);
    forall k ensures ItemsFor(entries, k) == ReadTables(sources, k) {
      GatherLook(sources, k);
    }
  }

  // ---------------------------------------------------------------- choosing a run

  function TierOf(size: nat): nat {
    if size < 1000 then 0 else 1 + TierOf(size / 10)
  }

  method ComputeTier(size: nat) returns (tier: nat)
    ensures tier == TierOf(size)
  {
    tier := 0;
    var rest := size;
    while rest >= 1000
      invariant tier + TierOf(rest) == TierOf(size)
    {
      rest := rest / 10;
      tier := tier + 1;
    }
  }

  function Pow10(n: nat): nat {
    if n == 0 then 1 else 10 * Pow10(n - 1)
  }

  // Tier 0 is under 1,000 bytes; tier t holds sizes from 100 * 10^t up to 1,000 * 10^t.
  lemma {:induction false} TierIsMagnitude(size: nat)
    ensures size < 1000 * Pow10(TierOf(size))
    ensures TierOf(size) > 0 ==> 100 * Pow10(TierOf(size)) <= size
  {
    if size >= 1000 {
      TierIsMagnitude(size / 10);
      assert TierOf(size / 10) == 0 ==> Pow10(TierOf(size)) == 10 * Pow10(0);
    }
  }

  function Tiers(tables: seq<Table>): seq<nat> {
    seq(|tables|, i requires 0 <= i < |tables| => TierOf(tables[i].size))
  }

  // [lo, hi) is one tier, and nothing beside it is of that tier.
  predicate MaximalRun(tiers: seq<nat>, lo: nat, hi: nat) {
    && lo < hi <= |tiers|
    && (forall i :: lo <= i < hi ==> tiers[i] == tiers[lo])
    && (lo > 0 ==> tiers[lo - 1] != tiers[lo])
    && (hi < |tiers| ==> tiers[hi] != tiers[lo])
  }

  // [lo, hi) is the run to compact: the longest that is long enough, the newest of equals.
  ghost predicate BestRun(tiers: seq<nat>, lo: nat, hi: nat) {
    && MaximalRun(tiers, lo, hi) && hi - lo >= MIN_TIER_SIZE
    && forall a: nat, b: nat :: MaximalRun(tiers, a, b) && b - a >= MIN_TIER_SIZE ==>
         b - a < hi - lo || (b - a == hi - lo && a >= lo)
  }

  // The run to compact, as [lo, hi); lo == hi when nothing qualifies.
  method SelectTier(tables: seq<Table>) returns (lo: nat, hi: nat)
    ensures lo <= hi <= |tables|
    ensures lo < hi ==> BestRun(Tiers(tables), lo, hi)
    ensures lo == hi ==> forall a: nat, b: nat :: MaximalRun(Tiers(tables), a, b) ==> b - a < MIN_TIER_SIZE
  {
    ghost var tiers := Tiers(tables);
    lo, hi := 0, 0;
    var start := 0;
    while start < |tables|
      invariant 0 <= start <= |tables| && lo <= hi <= start
      invariant 0 < start < |tables| ==> tiers[start - 1] != tiers[start]
      invariant lo < hi ==> MaximalRun(tiers, lo, hi) && hi - lo >= MIN_TIER_SIZE
      invariant forall a: nat, b: nat :: MaximalRun(tiers, a, b) && b - a >= MIN_TIER_SIZE && a < start ==>
                  lo < hi && (b - a < hi - lo || (b - a == hi - lo && a >= lo))
    {
      var tier := ComputeTier(tables[start].size);
      var end := start + 1;
      while end < |tables| && TierOf(tables[end].size) == tier
        invariant start < end <= |tables|
        invariant forall i :: start <= i < end ==> tiers[i] == tier
      {
        end := end + 1;
      }
      assert MaximalRun(tiers, start, end);
      forall a: nat, b: nat | MaximalRun(tiers, a, b) && start <= a < end ensures a == start && b == end {
        MaximalRunUnique(tiers, start, end, a, b);
      }
      if end - start >= MIN_TIER_SIZE && end - start > hi - lo {
        lo, hi := start, end;
      }
      start := end;
    }
  }

  lemma MaximalRunUnique(tiers: seq<nat>, lo: nat, hi: nat, a: nat, b: nat)
    requires MaximalRun(tiers, lo, hi) && MaximalRun(tiers, a, b) && lo <= a < hi
    ensures a == lo && b == hi
  {
  }

  // ---------------------------------------------------------------- putting it in place

  // run stands whole in tables, from place s on.
  predicate RunAt(tables: seq<Table>, run: seq<Table>, s: nat) {
    s + |run| <= |tables| && tables[s..s + |run|] == run
  }

  function Spliced(tables: seq<Table>, s: nat, n: nat, merged: Table): seq<Table>
    requires s + n <= |tables|
  {
    tables[..s] + [merged] + tables[s + n..]
  }

  // Finds the run by its first table, checks it is there whole, and builds a new list.
  method ReplaceRun(tables: seq<Table>, run: seq<Table>, merged: Table) returns (out: seq<Table>, ok: bool)
    requires run != []
    ensures ok ==> exists s: nat :: RunAt(tables, run, s) && out == Spliced(tables, s, |run|, merged)
    ensures Distinct(tables) && (exists s: nat :: RunAt(tables, run, s)) ==> ok
  {
    out, ok := [], false;
    var start := 0;
    while start < |tables| && tables[start] != run[0]
      invariant 0 <= start <= |tables|
      invariant forall i :: 0 <= i < start ==> tables[i] != run[0]
    {
      start := start + 1;
    }
    if Distinct(tables) {
      forall s: nat | RunAt(tables, run, s) ensures start == s {
        RunStarts(tables, run, s);
      }
    }
    if start == |tables| || start + |run| > |tables| {
      return;
    }
    var i := 0;
    while i < |run| && tables[start + i] == run[i]
      invariant 0 <= i <= |run|
      invariant forall n :: 0 <= n < i ==> tables[start + n] == run[n]
    {
      i := i + 1;
    }
    if i < |run| {
      assert tables[start..start + |run|][i] != run[i];
      return;
    }
    assert RunAt(tables, run, start);
    out := tables[..start] + [merged] + tables[start + |run|..];
    ok := true;
  }

  lemma RunStarts(tables: seq<Table>, run: seq<Table>, s: nat)
    requires run != [] && RunAt(tables, run, s)
    ensures tables[s] == run[0]
  {
    assert tables[s] == tables[s..s + |run|][0];
  }

  /** The swap always finds its run: only compaction removes tables, and a flush only puts
      new ones (`newer`) on top of the list the run was chosen from. */
  method SwapIn(newer: seq<Table>, chosen: seq<Table>, lo: nat, hi: nat, merged: Table) returns (out: seq<Table>)
    requires lo < hi <= |chosen| && Distinct(newer + chosen)
    requires IsMergeOf(merged, chosen[lo..hi])
    ensures out == newer + chosen[..lo] + [merged] + chosen[hi..]
    ensures forall k :: ReadTables(out, k) == ReadTables(newer + chosen, k)
  {
    var current, run, place := newer + chosen, chosen[lo..hi], |newer| + lo;
    RunStands(newer, chosen, lo, hi);
    var swapped, ok := ReplaceRun(current, run, merged);
    ghost var s: nat :| RunAt(current, run, s) && swapped == Spliced(current, s, |run|, merged);
    RunStarts(current, run, s);
    RunStarts(current, run, place);
    assert s == place;
    out := swapped;
    assert current[..place] == newer + chosen[..lo];
    assert current[place + |run|..] == chosen[hi..];
    forall k ensures ReadTables(out, k) == ReadTables(current, k) {
      CompactionPreservesReads(newer + chosen[..lo], run, chosen[hi..], merged, k);
    }
  }

  lemma RunStands(newer: seq<Table>, chosen: seq<Table>, lo: nat, hi: nat)
    requires lo < hi <= |chosen|
    ensures RunAt(newer + chosen, chosen[lo..hi], |newer| + lo)
    ensures newer + chosen == newer + chosen[..lo] + chosen[lo..hi] + chosen[hi..]
  {
  }
}
