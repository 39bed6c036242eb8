/**
 Why the condition on runs is needed: one compaction whose sources could not be unregistered,
 and the process compacting on. Thirteen flushes, five merges of four tables each and two
 restarts later a restart lists the tables so that older layers are read before newer ones.
 */
module TableMisread {
  import opened Wrappers
  import opened Sequences
  import opened Compaction
  import opened LayerOrder
  import opened TableOrder
  import opened TableLists
  import opened TableRuns
  import Keys

  // ---------------------------------------------------------------- the setting

  // Layers of four sizes; a table is as large as its layers together.
  function Weight(x: nat): nat {
    if x < 2 then 30000 else if x < 6 then 5000 else if x < 9 then 30000 else 9000
  }

  function Weigh(order: seq<nat>): nat {
    if order == [] then 0 else Weigh(order[..|order| - 1]) + Weight(order[|order| - 1])
  }

  const LETTERS := "abcdefghijklm"

  function Letter(i: nat): string {
    if i < 13 then [LETTERS[i]] else ""
  }

  function Env(): Setting {
    Setting(Weigh, Letter, 13)
  }

  lemma EnvIsClockwork()
    ensures Clockwork(Env())
  {
    forall i, j | 0 <= i < j < 13 ensures Keys.Less(Letter(i), Letter(j)) {
      assert LETTERS[i] < LETTERS[j];
    }
  }

  lemma {:induction false} WeighDown(lo: nat, hi: nat)
    ensures Weigh(Down(lo, hi)) == if lo < hi then Weigh(Down(lo + 1, hi)) + Weight(lo) else 0
  {
  }

  // ---------------------------------------------------------------- its tables

  const X1 := Sst(12, 1, Down(9, 13))
  const X2 := Sst(12, 2, Down(9, 13))
  const X3 := Sst(12, 3, Down(6, 13))
  const X4 := Sst(12, 4, Down(9, 13) + Down(0, 6))
  const Z1 := Sst(5, 1, Down(2, 6))

  function Tier(t: Sst): nat {
    TierOf(Weigh(t.order))
  }

  lemma FreshTiers()
    ensures forall x: nat :: x < 13 ==> Tier(Fresh(x)) == if x < 2 || 6 <= x < 9 then 2 else 1
  {
    forall x: nat | x < 13 ensures Tier(Fresh(x)) == if x < 2 || 6 <= x < 9 then 2 else 1 {
      assert [x][..0] == [];
      assert Weigh([x]) == Weight(x);
      assert TierOf(30000) == 2 && TierOf(5000) == 1 && TierOf(9000) == 1;
    }
  }

  lemma MergeTiers()
    ensures Tier(X1) == Tier(X2) == 2 && Tier(X3) == 3 && Tier(Z1) == 2
  {
    WeighDown(9, 13); WeighDown(10, 13); WeighDown(11, 13); WeighDown(12, 13); WeighDown(13, 13);
    assert Weigh(Down(9, 13)) == 36000;
    WeighDown(6, 13); WeighDown(7, 13); WeighDown(8, 13);
    assert Weigh(Down(6, 13)) == 126000;
    WeighDown(2, 6); WeighDown(3, 6); WeighDown(4, 6); WeighDown(5, 6); WeighDown(6, 6);
    assert Weigh(Down(2, 6)) == 20000;
    assert TierOf(36000) == 2 && TierOf(126000) == 3 && TierOf(20000) == 2;
  }

  // ---------------------------------------------------------------- the runs that are picked

  lemma PickOne(t: seq<nat>)
    requires t == [1, 1, 1, 1, 2, 2, 2, 1, 1, 1, 1, 2, 2]
    ensures BestRun(t, 0, 4)
  {
    assert MaximalRun(t, 0, 4) && MaximalRun(t, 4, 7) && MaximalRun(t, 7, 11) && MaximalRun(t, 11, 13);
    forall a: nat, b: nat | MaximalRun(t, a, b) ensures b - a <= 4 {
      if a < 4 { MaximalRunUnique(t, 0, 4, a, b); }
      else if a < 7 { MaximalRunUnique(t, 4, 7, a, b); }
      else if a < 11 { MaximalRunUnique(t, 7, 11, a, b); }
      else { MaximalRunUnique(t, 11, 13, a, b); }
    }
  }

  lemma PickTwo(t: seq<nat>)
    requires t == [2, 2, 2, 2, 1, 1, 1, 1, 2, 2]
    ensures BestRun(t, 0, 4)
  {
    assert MaximalRun(t, 0, 4) && MaximalRun(t, 4, 8) && MaximalRun(t, 8, 10);
    forall a: nat, b: nat | MaximalRun(t, a, b) ensures b - a <= 4 {
      if a < 4 { MaximalRunUnique(t, 0, 4, a, b); }
      else if a < 8 { MaximalRunUnique(t, 4, 8, a, b); }
      else { MaximalRunUnique(t, 8, 10, a, b); }
    }
  }

  lemma PickThree(t: seq<nat>)
    requires t == [3, 2, 1, 1, 1, 1, 2, 2]
    ensures BestRun(t, 2, 6)
  {
    assert MaximalRun(t, 0, 1) && MaximalRun(t, 1, 2) && MaximalRun(t, 2, 6) && MaximalRun(t, 6, 8);
    forall a: nat, b: nat | MaximalRun(t, a, b) ensures b - a < 4 || (a == 2 && b == 6) {
      if a == 0 { MaximalRunUnique(t, 0, 1, a, b); }
      else if a == 1 { MaximalRunUnique(t, 1, 2, a, b); }
      else if a < 6 { MaximalRunUnique(t, 2, 6, a, b); }
      else { MaximalRunUnique(t, 6, 8, a, b); }
    }
  }

  lemma PickFour(t: seq<nat>)
    requires t == [3, 2, 2, 2, 2]
    ensures BestRun(t, 1, 5)
  {
    assert MaximalRun(t, 0, 1) && MaximalRun(t, 1, 5);
    forall a: nat, b: nat | MaximalRun(t, a, b) ensures b - a < 4 || (a == 1 && b == 5) {
      if a == 0 { MaximalRunUnique(t, 0, 1, a, b); } else { MaximalRunUnique(t, 1, 5, a, b); }
    }
  }

  // ---------------------------------------------------------------- what their merges hold

  lemma MergeOfFour(a: Sst, b: Sst, c: Sst, d: Sst, k: nat)
    requires Whole(a) && Whole(b) && Whole(c) && Whole(d)
    requires Low(a) == b.stamp + 1 && Low(b) == c.stamp + 1 && Low(c) == d.stamp + 1
    ensures MergeOf([a, b, c, d], k) == Sst(a.stamp, k, Down(Low(d), a.stamp + 1))
  {
    var run := [a, b, c, d];
    assert run[0] == a && run[1] == b && run[2] == c && run[3] == d;
    ChainMeets(run);
    LowestIsLast(run, Low(d));
  }

  lemma DownIsWhole(t: Sst, lo: nat)
    requires t.order == Down(lo, t.stamp + 1) && lo <= t.stamp
    ensures Whole(t) && Low(t) == lo
  {
    DownTop(lo, t.stamp + 1);
  }

  lemma FreshIsWhole(x: nat)
    ensures Whole(Fresh(x)) && Low(Fresh(x)) == x
  {
    assert Down(x + 1, x + 1) == [];
  }

  lemma FourFlushes(x: nat, k: nat)
    ensures MergeOf([Fresh(x + 3), Fresh(x + 2), Fresh(x + 1), Fresh(x)], k) == Sst(x + 3, k, Down(x, x + 4))
  {
    FreshIsWhole(x + 3); FreshIsWhole(x + 2); FreshIsWhole(x + 1); FreshIsWhole(x);
    MergeOfFour(Fresh(x + 3), Fresh(x + 2), Fresh(x + 1), Fresh(x), k);
  }

  lemma MergeOfThird()
    ensures MergeOf([X2, Fresh(8), Fresh(7), Fresh(6)], 3) == X3
  {
    DownIsWhole(X2, 9);
    FreshIsWhole(8); FreshIsWhole(7); FreshIsWhole(6);
    MergeOfFour(X2, Fresh(8), Fresh(7), Fresh(6), 3);
  }

  // The fifth merge skips layers 6 to 8.
  lemma MergeOfFifth()
    ensures MergeOf([X1, Z1, Fresh(1), Fresh(0)], 4) == X4
  {
    var run := [X1, Z1, Fresh(1), Fresh(0)];
    FlatOfFour(X1.order, Z1.order, [1], [0]);
    assert Orders(run) == [X1.order, Z1.order, [1], [0]];
    DownTop(1, 6);
    DownTop(0, 6);
    assert Flat(Orders(run)) == X4.order;
    FifthDistinct();
    FirstsDistinct(X4.order);
    assert run[0].stamp == 12;
  }

  lemma FifthDistinct()
    ensures Distinct(X4.order) && Descending(X4.order) && |X4.order| == 10
  {
    DownAt(9, 13);
    DownAt(0, 6);
  }

  lemma FlatOfFour(a: seq<nat>, b: seq<nat>, c: seq<nat>, d: seq<nat>)
    ensures Flat([a, b, c, d]) == a + b + c + d
  {
    var s := [a, b, c, d];
    assert s[..3] == [a, b, c] && [a, b, c][..2] == [a, b] && [a, b][..1] == [a] && [a][..0] == [];
    assert Flat([a]) == a && Flat([a, b]) == a + b && Flat([a, b, c]) == a + b + c;
  }

  // ---------------------------------------------------------------- runs with one imprudent step

  // A run in which step j, and no other, picks while another merge's sources are registered.
  ghost predicate Reached(ds: seq<Disk>, steps: seq<Step>, j: nat, d: Disk) {
    && DiskRun(Env(), ds, steps) && ds[|steps|] == d
    && forall i :: 0 <= i < |steps| ==> (Prudent(ds[i], steps[i]) <==> i != j)
  }

  lemma Extend(ds: seq<Disk>, steps: seq<Step>, j: nat, d: Disk, step: Step, d': Disk)
    requires Reached(ds, steps, j, d) && Took(Env(), d, step, d') && (Prudent(d, step) <==> |steps| != j)
    ensures Reached(ds + [d'], steps + [step], j, d')
  {
    var more, more' := ds + [d'], steps + [step];
    forall i | 0 <= i < |more'| ensures Took(Env(), more[i], more'[i], more[i + 1]) {
      if i < |steps| { assert more[i] == ds[i] && more[i + 1] == ds[i + 1] && more'[i] == steps[i]; }
    }
    forall i | 0 <= i < |more'| ensures Prudent(more[i], more'[i]) <==> i != j {
      if i < |steps| { assert more[i] == ds[i] && more'[i] == steps[i]; }
    }
  }

  // The IDs of files, as pairs.
  function Names(ids: set<(nat, nat)>): set<string> {
    set p | p in ids :: Name(Env(), p.0, p.1)
  }

  lemma NamesHold(ids: set<(nat, nat)>, s: nat, m: nat)
    requires s < 13 && forall p :: p in ids ==> p.0 < 13
    ensures Name(Env(), s, m) in Names(ids) <==> (s, m) in ids
  {
    EnvIsClockwork();
    if Name(Env(), s, m) in Names(ids) {
      var p :| p in ids && Name(Env(), p.0, p.1) == Name(Env(), s, m);
      IdUnique(Env(), p.0, p.1, s, m);
      assert p == (s, m);
    }
    if (s, m) in ids { assert Name(Env(), (s, m).0, (s, m).1) in Names(ids); }
  }

  lemma NamesAdd(ids: set<(nat, nat)>, s: nat, m: nat)
    ensures Names(ids + {(s, m)}) == Names(ids) + {Name(Env(), s, m)}
  {
    var a, b := Names(ids + {(s, m)}), Names(ids) + {Name(Env(), s, m)};
    forall f ensures f in a <==> f in b {
      if f in a {
        var p :| p in ids + {(s, m)} && Name(Env(), p.0, p.1) == f;
      }
      if f == Name(Env(), s, m) { assert (s, m) in ids + {(s, m)}; }
    }
  }

  predicate FreePair(ids: set<(nat, nat)>, t: Sst, k: nat) {
    t.stamp < 13 && t.merges < k && (t.stamp, k) !in ids && forall m :: t.merges < m < k ==> (t.stamp, m) in ids
  }

  lemma FreePairIsFree(ids: set<(nat, nat)>, t: Sst, k: nat)
    requires (forall p :: p in ids ==> p.0 < 13) && FreePair(ids, t, k)
    ensures FirstFree(Env(), t, k, Names(ids))
  {
    NamesHold(ids, t.stamp, k);
    forall m | t.merges < m < k ensures Name(Env(), t.stamp, m) in Names(ids) { NamesHold(ids, t.stamp, m); }
  }

  // A whole compaction of [lo, hi), with no file deleted.
  function Compacted(d: Disk, lo: nat, hi: nat, t: Sst): Disk
    requires lo < hi <= |d.tables|
  {
    d.(tables := Replaced(d.tables, lo, hi, t), live := d.live + {t} - (set u | u in d.tables[lo..hi]),
       files := d.files + {Id(Env(), t)}, work := Idle)
  }

  lemma Compact(ds: seq<Disk>, steps: seq<Step>, j: nat, d: Disk, lo: nat, hi: nat, k: nat, t: Sst)
    returns (ds': seq<Disk>, steps': seq<Step>)
    requires Reached(ds, steps, j, d) && (if d.work.Idle? then |steps| > j else d.work.Stuck? && |steps| == j)
    requires BestRun(SizeTiers(Env(), d.tables), lo, hi)
    requires t == MergeOf(d.tables[lo..hi], k) && FirstFree(Env(), d.tables[lo], k, d.files)
    ensures Reached(ds', steps', j, Compacted(d, lo, hi, t)) && |steps'| == |steps| + 4
  {
    var d1 := d.(work := Chosen(d.tables, lo, hi));
    Extend(ds, steps, j, d, Picks(lo, hi), d1);
    var d2 := d1.(live := d.live + {t}, files := d.files + {Id(Env(), t)}, work := Added(d.tables, lo, hi, t));
    assert Run(d1.work) == d.tables[lo..hi] && Run(d1.work)[0] == d.tables[lo];
    Extend(ds + [d1], steps + [Picks(lo, hi)], j, d1, Adds(k), d2);
    ds', steps' := RemoveAndSwap(ds + [d1] + [d2], steps + [Picks(lo, hi)] + [Adds(k)], j, d2);
    assert Compacted(d, lo, hi, t) == RemovedAndSwapped(d2);
  }

  // The same, in terms of pairs.
  lemma CompactPairs(ds: seq<Disk>, steps: seq<Step>, j: nat, d: Disk, ids: set<(nat, nat)>, lo: nat, hi: nat, k: nat,
                     t: Sst, d': Disk)
    returns (ds': seq<Disk>, steps': seq<Step>)
    requires Reached(ds, steps, j, d) && (if d.work.Idle? then |steps| > j else d.work.Stuck? && |steps| == j)
    requires BestRun(SizeTiers(Env(), d.tables), lo, hi) && t == MergeOf(d.tables[lo..hi], k)
    requires d.files == Names(ids) && (forall p :: p in ids ==> p.0 < 13) && FreePair(ids, d.tables[lo], k)
    requires d' == Disk(d.layers, Replaced(d.tables, lo, hi, t), d.live + {t} - (set u | u in d.tables[lo..hi]),
                        Names(ids + {(t.stamp, k)}), d.flushed, Idle)
    ensures Reached(ds', steps', j, d') && |steps'| > j
  {
    FreePairIsFree(ids, d.tables[lo], k);
    NamesAdd(ids, t.stamp, k);
    ds', steps' := Compact(ds, steps, j, d, lo, hi, k, t);
  }

  function RemovedAndSwapped(d: Disk): Disk
    requires d.work.Added? && d.work.lo < d.work.hi <= |d.work.was| && d.work.was == d.tables
  {
    d.(tables := Replaced(d.tables, d.work.lo, d.work.hi, d.work.merged),
       live := d.live - (set u | u in d.tables[d.work.lo..d.work.hi]), work := Idle)
  }

  lemma RemoveAndSwap(ds: seq<Disk>, steps: seq<Step>, j: nat, d: Disk)
    returns (ds': seq<Disk>, steps': seq<Step>)
    requires Reached(ds, steps, j, d) && |steps| > j
    requires d.work.Added? && d.work.lo < d.work.hi <= |d.work.was| && d.work.was == d.tables
    ensures Reached(ds', steps', j, RemovedAndSwapped(d)) && |steps'| == |steps| + 2
  {
    var lo, hi, t := d.work.lo, d.work.hi, d.work.merged;
    var d1 := d.(live := d.live - (set u | u in d.tables[lo..hi]), work := Removed(d.tables, lo, hi, t));
    assert Run(d.work) == d.tables[lo..hi];
    Extend(ds, steps, j, d, Removes, d1);
    var d2 := d1.(tables := Replaced(d.tables, lo, hi, t), files := d.files - {}, work := Idle);
    assert Took(Env(), d1, Swaps(lo, {}), d2);
    Extend(ds + [d1], steps + [Removes], j, d1, Swaps(lo, {}), d2);
    ds', steps' := ds + [d1] + [d2], steps + [Removes] + [Swaps(lo, {})];
    assert d2 == RemovedAndSwapped(d);
  }

  // ---------------------------------------------------------------- thirteen flushes

  function Flushes(n: nat): set<(nat, nat)> {
    set x | 0 <= x < n :: (x, 0)
  }

  function Flushed(n: nat): Disk {
    Disk(n, Recent(0, n), (set t | t in Recent(0, n)), Names(Flushes(n)), None, Idle)
  }

  lemma {:induction false} FlushAll(n: nat, j: nat) returns (ds: seq<Disk>, steps: seq<Step>)
    requires n <= 13 && 2 * n <= j
    ensures Reached(ds, steps, j, Flushed(n)) && |steps| == 2 * n
  {
    if n == 0 {
      ds, steps := [Flushed(0)], [];
    } else {
      ds, steps := FlushAll(n - 1, j);
      ds, steps := FlushOne(ds, steps, j, n - 1);
    }
  }

  lemma FlushOne(ds: seq<Disk>, steps: seq<Step>, j: nat, n: nat)
    returns (ds': seq<Disk>, steps': seq<Step>)
    requires n < 13 && Reached(ds, steps, j, Flushed(n)) && |steps| + 2 <= j
    ensures Reached(ds', steps', j, Flushed(n + 1)) && |steps'| == |steps| + 2
  {
    var d, t := Flushed(n), Fresh(n);
    var d1 := d.(layers := n + 1, live := d.live + {t}, files := d.files + {Id(Env(), t)}, flushed := Some(t));
    Extend(ds, steps, j, d, FlushAdds, d1);
    var d2 := d1.(tables := [t] + d.tables, flushed := None);
    Extend(ds + [d1], steps + [FlushAdds], j, d1, FlushShows, d2);
    NamesAdd(Flushes(n), n, 0);
    assert Flushes(n + 1) == Flushes(n) + {(n, 0)};
    assert Recent(0, n + 1) == [t] + Recent(0, n);
    assert d2.live == Flushed(n + 1).live;
    ds', steps' := ds + [d1] + [d2], steps + [FlushAdds] + [FlushShows];
  }

  lemma {:induction false} RecentAt(n: nat, i: nat)
    requires i < n
    ensures |Recent(0, n)| == n && Recent(0, n)[i] == Fresh(n - 1 - i)
  {
    if n == 1 {
      assert Recent(0, 0) == [];
    } else {
      RecentAt(n - 1, if i == 0 then 0 else i - 1);
    }
  }

  // ---------------------------------------------------------------- the lists, one after the other

  const T0 := [Fresh(12), Fresh(11), Fresh(10), Fresh(9), Fresh(8), Fresh(7), Fresh(6), Fresh(5), Fresh(4), Fresh(3),
               Fresh(2), Fresh(1), Fresh(0)]
  const T2 := [X2, Fresh(8), Fresh(7), Fresh(6), Fresh(5), Fresh(4), Fresh(3), Fresh(2), Fresh(1), Fresh(0)]
  const T3 := [X3, Fresh(5), Fresh(4), Fresh(3), Fresh(2), Fresh(1), Fresh(0)]
  const T4 := [X3, X1, Fresh(5), Fresh(4), Fresh(3), Fresh(2), Fresh(1), Fresh(0)]
  const T5 := [X3, X1, Z1, Fresh(1), Fresh(0)]
  const T6 := [X3, X4]
  const T7 := [X4, X3]

  lemma FlushedTables()
    ensures Recent(0, 13) == T0
  {
    forall i | 0 <= i < 13 ensures Recent(0, 13)[i] == T0[i] { RecentAt(13, i); }
    RecentAt(13, 0);
  }

  lemma Tiers0()
    ensures BestRun(SizeTiers(Env(), T0), 0, 4)
  {
    FreshTiers();
    assert forall i :: 0 <= i < 13 ==> SizeTiers(Env(), T0)[i] == Tier(T0[i]);
    assert SizeTiers(Env(), T0) == [1, 1, 1, 1, 2, 2, 2, 1, 1, 1, 1, 2, 2];
    PickOne(SizeTiers(Env(), T0));
  }

  lemma Tiers2()
    ensures BestRun(SizeTiers(Env(), T2), 0, 4)
  {
    FreshTiers();
    MergeTiers();
    assert forall i :: 0 <= i < 10 ==> SizeTiers(Env(), T2)[i] == Tier(T2[i]);
    assert SizeTiers(Env(), T2) == [2, 2, 2, 2, 1, 1, 1, 1, 2, 2];
    PickTwo(SizeTiers(Env(), T2));
  }

  lemma Tiers4()
    ensures BestRun(SizeTiers(Env(), T4), 2, 6)
  {
    FreshTiers();
    MergeTiers();
    assert forall i :: 0 <= i < 8 ==> SizeTiers(Env(), T4)[i] == Tier(T4[i]);
    assert SizeTiers(Env(), T4) == [3, 2, 1, 1, 1, 1, 2, 2];
    PickThree(SizeTiers(Env(), T4));
  }

  lemma Tiers5()
    ensures BestRun(SizeTiers(Env(), T5), 1, 5)
  {
    FreshTiers();
    MergeTiers();
    assert forall i :: 0 <= i < 5 ==> SizeTiers(Env(), T5)[i] == Tier(T5[i]);
    assert SizeTiers(Env(), T5) == [3, 2, 2, 2, 2];
    PickFour(SizeTiers(Env(), T5));
  }

  // ---------------------------------------------------------------- the states

  const P0 := Flushes(13)
  const P1 := P0 + {(12, 1)}
  const P2 := P1 + {(12, 2)}
  const P3 := P2 + {(12, 3)}
  const P5 := P3 + {(5, 1)}
  const P6 := P5 + {(12, 4)}

  const L0 := set t | t in T0
  const L2 := L0 + {X1} + {X2} - (set u | u in T0[0..4])
  const L3 := L2 + {X3} - (set u | u in T2[0..4])
  const L5 := L3 + {Z1} - (set u | u in T4[2..6])
  const L6 := L5 + {X4} - (set u | u in T5[1..5])

  const D1 := Disk(13, T0, L0 + {X1}, Names(P1), None, Stuck(T0, 0, 4, X1, false))
  const D2 := Disk(13, T2, L2, Names(P2), None, Idle)
  const D3 := Disk(13, T3, L3, Names(P3), None, Idle)
  const D4 := Disk(13, T4, L3, Names(P3), None, Idle)
  const D5 := Disk(13, T5, L5, Names(P5), None, Idle)
  const D6 := Disk(13, T6, L6, Names(P6), None, Idle)
  const D7 := Disk(13, T7, L6, Names(P6), None, Idle)

  lemma SecondFits()
    ensures Replaced(T0, 0, 4, X2) == T2 && FreePair(P1, T0[0], 2) && forall p :: p in P1 ==> p.0 < 13
  {
  }

  lemma ThirdFits()
    ensures Replaced(T2, 0, 4, X3) == T3 && FreePair(P2, T2[0], 3) && forall p :: p in P2 ==> p.0 < 13
  {
  }

  lemma FourthFits()
    ensures Replaced(T4, 2, 6, Z1) == T5 && FreePair(P3, T4[2], 1) && forall p :: p in P3 ==> p.0 < 13
  {
  }

  lemma FifthFits()
    ensures Replaced(T5, 1, 5, X4) == T6 && FreePair(P5, T5[1], 4) && forall p :: p in P5 ==> p.0 < 13
  {
  }

  // The first compaction registers its merge and cannot unregister its sources.
  lemma First() returns (ds: seq<Disk>, steps: seq<Step>)
    ensures Reached(ds, steps, 29, D1) && |steps| == 29
  {
    ds, steps := FlushAll(13, 29);
    FlushedTables();
    var d := Disk(13, T0, L0, Names(P0), None, Idle);
    assert Flushed(13) == d;
    Tiers0();
    var d1 := d.(work := Chosen(T0, 0, 4));
    Extend(ds, steps, 29, d, Picks(0, 4), d1);
    ds, steps := FirstFails(ds + [d1], steps + [Picks(0, 4)], d1);
  }

  lemma FirstFails(ds: seq<Disk>, steps: seq<Step>, d: Disk) returns (ds': seq<Disk>, steps': seq<Step>)
    requires d == Disk(13, T0, L0, Names(P0), None, Chosen(T0, 0, 4)) && Reached(ds, steps, 29, d) && |steps| == 27
    ensures Reached(ds', steps', 29, D1) && |steps'| == 29
  {
    FourFlushes(9, 1);
    FirstFour();
    FreePairIsFree(P0, Fresh(12), 1);
    NamesAdd(P0, 12, 1);
    var d' := d.(live := L0 + {X1}, files := Names(P1), work := Added(T0, 0, 4, X1));
    Extend(ds, steps, 29, d, Adds(1), d');
    Extend(ds + [d'], steps + [Adds(1)], 29, d', RemoveFails(false), D1);
    ds', steps' := ds + [d'] + [D1], steps + [Adds(1)] + [RemoveFails(false)];
  }

  lemma FirstFour()
    ensures T0[0..4] == [Fresh(12), Fresh(11), Fresh(10), Fresh(9)]
  {
  }

  // The process compacts on: the same run again,
  lemma Second(ds: seq<Disk>, steps: seq<Step>) returns (ds': seq<Disk>, steps': seq<Step>)
    requires Reached(ds, steps, 29, D1) && |steps| == 29
    ensures Reached(ds', steps', 29, D2) && |steps'| > 29
  {
    Tiers0();
    FourFlushes(9, 2);
    FirstFour();
    SecondFits();
    ds', steps' := CompactPairs(ds, steps, 29, D1, P1, 0, 4, 2, X2, D2);
  }

  // and its merge with the three tables beneath.
  lemma Third(ds: seq<Disk>, steps: seq<Step>) returns (ds': seq<Disk>, steps': seq<Step>)
    requires Reached(ds, steps, 29, D2) && |steps| > 29
    ensures Reached(ds', steps', 29, D3) && |steps'| > 29
  {
    Tiers2();
    MergeOfThird();
    assert T2[0..4] == [X2, Fresh(8), Fresh(7), Fresh(6)];
    ThirdFits();
    ds', steps' := CompactPairs(ds, steps, 29, D2, P2, 0, 4, 3, X3, D3);
  }

  // ---------------------------------------------------------------- what is live at the restarts

  predicate IsFresh(t: Sst, lo: nat, hi: nat) {
    t == Fresh(t.stamp) && lo <= t.stamp < hi
  }

  lemma InFirst(t: Sst)
    ensures t in T0 <==> IsFresh(t, 0, 13)
    ensures t in T0[0..4] <==> IsFresh(t, 9, 13)
  {
    FirstFour();
  }

  lemma InSecond(t: Sst)
    ensures t in T2[0..4] <==> t == X2 || IsFresh(t, 6, 9)
  {
    assert T2[0..4] == [X2, Fresh(8), Fresh(7), Fresh(6)];
  }

  lemma InFourth(t: Sst)
    ensures t in T4 <==> t == X3 || t == X1 || IsFresh(t, 0, 6)
    ensures t in T4[2..6] <==> IsFresh(t, 2, 6)
  {
    assert T4[2..6] == [Fresh(5), Fresh(4), Fresh(3), Fresh(2)];
  }

  lemma InFifth(t: Sst)
    ensures t in T5[1..5] <==> t == X1 || t == Z1 || IsFresh(t, 0, 2)
  {
    assert T5[1..5] == [X1, Z1, Fresh(1), Fresh(0)];
  }

  lemma LiveThree(t: Sst)
    ensures t in T4 <==> t in L3
  {
    InFirst(t);
    InSecond(t);
    InFourth(t);
  }

  lemma LiveSix(t: Sst)
    ensures t in T7 <==> t in L6
  {
    LiveThree(t);
    InFourth(t);
    InFifth(t);
  }

  lemma Sorted(l: seq<Sst>, i: nat, j: nat)
    requires i < j < |l| && l[i].stamp < 13 && l[j].stamp < 13
    requires l[i].stamp > l[j].stamp || (l[i].stamp == l[j].stamp && l[i].merges > l[j].merges)
    ensures Keys.Less(Id(Env(), l[j]), Id(Env(), l[i]))
  {
    EnvIsClockwork();
    if l[i].stamp > l[j].stamp {
      NewerFlushSortsAfter(Env(), l[j].stamp, l[j].merges, l[i].stamp, l[i].merges);
    } else {
      MergedSortsAfter(Env(), l[i].stamp, l[j].merges, l[i].merges);
    }
  }

  lemma ListedThree()
    ensures Lists(Env(), T4, L3)
  {
    forall t ensures t in T4 <==> t in L3 { LiveThree(t); }
    FourthSorted();
  }

  lemma FourthSorted()
    ensures forall i, j :: 0 <= i < j < |T4| ==> Keys.Less(Id(Env(), T4[j]), Id(Env(), T4[i]))
  {
    forall i, j | 0 <= i < j < |T4| ensures Keys.Less(Id(Env(), T4[j]), Id(Env(), T4[i])) {
      assert j >= 2 ==> T4[j].stamp == 7 - j;
      Sorted(T4, i, j);
    }
  }

  lemma ListedSix()
    ensures Lists(Env(), T7, L6)
  {
    forall t ensures t in T7 <==> t in L6 { LiveSix(t); }
    Sorted(T7, 0, 1);
  }

  lemma HasFile(ids: set<(nat, nat)>, t: Sst)
    requires (forall p :: p in ids ==> p.0 < 13) && (t.stamp, t.merges) in ids
    ensures Id(Env(), t) in Names(ids)
  {
    NamesHold(ids, t.stamp, t.merges);
  }

  lemma OpensThree()
    ensures Opens(Env(), D3)
  {
    FourthFits();
    forall t | t in L3 ensures Id(Env(), t) in Names(P3) {
      LiveThree(t);
      InFourth(t);
      assert (t.stamp, t.merges) in P3;
      HasFile(P3, t);
    }
  }

  lemma OpensSix()
    ensures Opens(Env(), D6)
  {
    FifthFits();
    forall t | t in L6 ensures Id(Env(), t) in Names(P6) {
      LiveSix(t);
      HasFile(P6, t);
    }
  }

  lemma FirstRestart(ds: seq<Disk>, steps: seq<Step>) returns (ds': seq<Disk>, steps': seq<Step>)
    requires Reached(ds, steps, 29, D3) && |steps| > 29
    ensures Reached(ds', steps', 29, D4) && |steps'| > 29
  {
    ListedThree();
    OpensThree();
    assert Took(Env(), D3, Restart(T4), D4);
    Extend(ds, steps, 29, D3, Restart(T4), D4);
    ds', steps' := ds + [D4], steps + [Restart(T4)];
  }

  lemma FourthMerge()
    ensures MergeOf(T4[2..6], 1) == Z1
  {
    FourFlushes(2, 1);
    assert T4[2..6] == [Fresh(5), Fresh(4), Fresh(3), Fresh(2)];
  }

  lemma FifthMerge()
    ensures MergeOf(T5[1..5], 4) == X4
  {
    MergeOfFifth();
    assert T5[1..5] == [X1, Z1, Fresh(1), Fresh(0)];
  }

  // After the restart the flushes beneath are merged,
  lemma Fourth(ds: seq<Disk>, steps: seq<Step>) returns (ds': seq<Disk>, steps': seq<Step>)
    requires Reached(ds, steps, 29, D4) && |steps| > 29
    ensures Reached(ds', steps', 29, D5) && |steps'| > 29
  {
    Tiers4();
    FourthMerge();
    FourthFits();
    ds', steps' := CompactPairs(ds, steps, 29, D4, P3, 2, 6, 1, Z1, D5);
  }

  // and then, with that merge, what was left of the first.
  lemma Fifth(ds: seq<Disk>, steps: seq<Step>) returns (ds': seq<Disk>, steps': seq<Step>)
    requires Reached(ds, steps, 29, D5) && |steps| > 29
    ensures Reached(ds', steps', 29, D6) && |steps'| > 29
  {
    Tiers5();
    FifthMerge();
    FifthFits();
    ds', steps' := CompactPairs(ds, steps, 29, D5, P5, 1, 5, 4, X4, D6);
  }

  lemma SecondRestart(ds: seq<Disk>, steps: seq<Step>) returns (ds': seq<Disk>, steps': seq<Step>)
    requires Reached(ds, steps, 29, D6) && |steps| > 29
    ensures Reached(ds', steps', 29, D7) && |steps'| > 29 && steps'[|steps'| - 1].Restart?
  {
    ListedSix();
    OpensSix();
    assert Took(Env(), D6, Restart(T7), D7);
    Extend(ds, steps, 29, D6, Restart(T7), D7);
    ds', steps' := ds + [D7], steps + [Restart(T7)];
  }

  // Layers 0 to 5 are met before layers 6 to 8.
  lemma OlderMetFirst()
    ensures !Exact(13, Flat(Orders(T7)))
  {
    var orders := Orders(T7);
    assert orders == [X4.order, X3.order];
    FifthDistinct();
    DownAt(6, 13);
    DownBelow(6, 13);
    DownBelow(9, 13);
    DownBelow(0, 6);
    ListingReadsExactlyIff(13, orders);
    DownMembers(9, 13, 8); DownMembers(0, 6, 8); DownMembers(6, 13, 8);
    DownMembers(9, 13, 5); DownMembers(0, 6, 5);
    assert FirstHolder(orders, 8, 1) && FirstHolder(orders, 5, 0);
  }

  /** A run of flushes, compactions of four tables each and restarts, prudent in every step but
      one, in which one failed write to the manifest is the only error, and which ends in a
      restart that misreads some history. */
  lemma ImprudentRunMisreads() returns (ds: seq<Disk>, steps: seq<Step>)
    ensures Clockwork(Env()) && DiskRun(Env(), ds, steps) && |steps| > 29
    ensures forall i :: 0 <= i < |steps| ==> (Prudent(ds[i], steps[i]) <==> i != 29)
    ensures steps[|steps| - 1].Restart? && !Exact(ds[|steps|].layers, Flat(Orders(ds[|steps|].tables)))
  {
    ds, steps := First();
    ds, steps := Second(ds, steps);
    ds, steps := Third(ds, steps);
    ds, steps := FirstRestart(ds, steps);
    ds, steps := Fourth(ds, steps);
    ds, steps := Fifth(ds, steps);
    ds, steps := SecondRestart(ds, steps);
    EnvIsClockwork();
    OlderMetFirst();
  }
}
