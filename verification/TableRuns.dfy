/**
 What every run of flushes, compactions and restarts keeps, as long as no run is picked in a
 process that has registered a merge and failed to unregister its sources: each table holds
 one stretch of the layers, and the tables read right in memory and in any listing a restart
 could make.
 */
module TableRuns {
  import opened Wrappers
  import opened Sequences
  import opened Compaction
  import opened LayerOrder
  import opened TierLists
  import opened TableOrder
  import opened TableLists
  import Keys

  // ---------------------------------------------------------------- the invariant of runs

  // The tables flushed after the list was chosen from, newest first.
  function Recent(start: nat, end: nat): seq<Sst>
    decreases end
  {
    if end <= start then [] else [Fresh(end - 1)] + Recent(start, end - 1)
  }

  function Top(was: seq<Sst>): nat
    requires was != []
  {
    was[0].stamp + 1
  }

  // Layers in memory.
  function Shown(d: Disk): int {
    if d.flushed.Some? then d.layers - 1 else d.layers
  }

  // The list a compaction chose from, under what was flushed since.
  ghost predicate Under(env: Setting, d: Disk, was: seq<Sst>) {
    && was != [] && Top(was) <= Shown(d) && Fine(env, was, Top(was))
    && d.tables == Recent(Top(was), Shown(d)) + was
  }

  // What is live, in an order that reads right.
  function LiveList(d: Disk): seq<Sst> {
    match d.work
    case Idle => d.tables
    case Chosen(_, _, _) => d.tables
    case Added(was, lo, hi, t) =>
      if lo < hi <= |was| && Shown(d) >= 0 then Recent(Top(was), Shown(d)) + Inserted(was, lo, t) else []
    case Removed(was, lo, hi, t) =>
      if lo < hi <= |was| && Shown(d) >= 0 then Recent(Top(was), Shown(d)) + Replaced(was, lo, hi, t) else []
    case Stuck(was, lo, hi, t, landed) =>
      if lo < hi <= |was| && Shown(d) >= 0 then
        Recent(Top(was), Shown(d)) + (if landed then Replaced(was, lo, hi, t) else Inserted(was, lo, t))
      else []
  }

  // Both the list with the merge added and the list with its sources gone are in order.
  ghost predicate Merged(env: Setting, was: seq<Sst>, lo: nat, hi: nat, t: Sst) {
    && lo < hi <= |was|
    && Fine(env, Inserted(was, lo, t), Top(was)) && Fine(env, Replaced(was, lo, hi, t), Top(was))
    && t.stamp == was[lo].stamp && t !in was
  }

  ghost predicate WorkFine(env: Setting, d: Disk) {
    match d.work
    case Idle => Shown(d) >= 0 && Fine(env, d.tables, Shown(d)) && Steady(env, d.tables, d.files)
    case Chosen(was, lo, hi) => Under(env, d, was) && Steady(env, was, d.files) && BestRun(SizeTiers(env, was), lo, hi)
    case Added(was, lo, hi, t) =>
      Under(env, d, was) && Merged(env, was, lo, hi, t) && Steady(env, Replaced(was, lo, hi, t), d.files - Ids(env, was[lo..hi]))
    case Removed(was, lo, hi, t) =>
      Under(env, d, was) && Merged(env, was, lo, hi, t) && Steady(env, Replaced(was, lo, hi, t), d.files - Ids(env, was[lo..hi]))
    case Stuck(was, lo, hi, t, landed) => Under(env, d, was) && Merged(env, was, lo, hi, t)
  }

  ghost predicate LiveIs(d: Disk) {
    forall t :: t in d.live <==> t in LiveList(d) || d.flushed == Some(t)
  }

  ghost predicate Inv(env: Setting, d: Disk) {
    && Shown(d) >= 0 && d.layers <= env.limit && (d.flushed.Some? ==> d.flushed.value == Fresh(Shown(d)))
    && WorkFine(env, d)
    && LiveIs(d)
    && HasFiles(env, d)
  }

  // Only a merge whose registration failed may be live without its file.
  ghost predicate HasFiles(env: Setting, d: Disk) {
    forall t :: t in d.live && Id(env, t) !in d.files ==> d.work.Stuck? && t == d.work.merged
  }

  // ---------------------------------------------------------------- flushes on top

  lemma RecentStep(start: nat, end: nat, l: seq<Sst>)
    requires start <= end
    ensures Recent(start, end + 1) + l == [Fresh(end)] + (Recent(start, end) + l)
  {
    ConcatAssociates([Fresh(end)], Recent(start, end), l);
  }

  // What a flush on top of any list keeps.
  ghost predicate FlushSafe(keeps: (seq<Sst>, nat) -> bool, l: seq<Sst>, n: nat) {
    keeps(l, n) ==> keeps([Fresh(n)] + l, n + 1)
  }

  lemma {:induction false} RecentKeeps(keeps: (seq<Sst>, nat) -> bool, l: seq<Sst>, start: nat, end: nat)
    requires forall l, n :: FlushSafe(keeps, l, n)
    requires keeps(l, start) && start <= end
    ensures keeps(Recent(start, end) + l, end)
    decreases end
  {
    if start == end {
      assert Recent(start, end) + l == l;
    } else {
      RecentKeeps(keeps, l, start, end - 1);
      RecentStep(start, end - 1, l);
      assert FlushSafe(keeps, Recent(start, end - 1) + l, end - 1);
    }
  }

  lemma RecentFine(env: Setting, l: seq<Sst>, start: nat, end: nat)
    requires Fine(env, l, start) && start <= end
    ensures Fine(env, Recent(start, end) + l, end)
  {
    var keeps := (l: seq<Sst>, n: nat) => Fine(env, l, n);
    forall l, n ensures FlushSafe(keeps, l, n) {
      if Fine(env, l, n) { FlushFine(env, l, n); }
    }
    RecentKeeps(keeps, l, start, end);
  }

  lemma RecentSteady(env: Setting, l: seq<Sst>, start: nat, end: nat, files: set<string>)
    requires Fine(env, l, start) && start <= end && Steady(env, l, files)
    ensures Steady(env, Recent(start, end) + l, files)
  {
    var keeps := (l: seq<Sst>, n: nat) => Fine(env, l, n) && Steady(env, l, files);
    forall l, n ensures FlushSafe(keeps, l, n) {
      if keeps(l, n) {
        FlushFine(env, l, n);
        FlushSteady(env, l, n, files);
      }
    }
    RecentKeeps(keeps, l, start, end);
  }

  lemma TablesFine(env: Setting, d: Disk)
    requires Inv(env, d)
    ensures Fine(env, d.tables, Shown(d))
  {
    if !d.work.Idle? { RecentFine(env, d.work.was, Top(d.work.was), Shown(d)); }
  }

  lemma LiveFine(env: Setting, d: Disk)
    requires Inv(env, d)
    ensures Fine(env, LiveList(d), Shown(d))
  {
    match d.work
    case Idle =>
    case Chosen(was, lo, hi) => TablesFine(env, d);
    case Added(was, lo, hi, t) => RecentFine(env, Inserted(was, lo, t), Top(was), Shown(d));
    case Removed(was, lo, hi, t) => RecentFine(env, Replaced(was, lo, hi, t), Top(was), Shown(d));
    case Stuck(was, lo, hi, t, landed) =>
      RecentFine(env, if landed then Replaced(was, lo, hi, t) else Inserted(was, lo, t), Top(was), Shown(d));
  }

  // What is live, with a flush not yet in memory.
  function WithFlush(d: Disk): seq<Sst> {
    if d.flushed.Some? then [d.flushed.value] + LiveList(d) else LiveList(d)
  }

  lemma WithFlushFine(env: Setting, d: Disk)
    requires Inv(env, d)
    ensures Fine(env, WithFlush(d), d.layers)
    ensures forall t :: t in d.live <==> t in WithFlush(d)
  {
    LiveFine(env, d);
    if d.flushed.Some? { FlushFine(env, LiveList(d), Shown(d)); }
  }

  lemma MoreFiles(env: Setting, l: seq<Sst>, files: set<string>, more: set<string>)
    requires Steady(env, l, files) && files <= more
    ensures Steady(env, l, more)
  {
  }

  // ---------------------------------------------------------------- step by step

  lemma FlushAddsKeeps(env: Setting, d: Disk, d': Disk)
    requires Inv(env, d) && Took(env, d, FlushAdds, d')
    ensures Inv(env, d')
  {
    assert LiveIs(d') by { assert LiveList(d') == LiveList(d); }
    FilesGrow(env, d, d');
  }

  // A step that only adds files leaves what is known of the work.
  lemma FilesGrow(env: Setting, d: Disk, d': Disk)
    requires WorkFine(env, d) && d'.work == d.work && d'.tables == d.tables && Shown(d') == Shown(d) && d.files <= d'.files
    ensures WorkFine(env, d')
  {
    match d.work
    case Idle => MoreFiles(env, d.tables, d.files, d'.files);
    case Chosen(was, lo, hi) => MoreFiles(env, was, d.files, d'.files);
    case Added(was, lo, hi, t) =>
      MoreFiles(env, Replaced(was, lo, hi, t), d.files - Ids(env, was[lo..hi]), d'.files - Ids(env, was[lo..hi]));
    case Removed(was, lo, hi, t) =>
      MoreFiles(env, Replaced(was, lo, hi, t), d.files - Ids(env, was[lo..hi]), d'.files - Ids(env, was[lo..hi]));
    case Stuck(was, lo, hi, t, landed) =>
  }

  lemma LittersKeeps(env: Setting, d: Disk, name: string, d': Disk)
    requires Inv(env, d) && Took(env, d, Litters(name), d')
    ensures Inv(env, d')
  {
    assert LiveIs(d') by { assert LiveList(d') == LiveList(d); }
    FilesGrow(env, d, d');
  }

  lemma FlushShowsKeeps(env: Setting, d: Disk, d': Disk)
    requires Inv(env, d) && Took(env, d, FlushShows, d')
    ensures Inv(env, d')
  {
    FlushShowsWork(env, d, d');
    assert !d.work.Idle? ==> d.work.lo < d.work.hi <= |d.work.was|;
    FlushShowsLive(d, d');
  }

  lemma FlushShowsWork(env: Setting, d: Disk, d': Disk)
    requires Shown(d) >= 0 && d.flushed == Some(Fresh(Shown(d))) && WorkFine(env, d)
    requires d' == d.(tables := [d.flushed.value] + d.tables, flushed := None)
    ensures WorkFine(env, d')
  {
    var n := Shown(d);
    if d.work.Idle? {
      FlushFine(env, d.tables, n);
      FlushSteady(env, d.tables, n, d.files);
    } else {
      UnderFlush(env, d, d.work.was, d');
    }
  }

  lemma UnderFlush(env: Setting, d: Disk, was: seq<Sst>, d': Disk)
    requires Shown(d) >= 0 && d.flushed == Some(Fresh(Shown(d))) && Under(env, d, was)
    requires d' == d.(tables := [d.flushed.value] + d.tables, flushed := None)
    ensures Under(env, d', was)
  {
    RecentStep(Top(was), Shown(d), was);
  }

  lemma FlushShowsLive(d: Disk, d': Disk)
    requires Shown(d) >= 0 && d.flushed == Some(Fresh(Shown(d))) && (!d.work.Idle? ==> d.work.was != [] && Top(d.work.was) <= Shown(d))
    requires d' == d.(tables := [d.flushed.value] + d.tables, flushed := None)
    requires !d.work.Idle? ==> d.work.lo < d.work.hi <= |d.work.was|
    ensures LiveList(d') == [d.flushed.value] + LiveList(d)
  {
    var n := Shown(d);
    match d.work
    case Idle =>
    case Chosen(was, lo, hi) =>
    case Added(was, lo, hi, t) => RecentStep(Top(was), n, Inserted(was, lo, t));
    case Removed(was, lo, hi, t) => RecentStep(Top(was), n, Replaced(was, lo, hi, t));
    case Stuck(was, lo, hi, t, landed) =>
      RecentStep(Top(was), n, if landed then Replaced(was, lo, hi, t) else Inserted(was, lo, t));
  }

  lemma PicksKeeps(env: Setting, d: Disk, lo: nat, hi: nat, d': Disk)
    requires Inv(env, d) && Took(env, d, Picks(lo, hi), d') && d.work.Idle?
    ensures Inv(env, d')
  {
    assert SpansOf(d.tables)[0] == SpanOf(d.tables[0]);
    assert d.tables == Recent(Top(d.tables), Shown(d)) + d.tables;
    assert LiveList(d') == LiveList(d);
  }

  lemma AddsKeeps(env: Setting, d: Disk, merges: nat, d': Disk)
    requires Clockwork(env) && Inv(env, d) && Took(env, d, Adds(merges), d')
    ensures Inv(env, d')
  {
    assert WorkFine(env, d') by { AddsWork(env, d, merges, d'); }
    assert LiveIs(d') by { AddsLive(d, d'); }
    AddsFiles(env, d, d');
  }

  lemma AddsFiles(env: Setting, d: Disk, d': Disk)
    requires HasFiles(env, d) && d.work.Chosen? && d'.work.Added?
    requires d'.live == d.live + {d'.work.merged} && d'.files == d.files + {Id(env, d'.work.merged)}
    ensures HasFiles(env, d')
  {
  }

  lemma AddsLive(d: Disk, d': Disk)
    requires d.work.Chosen? && d.work.lo < d.work.hi <= |d.work.was| && Shown(d) >= 0
    requires d.tables == Recent(Top(d.work.was), Shown(d)) + d.work.was && Shown(d') == Shown(d)
    requires d'.work.Added? && d'.work == Added(d.work.was, d.work.lo, d.work.hi, d'.work.merged)
    ensures forall u :: u in LiveList(d') <==> u in LiveList(d) || u == d'.work.merged
  {
    InsertedMembers(d.work.was, d.work.lo, d.work.hi, d'.work.merged);
  }

  lemma AddsWork(env: Setting, d: Disk, merges: nat, d': Disk)
    requires Clockwork(env) && Inv(env, d) && Took(env, d, Adds(merges), d')
    ensures WorkFine(env, d')
  {
    var was, lo, hi, t := d.work.was, d.work.lo, d.work.hi, d'.work.merged;
    assert Under(env, d', was);
    assert Merged(env, was, lo, hi, t) && Steady(env, Replaced(was, lo, hi, t), d'.files - Ids(env, was[lo..hi])) by {
      ChosenMerging(env, d, merges);
      ChosenWork(env, was, lo, hi, merges, d.files, d'.files, t);
    }
  }

  lemma ChosenMerging(env: Setting, d: Disk, merges: nat)
    requires Clockwork(env) && Inv(env, d) && d.work.Chosen? && d.work.lo < d.work.hi <= |d.work.was|
    requires FirstFree(env, Run(d.work)[0], merges, d.files)
    ensures Merging(env, d.work.was, Top(d.work.was), d.work.lo, d.work.hi, merges, d.files)
  {
    assert forall u :: u in d.work.was ==> u in d.tables;
    assert Run(d.work)[0] == d.work.was[d.work.lo];
  }

  lemma ChosenWork(env: Setting, was: seq<Sst>, lo: nat, hi: nat, merges: nat, files: set<string>, files': set<string>, t: Sst)
    requires was != [] && Merging(env, was, Top(was), lo, hi, merges, files) && lo < hi <= |was| && files <= files'
    requires t == MergeOf(was[lo..hi], merges)
    ensures Merged(env, was, lo, hi, t) && Steady(env, Replaced(was, lo, hi, t), files' - Ids(env, was[lo..hi]))
  {
    assert was[lo..hi][0] == was[lo];
    MergeFine(env, was, Top(was), lo, hi, merges, files, t);
    MergeSteady(env, was, Top(was), lo, hi, merges, files, t);
    MoreFiles(env, Replaced(was, lo, hi, t), files - Ids(env, was[lo..hi]), files' - Ids(env, was[lo..hi]));
    NewIdIsNew(env, was, files, t);
  }

  lemma NewIdIsNew(env: Setting, l: seq<Sst>, files: set<string>, t: Sst)
    requires Filed(env, l, files) && Id(env, t) !in files
    ensures t !in l
  {
  }

  lemma GivesUpKeeps(env: Setting, d: Disk, d': Disk)
    requires Inv(env, d) && Took(env, d, GivesUp, d')
    ensures Inv(env, d')
  {
    TablesFine(env, d);
    ChosenSteady(env, d);
    assert LiveList(d') == LiveList(d);
  }

  lemma ChosenSteady(env: Setting, d: Disk)
    requires WorkFine(env, d) && d.work.Chosen?
    ensures Steady(env, d.tables, d.files)
  {
    RecentSteady(env, d.work.was, Top(d.work.was), Shown(d), d.files);
  }

  lemma RestartKeeps(env: Setting, d: Disk, listing: seq<Sst>, d': Disk)
    requires Clockwork(env) && Inv(env, d) && Took(env, d, Restart(listing), d')
    ensures Inv(env, d')
  {
    WithFlushFine(env, d);
    RestartFine(env, WithFlush(d), d.layers, listing);
  }

  // ---------------------------------------------------------------- dropping the sources

  // In the list with the merge added, the run's tables are the run's alone.
  lemma RunStandsAlone(env: Setting, d: Disk, was: seq<Sst>, lo: nat, hi: nat, t: Sst)
    requires Shown(d) >= 0 && Under(env, d, was) && Merged(env, was, lo, hi, t)
    ensures var r := Recent(Top(was), Shown(d));
            && Distinct(r + Inserted(was, lo, t))
            && (forall u :: u in r + Replaced(was, lo, hi, t) <==> u in r + Inserted(was, lo, t) && u !in was[lo..hi])
  {
    var r, a := Recent(Top(was), Shown(d)), Inserted(was, lo, t);
    RecentFine(env, a, Top(was), Shown(d));
    OnlyOnce(r, was, lo, hi, t);
  }

  lemma OnlyOnce(r: seq<Sst>, was: seq<Sst>, lo: nat, hi: nat, t: Sst)
    requires lo < hi <= |was| && Distinct(r + Inserted(was, lo, t))
    ensures forall u :: u in r + Replaced(was, lo, hi, t) <==> u in r + Inserted(was, lo, t) && u !in was[lo..hi]
  {
    var all := r + Inserted(was, lo, t);
    InsertedMembers(was, lo, hi, t);
    assert was == was[..lo] + was[lo..hi] + was[hi..];
    assert all == (r + was[..lo] + [t]) + was[lo..hi] + was[hi..];
    MiddleOnce(r + was[..lo] + [t], was[lo..hi], was[hi..]);
  }

  lemma MiddleOnce(a: seq<Sst>, b: seq<Sst>, c: seq<Sst>)
    requires Distinct(a + b + c)
    ensures forall u :: u in b ==> u !in a && u !in c
  {
    var all := a + b + c;
    forall u | u in b ensures u !in a && u !in c {
      var i :| 0 <= i < |b| && b[i] == u;
      assert all[|a| + i] == u;
      forall j | 0 <= j < |a| ensures a[j] != u { assert all[j] == a[j]; }
      forall j | 0 <= j < |c| ensures c[j] != u { assert all[|a| + |b| + j] == c[j]; }
    }
  }

  // A flush not yet in memory is newer than all that is.
  lemma FlushIsNewer(env: Setting, l: seq<Sst>, n: nat)
    requires Fine(env, l, n)
    ensures Fresh(n) !in l
  {
    StampsBelow(env, l, n);
  }

  lemma RemovesKeeps(env: Setting, d: Disk, d': Disk)
    requires Inv(env, d) && d.work.Added? && d.work.lo < d.work.hi <= |d.work.was| && d'.layers == d.layers
    requires d'.live == d.live - (set t | t in Run(d.work)) && d'.tables == d.tables && d'.files == d.files && d'.flushed == d.flushed
    requires d'.work == Removed(d.work.was, d.work.lo, d.work.hi, d.work.merged)
          || d'.work == Stuck(d.work.was, d.work.lo, d.work.hi, d.work.merged, true)
    ensures Inv(env, d')
  {
    RemovesLive(env, d, d');
  }

  lemma RemovesLive(env: Setting, d: Disk, d': Disk)
    requires Inv(env, d) && d.work.Added? && d.work.lo < d.work.hi <= |d.work.was| && Shown(d') == Shown(d)
    requires d'.live == d.live - (set t | t in Run(d.work)) && d'.flushed == d.flushed
    requires d'.work == Removed(d.work.was, d.work.lo, d.work.hi, d.work.merged)
          || d'.work == Stuck(d.work.was, d.work.lo, d.work.hi, d.work.merged, true)
    ensures LiveIs(d')
  {
    var was, lo, hi, t := d.work.was, d.work.lo, d.work.hi, d.work.merged;
    RunStandsAlone(env, d, was, lo, hi, t);
    FlushOutside(env, d, was, lo, hi);
    var r := Recent(Top(was), Shown(d));
    assert LiveList(d) == r + Inserted(was, lo, t) && LiveList(d') == r + Replaced(was, lo, hi, t);
  }

  lemma FlushOutside(env: Setting, d: Disk, was: seq<Sst>, lo: nat, hi: nat)
    requires Inv(env, d) && !d.work.Idle? && d.work.was == was && lo < hi <= |was|
    ensures d.flushed.Some? ==> d.flushed.value !in was[lo..hi]
  {
    TablesFine(env, d);
    FlushIsNewer(env, d.tables, Shown(d));
    assert forall u :: u in was[lo..hi] ==> u in was;
    assert forall u :: u in was ==> u in d.tables;
  }

  lemma RemoveFailsKeeps(env: Setting, d: Disk, landed: bool, d': Disk)
    requires Inv(env, d) && Took(env, d, RemoveFails(landed), d')
    ensures Inv(env, d')
  {
    if landed { RemovesKeeps(env, d, d'); } else { LostRemoveKeeps(env, d, d'); }
  }

  lemma LostRemoveKeeps(env: Setting, d: Disk, d': Disk)
    requires Inv(env, d) && d.work.Added?
    requires d' == d.(work := Stuck(d.work.was, d.work.lo, d.work.hi, d.work.merged, false))
    ensures Inv(env, d')
  {
    assert WorkFine(env, d');
    assert LiveIs(d') by { assert LiveList(d') == LiveList(d); }
  }

  // As if the merge had been registered and unregistering failed, but for its file.
  lemma AddFailsKeeps(env: Setting, d: Disk, merges: nat, kept: bool, d': Disk)
    requires Clockwork(env) && Inv(env, d) && Took(env, d, AddFails(merges, kept), d')
    ensures Inv(env, d')
  {
    var w, t := d.work, d'.work.merged;
    var e := d.(live := d.live + {t}, files := d.files + {Id(env, t)}, work := Added(w.was, w.lo, w.hi, t));
    var e' := e.(work := Stuck(w.was, w.lo, w.hi, t, false));
    AddsKeeps(env, d, merges, e);
    LostRemoveKeeps(env, e, e');
    LosesFile(env, e', d', d);
  }

  lemma LosesFile(env: Setting, e: Disk, e': Disk, d: Disk)
    requires Inv(env, e) && e.work.Stuck? && e' == e.(files := e'.files)
    requires HasFiles(env, d) && !d.work.Stuck? && d.files <= e'.files && e.live == d.live + {e.work.merged}
    ensures Inv(env, e')
  {
    assert LiveIs(e') by { assert LiveList(e') == LiveList(e); }
  }

  // ---------------------------------------------------------------- the swap

  /** The run a compaction chose stays whole in memory until the swap, at one place only: so
      replaceRun finds it. */
  lemma RunStaysInPlace(env: Setting, d: Disk, place: nat)
    requires Inv(env, d) && d.work.Removed?
    ensures var was, run := d.work.was, Run(d.work);
            var at := |d.tables| - |was| + d.work.lo;
            && at >= 0 && d.tables[at..at + |run|] == run
            && (place + |run| <= |d.tables| && d.tables[place..place + |run|] == run ==> place == at)
  {
    TablesFine(env, d);
    PlaceOfRun(Recent(Top(d.work.was), Shown(d)), d.work.was, d.work.lo, d.work.hi, place);
  }

  lemma PlaceOfRun(r: seq<Sst>, was: seq<Sst>, lo: nat, hi: nat, place: nat)
    requires lo < hi <= |was| && Distinct(r + was)
    ensures var l, n := r + was, hi - lo;
            && l[|r| + lo..|r| + lo + n] == was[lo..hi]
            && (place + n <= |l| && l[place..place + n] == was[lo..hi] ==> place == |r| + lo)
  {
    var l, n := r + was, hi - lo;
    assert l[|r| + lo..|r| + lo + n] == was[lo..hi];
    if place + n <= |l| && l[place..place + n] == was[lo..hi] {
      assert l[place] == l[place..place + n][0] == was[lo..hi][0] == l[|r| + lo];
    }
  }

  lemma SwapIsReplace(r: seq<Sst>, was: seq<Sst>, lo: nat, hi: nat, t: Sst)
    requires lo < hi <= |was|
    ensures Replaced(r + was, |r| + lo, |r| + hi, t) == r + Replaced(was, lo, hi, t)
  {
    assert (r + was)[..|r| + lo] == r + was[..lo];
    assert (r + was)[|r| + hi..] == was[hi..];
  }

  lemma SwapsKeeps(env: Setting, d: Disk, place: nat, gone: set<string>, d': Disk)
    requires Clockwork(env) && Inv(env, d) && Took(env, d, Swaps(place, gone), d')
    ensures Inv(env, d')
  {
    assert d'.tables == LiveList(d) by {
      TablesFine(env, d);
      SwapsTables(env, d, place, gone, d');
    }
    assert Fine(env, d'.tables, Shown(d')) by { LiveFine(env, d); }
    assert Steady(env, d'.tables, d'.files) by { SwapsSteady(env, d, d'.files); }
    SwapsFiles(env, d, gone);
  }

  lemma SwapsTables(env: Setting, d: Disk, place: nat, gone: set<string>, d': Disk)
    requires Took(env, d, Swaps(place, gone), d') && Shown(d) >= 0 && Distinct(d.tables)
    requires d.work.was != [] && d.tables == Recent(Top(d.work.was), Shown(d)) + d.work.was
    ensures d'.tables == LiveList(d)
  {
    SwapList(Recent(Top(d.work.was), Shown(d)), d.work.was, d.work.lo, d.work.hi, d.work.merged, d.tables, place);
  }

  lemma SwapList(r: seq<Sst>, was: seq<Sst>, lo: nat, hi: nat, t: Sst, tables: seq<Sst>, place: nat)
    requires lo < hi <= |was| && Distinct(tables) && tables == r + was
    requires place + (hi - lo) <= |tables| && tables[place..place + (hi - lo)] == was[lo..hi]
    ensures Replaced(tables, place, place + (hi - lo), t) == r + Replaced(was, lo, hi, t)
  {
    PlaceOfRun(r, was, lo, hi, place);
    SwapIsReplace(r, was, lo, hi, t);
  }

  lemma SwapsSteady(env: Setting, d: Disk, files: set<string>)
    requires Inv(env, d) && d.work.Removed? && d.files - Ids(env, Run(d.work)) <= files
    ensures Steady(env, LiveList(d), files)
  {
    var was, lo, hi, t := d.work.was, d.work.lo, d.work.hi, d.work.merged;
    RecentSteady(env, Replaced(was, lo, hi, t), Top(was), Shown(d), d.files - Ids(env, was[lo..hi]));
    MoreFiles(env, LiveList(d), d.files - Ids(env, was[lo..hi]), files);
  }

  lemma IdsApart(env: Setting, l: seq<Sst>, u: Sst, v: Sst)
    requires Clockwork(env) && Apart(l) && v in l && v.stamp < env.limit && u.stamp < env.limit
    requires (u in l && u != v) || u.stamp != v.stamp
    ensures Id(env, u) != Id(env, v)
  {
    if Id(env, u) == Id(env, v) { IdUnique(env, u.stamp, u.merges, v.stamp, v.merges); }
  }

  // Deleting the run's files deletes no live table's.
  lemma SwapsFiles(env: Setting, d: Disk, gone: set<string>)
    requires Clockwork(env) && Inv(env, d) && d.work.Removed? && gone <= Ids(env, Run(d.work))
    ensures forall u :: u in d.live ==> Id(env, u) in d.files - gone
  {
    var was, lo, hi, t := d.work.was, d.work.lo, d.work.hi, d.work.merged;
    var r := Recent(Top(was), Shown(d));
    var all := r + Inserted(was, lo, t);
    RunStandsAlone(env, d, was, lo, hi, t);
    RecentFine(env, Inserted(was, lo, t), Top(was), Shown(d));
    StampsBelow(env, all, Shown(d));
    InsertedMembers(was, lo, hi, t);
    assert LiveList(d) == r + Replaced(was, lo, hi, t);
    forall u, v | u in d.live && v in was[lo..hi] ensures Id(env, u) != Id(env, v) {
      assert v in was && v in all;
      assert d.flushed == Some(u) || (u in all && u != v);
      IdsApart(env, all, u, v);
    }
  }

  // ---------------------------------------------------------------- every run

  lemma StepKeeps(env: Setting, d: Disk, step: Step, d': Disk)
    requires Clockwork(env) && Inv(env, d) && Took(env, d, step, d') && Prudent(d, step)
    ensures Inv(env, d')
  {
    match step
    case FlushAdds => FlushAddsKeeps(env, d, d');
    case FlushShows => FlushShowsKeeps(env, d, d');
    case Litters(name) => LittersKeeps(env, d, name, d');
    case Picks(lo, hi) => PicksKeeps(env, d, lo, hi, d');
    case Adds(merges) => AddsKeeps(env, d, merges, d');
    case AddFails(merges, kept) => AddFailsKeeps(env, d, merges, kept, d');
    case Removes => RemovesKeeps(env, d, d');
    case RemoveFails(landed) => RemoveFailsKeeps(env, d, landed, d');
    case Swaps(place, gone) => SwapsKeeps(env, d, place, gone, d');
    case GivesUp => GivesUpKeeps(env, d, d');
    case Restart(listing) => RestartKeeps(env, d, listing, d');
  }

  ghost predicate PrudentRun(env: Setting, ds: seq<Disk>, steps: seq<Step>) {
    DiskRun(env, ds, steps) && forall i :: 0 <= i < |steps| ==> Prudent(ds[i], steps[i])
  }

  lemma {:induction false} RunKeeps(env: Setting, ds: seq<Disk>, steps: seq<Step>, i: nat)
    requires Clockwork(env) && PrudentRun(env, ds, steps) && i < |ds|
    ensures Inv(env, ds[i])
  {
    if i == 0 {
      assert SpansOf([]) == [];
    } else {
      RunKeeps(env, ds, steps, i - 1);
      StepKeeps(env, ds[i - 1], steps[i - 1], ds[i]);
    }
  }

  /** In every prudent run, whatever crashes and errors cut its compactions short: the tables
      in memory read every history of the layers flushed into them right; whatever a restart
      would list reads every history of all flushed layers right; and every live table holds
      one stretch of the layers, with no gap. */
  lemma PrudentRunsReadExactly(env: Setting, ds: seq<Disk>, steps: seq<Step>, i: nat, listing: seq<Sst>)
    requires Clockwork(env) && PrudentRun(env, ds, steps) && i < |ds| && Lists(env, listing, ds[i].live)
    ensures Shown(ds[i]) >= 0 && Exact(Shown(ds[i]), Flat(Orders(ds[i].tables)))
    ensures Exact(ds[i].layers, Flat(Orders(listing)))
    ensures forall t :: t in ds[i].live ==> Whole(t)
  {
    var d := ds[i];
    RunKeeps(env, ds, steps, i);
    TablesFine(env, d);
    FineReadsExactly(env, d.tables, Shown(d));
    WithFlushFine(env, d);
    RestartFine(env, WithFlush(d), d.layers, listing);
    FineReadsExactly(env, listing, d.layers);
    forall t | t in d.live ensures Whole(t) {
      var j :| 0 <= j < |WithFlush(d)| && WithFlush(d)[j] == t;
      assert Whole(WithFlush(d)[j]);
    }
  }

  /** In every prudent run a restart opens every table, if and only if no merge is stuck without
      its file: one whose registration reported an error after its line had reached the disk. */
  lemma RestartOpensIff(env: Setting, ds: seq<Disk>, steps: seq<Step>, i: nat)
    requires Clockwork(env) && PrudentRun(env, ds, steps) && i < |ds|
    ensures Opens(env, ds[i]) <==> (ds[i].work.Stuck? ==> Id(env, ds[i].work.merged) in ds[i].files)
  {
    var d := ds[i];
    RunKeeps(env, ds, steps, i);
    if d.work.Stuck? {
      assert d.work.merged in LiveList(d);
    }
  }

  /** Deleting the file of a merge whose registration failed is not harmless, as the code has it:
      if the line has reached the disk, the store does not open again. */
  lemma DeletedMergeDoesNotOpen(env: Setting, d: Disk, merges: nat, d': Disk, listing: seq<Sst>, d'': Disk)
    requires Took(env, d, AddFails(merges, false), d')
    ensures !Took(env, d', Restart(listing), d'')
  {
    assert d'.work.merged in d'.live && Id(env, d'.work.merged) !in d'.files;
  }

  function Flushes(steps: seq<Step>): nat {
    if steps == [] then 0 else Flushes(steps[..|steps| - 1]) + (if steps[|steps| - 1].FlushAdds? then 1 else 0)
  }

  /** The layers that have to be read are as many as there were flushes, in any run. */
  lemma {:induction false} LayersAreFlushes(env: Setting, ds: seq<Disk>, steps: seq<Step>, i: nat)
    requires DiskRun(env, ds, steps) && i <= |steps|
    ensures ds[i].layers == Flushes(steps[..i])
  {
    if i > 0 {
      LayersAreFlushes(env, ds, steps, i - 1);
      assert steps[..i][..i - 1] == steps[..i - 1];
    }
  }
}
