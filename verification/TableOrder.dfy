/**
 Which tables are live, in memory and on disk, over flushes, compactions and restarts.

 Every flush writes one layer. A table's ID is the timestamp of its newest flush with "_c"
 added per merge; a restart lists the live tables by ID, newest first. A compaction takes the
 run SelectTier chooses from the list in memory and registers the merge, then unregisters the
 sources, then swaps the list. It can be cut short between any two of these by a crash, or by
 an error after which the process runs on.
 */
module TableOrder {
  import opened Wrappers
  import opened Sequences
  import opened Compaction
  import opened LayerOrder
  import opened TierLists
  import Keys

  // A table: the layer of its newest flush, the "_c"s in its ID, and the layers it folds, in
  // the order its merges read them.
  datatype Sst = Sst(stamp: nat, merges: nat, order: seq<nat>)

  // How large a table of those layers is, and the timestamps of the flushes: there are as many
  // of them as fit in their width.
  datatype Setting = Setting(size: seq<nat> -> nat, stamp: nat -> string, limit: nat)

  // ---------------------------------------------------------------- IDs

  function Suffix(merges: nat): string {
    if merges == 0 then "" else Suffix(merges - 1) + "_c"
  }

  // "sst_<nanoseconds>" of the newest flush, then one "_c" per merge.
  function Name(env: Setting, stamp: nat, merges: nat): string {
    env.stamp(stamp) + Suffix(merges)
  }

  function Id(env: Setting, t: Sst): string {
    Name(env, t.stamp, t.merges)
  }

  // Timestamps grow, and are all of one width.
  ghost predicate Clockwork(env: Setting) {
    forall i, j :: 0 <= i < j < env.limit ==> |env.stamp(i)| == |env.stamp(j)| && Keys.Less(env.stamp(i), env.stamp(j))
  }

  lemma {:induction false} SuffixLength(merges: nat)
    ensures |Suffix(merges)| == 2 * merges
  {
    if merges > 0 { SuffixLength(merges - 1); }
  }

  lemma {:induction false} SuffixSplit(a: nat, b: nat)
    ensures Suffix(a + b) == Suffix(a) + Suffix(b)
    decreases b
  {
    if b > 0 {
      SuffixSplit(a, b - 1);
      ConcatAssociates(Suffix(a), Suffix(b - 1), "_c");
    }
  }

  // A merged table sorts after its newest source, and after any earlier merge of it.
  lemma MergedSortsAfter(env: Setting, stamp: nat, a: nat, b: nat)
    requires a < b
    ensures Keys.Less(Name(env, stamp, a), Name(env, stamp, b))
  {
    SuffixSplit(a, b - a);
    ConcatAssociates(env.stamp(stamp), Suffix(a), Suffix(b - a));
    SuffixLength(b - a);
    Keys.LessExtension(Name(env, stamp, a), Suffix(b - a));
  }

  // ... and before every table with a newer flush.
  lemma NewerFlushSortsAfter(env: Setting, s: nat, a: nat, s': nat, b: nat)
    requires Clockwork(env) && s < s' < env.limit
    ensures Keys.Less(Name(env, s, a), Name(env, s', b))
  {
    Keys.LessFixedWidth(env.stamp(s), env.stamp(s'), Suffix(a), Suffix(b));
  }

  // IDs sort by newest flush, then by merges.
  lemma IdOrder(env: Setting, s: nat, a: nat, s': nat, b: nat)
    requires Clockwork(env) && s < env.limit && s' < env.limit && Keys.Less(Name(env, s, a), Name(env, s', b))
    ensures s < s' || (s == s' && a < b)
  {
    Keys.LessIrreflexive(Name(env, s, a));
    if s > s' {
      NewerFlushSortsAfter(env, s', b, s, a);
      Keys.LessTransitive(Name(env, s, a), Name(env, s', b), Name(env, s, a));
    } else if s == s' && a > b {
      MergedSortsAfter(env, s, b, a);
      Keys.LessTransitive(Name(env, s, a), Name(env, s', b), Name(env, s, a));
    }
  }

  lemma IdUnique(env: Setting, s: nat, a: nat, s': nat, b: nat)
    requires Clockwork(env) && s < env.limit && s' < env.limit && Name(env, s, a) == Name(env, s', b)
    ensures s == s' && a == b
  {
    Keys.LessIrreflexive(Name(env, s, a));
    if s < s' {
      NewerFlushSortsAfter(env, s, a, s', b);
    } else if s > s' {
      NewerFlushSortsAfter(env, s', b, s, a);
    } else if a < b {
      MergedSortsAfter(env, s, a, b);
    } else if a > b {
      MergedSortsAfter(env, s, b, a);
    }
  }

  // The ID compactedID gives the merge of a run whose newest table is t: the first that is free.
  ghost predicate FirstFree(env: Setting, t: Sst, merges: nat, files: set<string>) {
    && t.merges < merges && Name(env, t.stamp, merges) !in files
    && forall m :: t.merges < m < merges ==> Name(env, t.stamp, m) in files
  }

  // compactedID's loop: keep adding "_c" until no file has the name.
  method CompactedId(env: Setting, t: Sst, files: set<string>) returns (id: string, merges: nat)
    ensures FirstFree(env, t, merges, files) && id == Name(env, t.stamp, merges)
  {
    id, merges := Id(env, t) + "_c", t.merges + 1;
    ghost var longer := set f | f in files && |f| >= |id|;
    while id in files
      invariant t.merges < merges && id == Name(env, t.stamp, merges)
      invariant forall m :: t.merges < m < merges ==> Name(env, t.stamp, m) in files
      invariant longer == set f | f in files && |f| >= |id|
      decreases longer
    {
      assert id in longer;
      ghost var next := id + "_c";
      longer := set f | f in files && |f| >= |next|;
      assert id !in longer;
      assert next == Name(env, t.stamp, merges + 1);
      id := id + "_c";
      merges := merges + 1;
    }
  }

  // ---------------------------------------------------------------- the steps

  function Orders(tables: seq<Sst>): seq<seq<nat>> {
    seq(|tables|, i requires 0 <= i < |tables| => tables[i].order)
  }

  function SizeTiers(env: Setting, tables: seq<Sst>): seq<nat> {
    seq<nat>(|tables|, i requires 0 <= i < |tables| => TierOf(env.size(tables[i].order)))
  }

  function Fresh(n: nat): Sst {
    Sst(n, 0, [n])
  }

  // A compaction under way: the list it chose [lo, hi) from, and the merge once registered.
  datatype Work =
    | Idle
    | Chosen(was: seq<Sst>, lo: nat, hi: nat)
    | Added(was: seq<Sst>, lo: nat, hi: nat, merged: Sst)
    | Removed(was: seq<Sst>, lo: nat, hi: nat, merged: Sst)
    | Stuck(was: seq<Sst>, lo: nat, hi: nat, merged: Sst, landed: bool)   // an error once it was

  datatype Disk = Disk(
    layers: nat,               // flushed and registered so far
    tables: seq<Sst>,          // in memory, newest first
    live: set<Sst>,            // what the manifest on disk says is live
    files: set<string>,        // the table files there are, by ID
    flushed: Option<Sst>,      // a flush registered but not yet in memory
    work: Work
  )

  datatype Step =
    | FlushAdds
    | FlushShows
    | Litters(name: string)            // a file written and then never registered
    | Picks(lo: nat, hi: nat)
    | Adds(merges: nat)
    | AddFails(merges: nat, kept: bool)  // the line has reached the disk; the file goes, if it can
    | Removes
    | RemoveFails(landed: bool)        // the line may have reached the disk or not
    | Swaps(place: nat, gone: set<string>)
    | GivesUp                          // an error before the merge is registered
    | Restart(listing: seq<Sst>)

  function MergeOf(run: seq<Sst>, merges: nat): Sst
    requires run != []
  {
    Sst(run[0].stamp, merges, Firsts(Flat(Orders(run))))
  }

  function Ids(env: Setting, tables: seq<Sst>): set<string> {
    set t | t in tables :: Id(env, t)
  }

  // loadLiveSSTables: what is live, IDs descending.
  ghost predicate Lists(env: Setting, listing: seq<Sst>, live: set<Sst>) {
    && (forall t :: t in listing <==> t in live)
    && forall i, j :: 0 <= i < j < |listing| ==> Keys.Less(Id(env, listing[j]), Id(env, listing[i]))
  }

  // Every live table has its file: a restart fails on one that has not.
  ghost predicate Opens(env: Setting, d: Disk) {
    forall t :: t in d.live ==> Id(env, t) in d.files
  }

  function Run(w: Work): seq<Sst>
    requires !w.Idle? && w.lo < w.hi <= |w.was|
  {
    w.was[w.lo..w.hi]
  }

  ghost predicate Took(env: Setting, d: Disk, step: Step, d': Disk) {
    match step
    case FlushAdds =>
      var t := Fresh(d.layers);
      && d.flushed.None? && d.layers < env.limit
      && d' == d.(layers := d.layers + 1, live := d.live + {t}, files := d.files + {Id(env, t)}, flushed := Some(t))
    case FlushShows =>
      && d.flushed.Some?
      && d' == d.(tables := [d.flushed.value] + d.tables, flushed := None)
    case Litters(name) =>
      d' == d.(files := d.files + {name})
    case Picks(lo, hi) =>
      && (d.work.Idle? || d.work.Stuck?) && BestRun(SizeTiers(env, d.tables), lo, hi)
      && d' == d.(work := Chosen(d.tables, lo, hi))
    case Adds(merges) =>
      && d.work.Chosen? && d.work.lo < d.work.hi <= |d.work.was|
      && FirstFree(env, Run(d.work)[0], merges, d.files)
      && var t := MergeOf(Run(d.work), merges);
         d' == d.(live := d.live + {t}, files := d.files + {Id(env, t)},
                  work := Added(d.work.was, d.work.lo, d.work.hi, t))
    case AddFails(merges, kept) =>
      && d.work.Chosen? && d.work.lo < d.work.hi <= |d.work.was|
      && FirstFree(env, Run(d.work)[0], merges, d.files)
      && var t := MergeOf(Run(d.work), merges);
         d' == d.(live := d.live + {t}, files := if kept then d.files + {Id(env, t)} else d.files,
                  work := Stuck(d.work.was, d.work.lo, d.work.hi, t, false))
    case Removes =>
      && d.work.Added? && d.work.lo < d.work.hi <= |d.work.was|
      && d' == d.(live := d.live - (set t | t in Run(d.work)),
                  work := Removed(d.work.was, d.work.lo, d.work.hi, d.work.merged))
    case RemoveFails(landed) =>
      && d.work.Added? && d.work.lo < d.work.hi <= |d.work.was|
      && d' == d.(live := if landed then d.live - (set t | t in Run(d.work)) else d.live,
                  work := Stuck(d.work.was, d.work.lo, d.work.hi, d.work.merged, landed))
    case Swaps(place, gone) =>
      && d.work.Removed? && d.work.lo < d.work.hi <= |d.work.was|
      && var run := Run(d.work);
         && place + |run| <= |d.tables| && d.tables[place..place + |run|] == run
         && gone <= Ids(env, run)
         && d' == d.(tables := Replaced(d.tables, place, place + |run|, d.work.merged), files := d.files - gone, work := Idle)
    case GivesUp =>
      && d.work.Chosen?
      && d' == d.(work := Idle)
    case Restart(listing) =>
      && Lists(env, listing, d.live) && Opens(env, d)
      && d' == d.(tables := listing, flushed := None, work := Idle)
  }

  // No run is picked in the process in which a merge was registered and its sources are still.
  predicate Prudent(d: Disk, step: Step) {
    step.Picks? ==> d.work.Idle?
  }

  ghost predicate DiskRun(env: Setting, ds: seq<Disk>, steps: seq<Step>) {
    && |ds| == |steps| + 1 && ds[0] == Disk(0, [], {}, {}, None, Idle)
    && forall i :: 0 <= i < |steps| ==> Took(env, ds[i], steps[i], ds[i + 1])
  }

  // ---------------------------------------------------------------- lists with one run exchanged

  function Replaced(l: seq<Sst>, lo: nat, hi: nat, t: Sst): seq<Sst>
    requires lo < hi <= |l|
  {
    l[..lo] + [t] + l[hi..]
  }

  function Inserted(l: seq<Sst>, lo: nat, t: Sst): seq<Sst>
    requires lo <= |l|
  {
    l[..lo] + [t] + l[lo..]
  }
}
