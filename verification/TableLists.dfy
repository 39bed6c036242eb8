/**
 Lists of tables that each hold one stretch of the layers, with IDs that sort as the stretches
 do: how such lists read, and that flushes, merges and restarts leave them such lists.
 */
module TableLists {
  import opened Sequences
  import opened Compaction
  import opened LayerOrder
  import opened TierLists
  import opened TableOrder
  import Keys

  // ---------------------------------------------------------------- tables as stretches

  function Low(t: Sst): nat {
    if t.order == [] then t.stamp else t.order[|t.order| - 1]
  }

  function SpanOf(t: Sst): Span {
    Span(Low(t), t.stamp + 1)
  }

  // t holds the layers from its newest flush down, without a gap.
  predicate Whole(t: Sst) {
    Low(t) <= t.stamp && t.order == Down(Low(t), t.stamp + 1)
  }

  function SpansOf(l: seq<Sst>): seq<Span> {
    seq(|l|, i requires 0 <= i < |l| => SpanOf(l[i]))
  }

  function SpanTier(env: Setting): Span -> nat {
    (s: Span) => TierOf(env.size(Down(s.lo, s.hi)))
  }

  predicate AllWhole(l: seq<Sst>) {
    forall i {:trigger Whole(l[i])} :: 0 <= i < |l| ==> Whole(l[i])
  }

  // Equal stretches make equal tables, so of one size.
  lemma SizeTiersOf(env: Setting, l: seq<Sst>)
    requires AllWhole(l)
    ensures SizeTiers(env, l) == TiersOf(SpansOf(l), SpanTier(env))
  {
    forall i | 0 <= i < |l| ensures l[i].order == Down(Low(l[i]), l[i].stamp + 1) { assert Whole(l[i]); }
  }

  // No two tables have one ID.
  ghost predicate Apart(l: seq<Sst>) {
    && Distinct(l)
    && forall t, u :: t in l && u in l && t.stamp == u.stamp && t.merges == u.merges ==> t == u
  }

  // Of tables with one newest flush, the more merged reach further back.
  ghost predicate Ranked(l: seq<Sst>) {
    forall t, u :: t in l && u in l && t.stamp == u.stamp && t.merges >= u.merges ==> Low(t) <= Low(u)
  }

  ghost predicate Fine(env: Setting, l: seq<Sst>, n: nat) {
    && AllWhole(l) && Apart(l) && Ranked(l)
    && Sound(SpansOf(l), SpanTier(env)) && FullReach(SpansOf(l), n)
  }

  // Where the list has a less merged table above a more merged one of the same flush, every
  // ID between theirs is taken.
  ghost predicate Steady(env: Setting, l: seq<Sst>, files: set<string>) {
    forall i, j, m :: 0 <= i < j < |l| && l[i].stamp == l[j].stamp && l[i].merges < m < l[j].merges ==>
      Name(env, l[i].stamp, m) in files
  }

  ghost predicate Filed(env: Setting, l: seq<Sst>, files: set<string>) {
    forall t :: t in l ==> Id(env, t) in files
  }

  // ---------------------------------------------------------------- reading

  // Stretches no newer than the first, each reaching up to the one before it.
  predicate Chain(l: seq<Sst>) {
    && AllWhole(l)
    && forall i :: 0 < i < |l| ==> l[i].stamp <= l[0].stamp && l[i].stamp + 1 >= Low(l[i - 1])
  }

  function Lowest(l: seq<Sst>): nat
    requires l != []
  {
    var low := Low(l[|l| - 1]);
    if |l| == 1 then low else
      var above := Lowest(l[..|l| - 1]);
      if low < above then low else above
  }

  lemma {:induction false} LowestIsLast(l: seq<Sst>, c: nat)
    requires l != [] && forall i :: 0 <= i < |l| ==> Low(l[i]) >= c
    ensures c <= Lowest(l) <= Low(l[|l| - 1])
  {
    if |l| > 1 { LowestIsLast(l[..|l| - 1], c); }
  }

  // A chain meets its layers newest first, from its newest down to its lowest.
  lemma {:induction false} ChainMeets(l: seq<Sst>)
    requires l != [] && Chain(l)
    ensures Lowest(l) <= l[0].stamp + 1
    ensures Firsts(Flat(Orders(l))) == Down(Lowest(l), l[0].stamp + 1)
  {
    var front, last := l[..|l| - 1], l[|l| - 1];
    OrdersStep(l);
    if |l| == 1 {
      assert Whole(l[0]) && Flat(Orders(front)) == [];
      NextMeets([], last.stamp + 1, last.stamp + 1, last);
    } else {
      ChainStep(l);
      ChainMeets(front);
      LowestIsLast(front, 0);
      NextMeets(Flat(Orders(front)), Lowest(front), l[0].stamp + 1, last);
    }
  }

  lemma NextMeets(order: seq<nat>, c: nat, n: nat, t: Sst)
    requires Whole(t) && Firsts(order) == Down(c, n) && c <= n && t.stamp < n && t.stamp + 1 >= c
    ensures Firsts(order + t.order) == Down(if Low(t) < c then Low(t) else c, n)
  {
    StretchExtends(order, c, n, Low(t), t.stamp + 1);
  }

  lemma OrdersStep(l: seq<Sst>)
    requires l != []
    ensures Flat(Orders(l)) == Flat(Orders(l[..|l| - 1])) + l[|l| - 1].order
  {
    assert Orders(l)[..|l| - 1] == Orders(l[..|l| - 1]);
  }

  lemma ChainStep(l: seq<Sst>)
    requires |l| > 1 && Chain(l)
    ensures var front, last := l[..|l| - 1], l[|l| - 1];
            && Chain(front) && front[0] == l[0] && Whole(last)
            && last.stamp <= l[0].stamp && last.stamp + 1 >= Low(front[|front| - 1])
  {
    var front := l[..|l| - 1];
    assert Whole(l[|l| - 1]);
    forall i | 0 <= i < |front| ensures Whole(front[i]) { assert Whole(l[i]); }
  }

  lemma TightIsChain(l: seq<Sst>, w: seq<Span>, lo: nat, hi: nat)
    requires lo < hi <= |l| && AllWhole(l) && w == SpansOf(l) && NewestFirst(w) && Tight(w)
    ensures Chain(l[lo..hi])
  {
    var run := l[lo..hi];
    forall i | 0 <= i < |run| ensures Whole(run[i]) { assert Whole(l[lo + i]); }
    forall i | 0 < i < |run| ensures run[i].stamp <= run[0].stamp && run[i].stamp + 1 >= Low(run[i - 1]) {
      assert run[i] == l[lo + i] && run[i - 1] == l[lo + i - 1] && run[0] == l[lo];
      assert w[lo + i].hi >= w[lo + i - 1].lo && w[lo].hi >= w[lo + i].hi;
    }
  }

  lemma TightMeets(l: seq<Sst>, w: seq<Span>, n: nat)
    requires AllWhole(l) && w == SpansOf(l) && NewestFirst(w) && Tight(w) && FullReach(w, n)
    ensures Firsts(Flat(Orders(l))) == Down(0, n)
  {
    if l != [] {
      TightIsChain(l, w, 0, |l|);
      assert l[0..|l|] == l && w[0] == SpanOf(l[0]) && w[|l| - 1] == SpanOf(l[|l| - 1]);
      ChainMeets(l);
      LowestIsLast(l, 0);
    }
  }

  /** A list that keeps the invariant reads every history right. */
  lemma FineReadsExactly(env: Setting, l: seq<Sst>, n: nat)
    requires Fine(env, l, n)
    ensures Exact(n, Flat(Orders(l)))
  {
    TightMeets(l, SpansOf(l), n);
    FirstsMeet(n, Flat(Orders(l)));
    ExactIff(n, Flat(Orders(l)));
  }

  lemma FirstsMeet(n: nat, order: seq<nat>)
    requires Firsts(order) == Down(0, n)
    ensures Below(order, n) && NewestMetFirst(n, order)
  {
    FirstsFacts(order);
    forall x: nat ensures x in order <==> x < n {
      DownMembers(0, n, x);
      assert x in Firsts(order) <==> x in order;
    }
    forall x: nat, y: nat | y < x < n ensures Precedes(order, x, y) {
      DownPrecedes(0, n, x, y);
      FirstsKeepOrder(order, x, y);
    }
    forall i | 0 <= i < |order| ensures order[i] < n { assert order[i] in order; }
  }

  // ---------------------------------------------------------------- a flush

  lemma FlushFine(env: Setting, l: seq<Sst>, n: nat)
    requires Fine(env, l, n)
    ensures Fine(env, [Fresh(n)] + l, n + 1)
  {
    StampsBelow(env, l, n);
    FlushApart(l, n);
    FlushSpans(l, n);
    FlushKeepsSound(SpansOf(l), SpanTier(env), n);
  }

  lemma FlushApart(l: seq<Sst>, n: nat)
    requires AllWhole(l) && Apart(l) && Ranked(l) && forall t :: t in l ==> t.stamp < n
    ensures var l' := [Fresh(n)] + l; AllWhole(l') && Apart(l') && Ranked(l')
  {
    var l' := [Fresh(n)] + l;
    FlushWhole(l, n);
    assert forall t :: t in l' ==> t == Fresh(n) || t in l;
    forall i, j | 0 <= i < j < |l'| ensures l'[i] != l'[j] { assert l'[j] == l[j - 1] && l[j - 1] in l; }
  }

  lemma FlushWhole(l: seq<Sst>, n: nat)
    requires AllWhole(l)
    ensures AllWhole([Fresh(n)] + l)
  {
    var l' := [Fresh(n)] + l;
    assert Whole(Fresh(n)) by { assert Down(n + 1, n + 1) == []; }
    forall i | 0 <= i < |l'| ensures Whole(l'[i]) { if i > 0 { assert l'[i] == l[i - 1] && Whole(l[i - 1]); } }
  }

  lemma FlushSpans(l: seq<Sst>, n: nat)
    ensures SpansOf([Fresh(n)] + l) == [Span(n, n + 1)] + SpansOf(l)
    ensures FullReach(SpansOf(l), n) ==> FullReach(SpansOf([Fresh(n)] + l), n + 1)
  {
    var w, w' := SpansOf(l), SpansOf([Fresh(n)] + l);
    assert w' == [Span(n, n + 1)] + w;
    assert w != [] ==> w'[|w|] == w[|w| - 1];
  }

  lemma StampsBelow(env: Setting, l: seq<Sst>, n: nat)
    requires Fine(env, l, n)
    ensures forall t :: t in l ==> t.stamp < n
  {
    forall t | t in l ensures t.stamp < n {
      var i :| 0 <= i < |l| && l[i] == t;
      assert SpansOf(l)[0].hi >= SpansOf(l)[i].hi;
    }
  }

  lemma FlushSteady(env: Setting, l: seq<Sst>, n: nat, files: set<string>)
    requires Fine(env, l, n) && Steady(env, l, files)
    ensures Steady(env, [Fresh(n)] + l, files)
  {
    StampsBelow(env, l, n);
    var l' := [Fresh(n)] + l;
    forall i, j, m | 0 <= i < j < |l'| && l'[i].stamp == l'[j].stamp && l'[i].merges < m < l'[j].merges
      ensures Name(env, l'[i].stamp, m) in files
    {
      assert l'[j] == l[j - 1] && l[j - 1] in l;
      assert i > 0 && l'[i] == l[i - 1];
    }
  }

  // ---------------------------------------------------------------- a restart

  // Newest layer first; of those with one newest layer, the longest first.
  predicate InOrder(w: seq<Span>) {
    NewestFirst(w) && LongestFirst(w)
  }

  lemma RestartInOrder(env: Setting, l: seq<Sst>, listing: seq<Sst>)
    requires Clockwork(env) && Ranked(l) && (forall t :: t in listing ==> t in l) && forall t :: t in l ==> t.stamp < env.limit
    requires forall i, j :: 0 <= i < j < |listing| ==> Keys.Less(Id(env, listing[j]), Id(env, listing[i]))
    ensures InOrder(SpansOf(listing)) && Distinct(listing) && forall files :: Steady(env, listing, files)
  {
    forall i, j | 0 <= i < j < |listing|
      ensures listing[i].stamp > listing[j].stamp
           || (listing[i].stamp == listing[j].stamp && listing[i].merges > listing[j].merges)
    {
      IdOrder(env, listing[j].stamp, listing[j].merges, listing[i].stamp, listing[i].merges);
    }
    forall i, j | 0 <= i < j < |listing| && listing[i].stamp == listing[j].stamp
      ensures Low(listing[i]) <= Low(listing[j])
    {
      assert listing[i] in l && listing[j] in l;
    }
  }

  function Dropped(l: seq<Sst>, k: nat): seq<Sst>
    requires k < |l|
  {
    l[..k] + l[k + 1..]
  }

  /** Two listings of the same tables, both in order, are lists of the same stretches. */
  lemma {:induction false} OrderIsUnique(a: seq<Sst>, b: seq<Sst>)
    requires Distinct(a) && Distinct(b) && (forall t :: t in a <==> t in b)
    requires InOrder(SpansOf(a)) && InOrder(SpansOf(b))
    ensures SpansOf(a) == SpansOf(b)
    decreases |a|
  {
    BothEmpty(a, b);
    if a != [] {
      assert a[0] in b;
      var k :| 0 <= k < |b| && b[k] == a[0];
      var rest := Dropped(b, k);
      DroppedMembers(a, b, k);
      DroppedInOrder(b, k);
      TailInOrder(a);
      OrderIsUnique(a[1..], rest);
      FirstAreEqual(a, b, k);
      DroppedSpans(b, k);
      assert SpansOf(a) == [SpanOf(a[0])] + SpansOf(a[1..]);
    }
  }

  lemma BothEmpty(a: seq<Sst>, b: seq<Sst>)
    requires forall t :: t in a <==> t in b
    ensures a == [] <==> b == []
  {
    if a != [] { assert a[0] in a; }
    if b != [] { assert b[0] in b; }
  }

  lemma DroppedMembers(a: seq<Sst>, b: seq<Sst>, k: nat)
    requires a != [] && Distinct(a) && Distinct(b) && (forall t :: t in a <==> t in b) && k < |b| && b[k] == a[0]
    ensures forall t :: t in a[1..] <==> t in Dropped(b, k)
    ensures Distinct(Dropped(b, k))
  {
    var rest := Dropped(b, k);
    forall i | 0 <= i < |rest| ensures rest[i] == b[if i < k then i else i + 1] {}
    forall t ensures t in a[1..] <==> t in rest {
      if t in a[1..] {
        var i :| 0 <= i < |a| - 1 && a[1..][i] == t;
        assert a[i + 1] == t && t in a && t in b;
        var j :| 0 <= j < |b| && b[j] == t;
        assert j != k;
        assert rest[if j < k then j else j - 1] == t;
      }
      if t in rest {
        var i :| 0 <= i < |rest| && rest[i] == t;
        assert t in b && t in a;
        var j :| 0 <= j < |a| && a[j] == t;
        assert b[if i < k then i else i + 1] != b[k];
        assert a[1..][j - 1] == t;
      }
    }
  }

  lemma DroppedInOrder(b: seq<Sst>, k: nat)
    requires k < |b| && InOrder(SpansOf(b))
    ensures InOrder(SpansOf(Dropped(b, k)))
  {
    var rest := Dropped(b, k);
    assert forall i :: 0 <= i < |rest| ==> SpansOf(rest)[i] == SpansOf(b)[if i < k then i else i + 1];
  }

  lemma TailInOrder(a: seq<Sst>)
    requires a != [] && InOrder(SpansOf(a)) && Distinct(a)
    ensures InOrder(SpansOf(a[1..])) && Distinct(a[1..])
  {
    assert forall i :: 0 <= i < |a| - 1 ==> SpansOf(a[1..])[i] == SpansOf(a)[i + 1] && a[1..][i] == a[i + 1];
  }

  // What is listed first is of the first stretch in either.
  lemma FirstAreEqual(a: seq<Sst>, b: seq<Sst>, k: nat)
    requires a != [] && (forall t :: t in a <==> t in b) && k < |b| && b[k] == a[0]
    requires InOrder(SpansOf(a)) && InOrder(SpansOf(b))
    ensures forall i :: 0 <= i <= k ==> SpanOf(b[i]) == SpanOf(a[0])
  {
    forall i | 0 <= i < k ensures SpanOf(b[i]) == SpanOf(a[0]) {
      assert b[i] in a;
      var j :| 0 <= j < |a| && a[j] == b[i];
      assert SpansOf(b)[i].hi >= SpansOf(b)[k].hi && SpansOf(a)[0].hi >= SpansOf(a)[j].hi;
    }
  }

  lemma DroppedSpans(b: seq<Sst>, k: nat)
    requires k < |b| && forall i :: 0 <= i <= k ==> SpanOf(b[i]) == SpanOf(b[0])
    ensures SpansOf(b) == [SpanOf(b[0])] + SpansOf(Dropped(b, k))
  {
    var x, y := SpansOf(b), [SpanOf(b[0])] + SpansOf(Dropped(b, k));
    forall i | 0 <= i < |b| ensures x[i] == y[i] {
      if i > k { assert Dropped(b, k)[i - 1] == b[i]; } else if i > 0 { assert Dropped(b, k)[i - 1] == b[i - 1]; }
    }
  }

  /** A restart lists what keeps the invariant as something that keeps it. */
  lemma RestartFine(env: Setting, l: seq<Sst>, n: nat, listing: seq<Sst>)
    requires Clockwork(env) && Fine(env, l, n) && n <= env.limit && forall t :: t in listing <==> t in l
    requires forall i, j :: 0 <= i < j < |listing| ==> Keys.Less(Id(env, listing[j]), Id(env, listing[i]))
    ensures Fine(env, listing, n) && forall files :: Steady(env, listing, files)
  {
    StampsBelow(env, l, n);
    RestartInOrder(env, l, listing);
    OrderIsUnique(l, listing);
    forall i | 0 <= i < |listing| ensures Whole(listing[i]) {
      assert listing[i] in l;
      var j :| 0 <= j < |l| && l[j] == listing[i];
      assert Whole(l[j]);
    }
  }

  // ---------------------------------------------------------------- a merge

  // A run is chosen from l, and its merge gets the k-th "_c".
  ghost predicate Merging(env: Setting, l: seq<Sst>, n: nat, lo: nat, hi: nat, k: nat, files: set<string>) {
    && Clockwork(env) && Fine(env, l, n) && n <= env.limit && Steady(env, l, files) && Filed(env, l, files)
    && BestRun(SizeTiers(env, l), lo, hi) && FirstFree(env, l[lo], k, files)
  }

  lemma BestOfSpans(env: Setting, l: seq<Sst>, n: nat, lo: nat, hi: nat)
    requires Fine(env, l, n) && BestRun(SizeTiers(env, l), lo, hi)
    ensures lo < hi <= |l| && BestRun(TiersOf(SpansOf(l), SpanTier(env)), lo, hi)
  {
    SizeTiersOf(env, l);
  }

  // The run skips no layer, and its oldest table reaches lowest.
  lemma RunMeets(l: seq<Sst>, w: seq<Span>, lo: nat, hi: nat)
    requires lo < hi <= |l| && AllWhole(l) && w == SpansOf(l) && NewestFirst(w) && Tight(w) && Floor(w, hi, w[hi - 1].lo)
    ensures Firsts(Flat(Orders(l[lo..hi]))) == Down(Low(l[hi - 1]), l[lo].stamp + 1)
  {
    var run := l[lo..hi];
    TightIsChain(l, w, lo, hi);
    ChainMeets(run);
    assert run[|run| - 1] == l[hi - 1] && run[0] == l[lo] && w[hi - 1] == SpanOf(l[hi - 1]);
    forall i | 0 <= i < |run| ensures Low(run[i]) >= Low(l[hi - 1]) {
      assert w[lo + i] == SpanOf(run[i]);
    }
    LowestIsLast(run, Low(l[hi - 1]));
  }

  // The merge is one stretch.
  lemma MergeIsWhole(env: Setting, l: seq<Sst>, n: nat, lo: nat, hi: nat, k: nat)
    requires Fine(env, l, n) && BestRun(SizeTiers(env, l), lo, hi)
    ensures lo < hi <= |l|
    ensures var t := MergeOf(l[lo..hi], k);
            Whole(t) && SpanOf(t) == MergedSpan(SpansOf(l), lo, hi) && t.stamp == l[lo].stamp && t.merges == k
  {
    BestOfSpans(env, l, n, lo, hi);
    RunFloor(SpansOf(l), SpanTier(env), lo, hi);
    RunMeets(l, SpansOf(l), lo, hi);
    MergedFits(l, SpansOf(l), lo, hi);
    StretchIsWhole(MergeOf(l[lo..hi], k), Low(l[hi - 1]));
  }

  lemma MergedFits(l: seq<Sst>, w: seq<Span>, lo: nat, hi: nat)
    requires lo < hi <= |l| && AllWhole(l) && w == SpansOf(l) && NewestFirst(w)
    ensures Low(l[hi - 1]) <= l[lo].stamp && l[lo..hi][0] == l[lo]
    ensures MergedSpan(w, lo, hi) == Span(Low(l[hi - 1]), l[lo].stamp + 1)
  {
    assert Whole(l[hi - 1]) && w[lo].hi >= w[hi - 1].hi;
  }

  lemma StretchIsWhole(t: Sst, low: nat)
    requires low <= t.stamp && t.order == Down(low, t.stamp + 1)
    ensures Whole(t) && Low(t) == low
  {
    DownTop(low, t.stamp + 1);
  }

  // Tables of the run's newest flush: above the run, copies of the merge; from the run down,
  // less merged than the merge and reaching no further back.
  lemma TwinsAbove(env: Setting, l: seq<Sst>, n: nat, lo: nat, hi: nat, i: nat)
    requires Fine(env, l, n) && BestRun(SizeTiers(env, l), lo, hi) && lo < hi <= |l| && i < lo && l[i].stamp == l[lo].stamp
    ensures Low(l[i]) == Low(l[hi - 1])
  {
    BestOfSpans(env, l, n, lo, hi);
    var w := SpansOf(l);
    assert w[i] == SpanOf(l[i]) && w[lo] == SpanOf(l[lo]) && w[hi - 1] == SpanOf(l[hi - 1]);
    TwinAbove(w, SpanTier(env), lo, hi, i);
  }

  lemma LowInRun(env: Setting, l: seq<Sst>, n: nat, lo: nat, hi: nat, i: nat)
    requires Fine(env, l, n) && BestRun(SizeTiers(env, l), lo, hi) && lo < hi <= |l| && i < hi
    ensures Low(l[hi - 1]) <= Low(l[i])
  {
    BestOfSpans(env, l, n, lo, hi);
    assert SpansOf(l)[i] == SpanOf(l[i]) && SpansOf(l)[hi - 1] == SpanOf(l[hi - 1]);
    LastReachesLowest(SpansOf(l), SpanTier(env), lo, hi, i);
  }

  lemma LowInOrder(l: seq<Sst>, w: seq<Span>, i: nat, j: nat)
    requires w == SpansOf(l) && NewestFirst(w) && LongestFirst(w) && i <= j < |l|
    ensures l[i].stamp >= l[j].stamp && (l[i].stamp == l[j].stamp ==> Low(l[i]) <= Low(l[j]))
  {
    assert w[i] == SpanOf(l[i]) && w[j] == SpanOf(l[j]);
  }

  lemma NoTwins(env: Setting, l: seq<Sst>, n: nat, lo: nat, hi: nat, i: nat, j: nat)
    requires Fine(env, l, n) && BestRun(SizeTiers(env, l), lo, hi) && lo < hi <= |l|
    requires i < j < |l| && ((i < lo <= j) || (i < hi <= j)) && l[i].stamp == l[j].stamp
    ensures Low(l[i]) != Low(l[j])
  {
    BestOfSpans(env, l, n, lo, hi);
    assert SpansOf(l)[i] == SpanOf(l[i]) && SpansOf(l)[j] == SpanOf(l[j]);
    NoTwinsAcross(SpansOf(l), SpanTier(env), lo, hi, i, j);
  }

  // No two tables of one stretch are one in the run and one not.
  lemma NoTwinsAcross(w: seq<Span>, tier: Span -> nat, lo: nat, hi: nat, i: nat, j: nat)
    requires NewestFirst(w) && LongestFirst(w) && MaximalRun(TiersOf(w, tier), lo, hi)
    requires i < j < |w| && ((i < lo <= j) || (i < hi <= j))
    ensures w[i] != w[j]
  {
    NeighboursDiffer(w, tier, lo, hi);
    if w[i] == w[j] {
      var at := if i < lo <= j then lo else hi;
      BetweenTwins(w, i, at - 1, j);
      BetweenTwins(w, i, at, j);
    }
  }

  lemma BetweenTwins(w: seq<Span>, i: nat, k: nat, j: nat)
    requires NewestFirst(w) && LongestFirst(w) && i <= k <= j < |w| && w[i] == w[j]
    ensures w[k] == w[i]
  {
  }

  lemma LessMergedBelow(env: Setting, l: seq<Sst>, n: nat, lo: nat, hi: nat, k: nat, files: set<string>, i: nat)
    requires Merging(env, l, n, lo, hi, k, files) && lo < hi <= |l| && lo <= i < |l| && l[i].stamp == l[lo].stamp
    ensures l[i].merges < k && Low(l[hi - 1]) <= Low(l[i])
  {
    if i < hi {
      LowInRun(env, l, n, lo, hi, i);
    } else {
      LowInOrder(l, SpansOf(l), lo, hi - 1);
      LowInOrder(l, SpansOf(l), hi - 1, i);
    }
    LessMerged(env, l, lo, i, k, files);
  }

  lemma LessMerged(env: Setting, l: seq<Sst>, lo: nat, i: nat, k: nat, files: set<string>)
    requires lo <= i < |l| && l[i].stamp == l[lo].stamp
    requires Steady(env, l, files) && Filed(env, l, files) && FirstFree(env, l[lo], k, files)
    ensures l[i].merges < k
  {
    assert l[i] in l && Id(env, l[i]) in files;
    assert Name(env, l[lo].stamp, k) !in files;
  }

  lemma InsertedMembers(l: seq<Sst>, lo: nat, hi: nat, t: Sst)
    requires lo < hi <= |l|
    ensures forall u :: u in Inserted(l, lo, t) <==> u in l || u == t
    ensures forall u :: u in Replaced(l, lo, hi, t) <==> u in l[..lo] || u in l[hi..] || u == t
    ensures forall u :: u in Replaced(l, lo, hi, t) ==> u in Inserted(l, lo, t)
  {
    assert l == l[..lo] + l[lo..] && l[lo..] == l[lo..hi] + l[hi..];
  }

  // With the merge added, IDs still tell tables apart and merges still reach further back.
  lemma InsertedRanked(env: Setting, l: seq<Sst>, n: nat, lo: nat, hi: nat, k: nat, files: set<string>, t: Sst)
    requires Merging(env, l, n, lo, hi, k, files) && lo < hi <= |l| && t == MergeOf(l[lo..hi], k)
    ensures Apart(Inserted(l, lo, t)) && Ranked(Inserted(l, lo, t))
    ensures Apart(Replaced(l, lo, hi, t)) && Ranked(Replaced(l, lo, hi, t))
  {
    MergeIsWhole(env, l, n, lo, hi, k);
    InsertedMembers(l, lo, hi, t);
    forall u | u in l && u.stamp == t.stamp
      ensures u.merges != k && (u.merges >= k ==> Low(u) <= Low(t)) && (k >= u.merges ==> Low(t) <= Low(u))
    {
      MergeAgainst(env, l, n, lo, hi, k, files, t, u);
    }
    assert t !in l;
    InsertedDistinct(l, lo, hi, t);
  }

  lemma MergeLow(env: Setting, l: seq<Sst>, n: nat, lo: nat, hi: nat, k: nat, t: Sst)
    requires Fine(env, l, n) && BestRun(SizeTiers(env, l), lo, hi) && lo < hi <= |l| && t == MergeOf(l[lo..hi], k)
    ensures Low(t) == Low(l[hi - 1]) && t.stamp == l[lo].stamp
  {
    MergeIsWhole(env, l, n, lo, hi, k);
    assert SpansOf(l)[hi - 1] == SpanOf(l[hi - 1]);
  }

  lemma MergeAgainst(env: Setting, l: seq<Sst>, n: nat, lo: nat, hi: nat, k: nat, files: set<string>, t: Sst, u: Sst)
    requires Merging(env, l, n, lo, hi, k, files) && lo < hi <= |l| && t == MergeOf(l[lo..hi], k)
    requires u in l && u.stamp == t.stamp
    ensures u.merges != k && (u.merges >= k ==> Low(u) <= Low(t)) && (k >= u.merges ==> Low(t) <= Low(u))
  {
    MergeLow(env, l, n, lo, hi, k, t);
    var i :| 0 <= i < |l| && l[i] == u;
    assert Id(env, u) in files;
    if i < lo {
      TwinsAbove(env, l, n, lo, hi, i);
    } else {
      LessMergedBelow(env, l, n, lo, hi, k, files, i);
    }
  }

  lemma InsertedDistinct(l: seq<Sst>, lo: nat, hi: nat, t: Sst)
    requires lo < hi <= |l| && Distinct(l) && t !in l
    ensures Distinct(Inserted(l, lo, t)) && Distinct(Replaced(l, lo, hi, t))
  {
    var a, b := Inserted(l, lo, t), Replaced(l, lo, hi, t);
    forall i | 0 <= i < |a| && i != lo ensures a[i] in l && a[i] == l[if i < lo then i else i - 1] {}
    forall i | 0 <= i < |b| && i != lo ensures b[i] in l && b[i] == l[if i < lo then i else hi + i - lo - 1] {}
  }

  lemma ExchangedWhole(l: seq<Sst>, lo: nat, hi: nat, t: Sst)
    requires lo < hi <= |l| && AllWhole(l) && Whole(t)
    ensures AllWhole(Inserted(l, lo, t)) && AllWhole(Replaced(l, lo, hi, t))
  {
    var a, b := Inserted(l, lo, t), Replaced(l, lo, hi, t);
    forall i | 0 <= i < |a| ensures Whole(a[i]) {
      if i != lo { assert a[i] == l[if i < lo then i else i - 1] && Whole(l[if i < lo then i else i - 1]); }
    }
    forall i | 0 <= i < |b| ensures Whole(b[i]) {
      if i != lo {
        assert b[i] == l[if i < lo then i else hi + i - lo - 1] && Whole(l[if i < lo then i else hi + i - lo - 1]);
      }
    }
  }

  lemma ExchangedSpans(l: seq<Sst>, lo: nat, hi: nat, t: Sst)
    requires lo < hi <= |l| && SpanOf(t) == MergedSpan(SpansOf(l), lo, hi)
    ensures IsInserted(SpansOf(l), lo, hi, SpansOf(Inserted(l, lo, t)))
    ensures IsReplaced(SpansOf(l), lo, hi, SpansOf(Replaced(l, lo, hi, t)))
  {
    var w, a, b := SpansOf(l), Inserted(l, lo, t), Replaced(l, lo, hi, t);
    forall i: nat | i < |a| ensures SpansOf(a)[i] == if i == lo then SpanOf(t) else w[Source(lo, hi, i)] {
      assert i != lo ==> a[i] == l[Source(lo, hi, i)];
    }
    forall i: nat | i < |b| ensures SpansOf(b)[i] == if i == lo then SpanOf(t) else w[Origin(lo, hi, i)] {
      assert i != lo ==> b[i] == l[Origin(lo, hi, i)];
    }
  }

  /** Registering a merge, and then dropping its sources, keeps the invariant. */
  lemma MergeFine(env: Setting, l: seq<Sst>, n: nat, lo: nat, hi: nat, k: nat, files: set<string>, t: Sst)
    requires Merging(env, l, n, lo, hi, k, files) && lo < hi <= |l| && t == MergeOf(l[lo..hi], k)
    ensures Fine(env, Inserted(l, lo, t), n) && Fine(env, Replaced(l, lo, hi, t), n)
  {
    MergeIsWhole(env, l, n, lo, hi, k);
    ExchangedWhole(l, lo, hi, t);
    ExchangedSpans(l, lo, hi, t);
    InsertedRanked(env, l, n, lo, hi, k, files, t);
    BestOfSpans(env, l, n, lo, hi);
    InsertKeepsSound(SpansOf(l), SpanTier(env), lo, hi, n, SpansOf(Inserted(l, lo, t)));
    ReplaceKeepsSound(SpansOf(l), SpanTier(env), lo, hi, n, SpansOf(Replaced(l, lo, hi, t)));
  }

  // ---------------------------------------------------------------- which IDs stay taken

  lemma NotInRun(env: Setting, run: seq<Sst>, s: nat, m: nat)
    requires Clockwork(env) && s < env.limit && forall r :: r in run ==> r.stamp < env.limit && (r.stamp != s || r.merges != m)
    ensures Name(env, s, m) !in Ids(env, run)
  {
    forall r | r in run ensures Id(env, r) != Name(env, s, m) {
      if Id(env, r) == Name(env, s, m) { IdUnique(env, r.stamp, r.merges, s, m); }
    }
  }

  lemma InRun(l: seq<Sst>, lo: nat, hi: nat, r: Sst) returns (k: nat)
    requires lo < hi <= |l| && r in l[lo..hi]
    ensures lo <= k < hi && l[k] == r
  {
    var i :| 0 <= i < hi - lo && l[lo..hi][i] == r;
    k := lo + i;
  }

  // An ID between those of two tables of one stretch is not that of a table of the run, unless
  // both are in the run.
  lemma TwinsOutside(env: Setting, l: seq<Sst>, n: nat, lo: nat, hi: nat, i: nat, j: nat, r: Sst)
    requires Fine(env, l, n) && BestRun(SizeTiers(env, l), lo, hi) && lo < hi <= |l|
    requires i < j < |l| && (i < lo || hi <= i) && l[i].stamp == l[j].stamp
    requires r in l[lo..hi] && r.stamp == l[i].stamp
    ensures !(l[i].merges < r.merges < l[j].merges)
  {
    var k := InRun(l, lo, hi, r);
    LowInOrder(l, SpansOf(l), i, j);
    if i < lo { NoTwins(env, l, n, lo, hi, i, k); } else { NoTwins(env, l, n, lo, hi, k, i); }
    assert l[i] in l && l[j] in l && l[k] in l;
  }

  // Nor is one between a table above the run and the merge.
  lemma TwinsOfMerge(env: Setting, l: seq<Sst>, n: nat, lo: nat, hi: nat, i: nat, r: Sst)
    requires Fine(env, l, n) && BestRun(SizeTiers(env, l), lo, hi) && lo < hi <= |l|
    requires i < lo && l[i].stamp == l[lo].stamp && r in l[lo..hi] && r.stamp == l[i].stamp
    ensures r.merges <= l[i].merges
  {
    var k := InRun(l, lo, hi, r);
    TwinsAbove(env, l, n, lo, hi, i);
    LowInRun(env, l, n, lo, hi, k);
    NoTwins(env, l, n, lo, hi, i, k);
    assert l[i] in l && l[k] in l;
  }

  /** The list with the merge in its run's place keeps its IDs in order even when the files of
      the run are deleted. */
  lemma MergeSteady(env: Setting, l: seq<Sst>, n: nat, lo: nat, hi: nat, k: nat, files: set<string>, t: Sst)
    requires Merging(env, l, n, lo, hi, k, files) && lo < hi <= |l| && t == MergeOf(l[lo..hi], k)
    ensures Steady(env, Replaced(l, lo, hi, t), files - Ids(env, l[lo..hi]))
  {
    var b := Replaced(l, lo, hi, t);
    forall i, j, m | 0 <= i < j < |b| && b[i].stamp == b[j].stamp && b[i].merges < m < b[j].merges
      ensures Name(env, b[i].stamp, m) in files - Ids(env, l[lo..hi])
    {
      Taken(env, l, n, lo, hi, k, files, t, b, i, j, m);
    }
  }

  lemma ListAt(l: seq<Sst>, lo: nat, hi: nat, t: Sst, i: nat)
    requires lo < hi <= |l| && i < |Replaced(l, lo, hi, t)|
    ensures Origin(lo, hi, i) < |l|
    ensures Replaced(l, lo, hi, t)[i] == if i == lo then t else l[Origin(lo, hi, i)]
  {
  }

  lemma Taken(env: Setting, l: seq<Sst>, n: nat, lo: nat, hi: nat, k: nat, files: set<string>, t: Sst,
              b: seq<Sst>, i: nat, j: nat, m: nat)
    requires Merging(env, l, n, lo, hi, k, files) && lo < hi <= |l| && t == MergeOf(l[lo..hi], k)
    requires b == Replaced(l, lo, hi, t) && i < j < |b| && b[i].stamp == b[j].stamp && b[i].merges < m < b[j].merges
    ensures Name(env, b[i].stamp, m) in files - Ids(env, l[lo..hi])
  {
    assert l[lo..hi][0] == l[lo];
    ListAt(l, lo, hi, t, i);
    ListAt(l, lo, hi, t, j);
    if j > lo && b[j].stamp == t.stamp { LessMergedBelow(env, l, n, lo, hi, k, files, Origin(lo, hi, j)); }
    if j == lo {
      TakenAboveMerge(env, l, n, lo, hi, k, files, i, m);
    } else if i != lo {
      TakenOutside(env, l, n, lo, hi, files, Origin(lo, hi, i), Origin(lo, hi, j), m);
    }
  }

  lemma TakenOutside(env: Setting, l: seq<Sst>, n: nat, lo: nat, hi: nat, files: set<string>, i: nat, j: nat, m: nat)
    requires Clockwork(env) && Fine(env, l, n) && n <= env.limit && Steady(env, l, files) && BestRun(SizeTiers(env, l), lo, hi) && lo < hi <= |l|
    requires i < j < |l| && (i < lo || hi <= i) && l[i].stamp == l[j].stamp && l[i].merges < m < l[j].merges
    ensures Name(env, l[i].stamp, m) in files - Ids(env, l[lo..hi])
  {
    StampsBelow(env, l, n);
    assert l[i] in l;
    forall r | r in l[lo..hi] ensures r in l && (r.stamp != l[i].stamp || r.merges != m) {
      if r.stamp == l[i].stamp { TwinsOutside(env, l, n, lo, hi, i, j, r); }
    }
    NotInRun(env, l[lo..hi], l[i].stamp, m);
  }

  lemma TakenAboveMerge(env: Setting, l: seq<Sst>, n: nat, lo: nat, hi: nat, k: nat, files: set<string>, i: nat, m: nat)
    requires Merging(env, l, n, lo, hi, k, files) && lo < hi <= |l|
    requires i < lo && l[i].stamp == l[lo].stamp && l[i].merges < m < k
    ensures Name(env, l[i].stamp, m) in files - Ids(env, l[lo..hi])
  {
    StampsBelow(env, l, n);
    assert l[i] in l;
    forall r | r in l[lo..hi] ensures r in l && (r.stamp != l[i].stamp || r.merges != m) {
      if r.stamp == l[i].stamp { TwinsOfMerge(env, l, n, lo, hi, i, r); }
    }
    NotInRun(env, l[lo..hi], l[i].stamp, m);
    assert l[lo] in l[lo..hi] by { assert l[lo..hi][0] == l[lo]; }
    TwinsOfMerge(env, l, n, lo, hi, i, l[lo]);
  }
}
