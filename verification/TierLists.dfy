/**
 Lists of tables that each hold one stretch of the flushed layers, newest first, and what
 replacing the run SelectTier chooses, or putting its merge above it, does to such a list.

 Overlaps come from crashes: a merge registered, its sources still there. The invariant says
 where such an overlap can be, so that no run chosen later leaves a gap or is put back on the
 wrong side of a newer table.
 */
module TierLists {
  import opened Compaction

  // The layers of [lo, hi).
  datatype Span = Span(lo: nat, hi: nat)

  function TiersOf(w: seq<Span>, tier: Span -> nat): seq<nat> {
    seq(|w|, i requires 0 <= i < |w| => tier(w[i]))
  }

  // ---------------------------------------------------------------- runs of one tier

  // [a, b) is of one tier, and nothing just below it is; it may go on above.
  predicate Stretch(t: seq<nat>, a: nat, b: nat) {
    && a < b <= |t|
    && (forall i :: a <= i < b ==> t[i] == t[a])
    && (b < |t| ==> t[b] != t[a])
  }

  // A stretch compaction would rather take than anything below it.
  ghost predicate Strong(t: seq<nat>, a: nat, b: nat) {
    && Stretch(t, a, b) && b - a >= MIN_TIER_SIZE
    && forall c: nat, d: nat :: Stretch(t, c, d) && c >= b ==> d - c <= b - a
  }

  lemma {:induction false} StretchInRun(t: seq<nat>, a: nat, b: nat) returns (top: nat)
    requires Stretch(t, a, b)
    ensures top <= a && MaximalRun(t, top, b)
  {
    if a > 0 && t[a - 1] == t[a] {
      top := StretchInRun(t, a - 1, b);
    } else {
      top := a;
    }
  }

  // The best run is preferred to whatever is below it, so nothing strong is above it.
  lemma StrongIsNotAbove(t: seq<nat>, a: nat, b: nat, lo: nat, hi: nat)
    requires Strong(t, a, b) && BestRun(t, lo, hi)
    ensures a >= hi || (lo <= a && b == hi)
  {
    var top := StretchInRun(t, a, b);
    assert Stretch(t, lo, hi);
  }

  lemma BestIsStrong(t: seq<nat>, lo: nat, hi: nat)
    requires BestRun(t, lo, hi)
    ensures Strong(t, lo, hi)
  {
    forall c: nat, d: nat | Stretch(t, c, d) && c >= hi ensures d - c <= hi - lo {
      var top := StretchInRun(t, c, d);
    }
  }

  // What is strong in the lower part of a list is strong whatever is above.
  lemma StrongInTail(t: seq<nat>, t': seq<nat>, k: nat, k': nat, a: nat, b: nat)
    requires k <= |t| && k' <= |t'| && t[k..] == t'[k'..] && Strong(t, a, b) && a >= k
    ensures Strong(t', a - k + k', b - k + k')
  {
    var a', b' := a - k + k', b - k + k';
    TailStretch(t, t', k, k', a, b);
    forall c: nat, d: nat | Stretch(t', c, d) && c >= b' ensures d - c <= b' - a' {
      TailStretch(t', t, k', k, c, d);
      assert Stretch(t, c - k' + k, d - k' + k);
    }
  }

  lemma TailStretch(t: seq<nat>, t': seq<nat>, k: nat, k': nat, a: nat, b: nat)
    requires k <= |t| && k' <= |t'| && t[k..] == t'[k'..] && Stretch(t, a, b) && a >= k
    ensures Stretch(t', a - k + k', b - k + k')
  {
    assert |t| - k == |t'| - k' by { assert |t[k..]| == |t'[k'..]|; }
    forall i | a - k + k' <= i < b - k + k' ensures t'[i] == t[a] {
      assert t'[i] == t'[k'..][i - k'] == t[k..][i - k'] == t[i - k' + k];
    }
    assert t'[a - k + k'] == t[a];
    if b < |t| { assert t'[b - k + k'] == t'[k'..][b - k] == t[k..][b - k] == t[b]; }
  }

  // ---------------------------------------------------------------- the invariant

  predicate Proper(w: seq<Span>) {
    forall i :: 0 <= i < |w| ==> w[i].lo < w[i].hi
  }

  predicate NewestFirst(w: seq<Span>) {
    forall i, j :: 0 <= i < j < |w| ==> w[i].hi >= w[j].hi
  }

  // Of tables with one newest layer, those that reach further back come first.
  predicate LongestFirst(w: seq<Span>) {
    forall i, j :: 0 <= i < j < |w| && w[i].hi == w[j].hi ==> w[i].lo <= w[j].lo
  }

  // No layer is skipped from one table to the next.
  predicate Tight(w: seq<Span>) {
    forall i :: 0 < i < |w| ==> w[i].hi >= w[i - 1].lo
  }

  // The first n tables reach no further back than layer l.
  predicate Floor(w: seq<Span>, n: nat, l: nat)
    requires n <= |w|
  {
    forall r :: 0 <= r < n ==> w[r].lo >= l
  }

  // Table i reaches below the newer end of table j beneath it. Then j is in a strong stretch
  // that itself, below i, reaches as far back; and one no table above undercuts, if i and j
  // have the same newest layer.
  ghost predicate Shield(w: seq<Span>, t: seq<nat>, i: nat, j: nat, a: nat, b: nat, m: nat) {
    && |t| == |w| && i < j < b && b <= |w| && a <= j && a <= m < b && i < m
    && Strong(t, a, b)
    && w[m].lo <= w[i].lo
    && (w[i].hi == w[j].hi ==> Floor(w, b, w[i].lo))
  }

  ghost predicate Shielded(w: seq<Span>, t: seq<nat>, i: nat, j: nat) {
    exists a: nat, b: nat, m: nat :: Shield(w, t, i, j, a, b, m)
  }

  ghost predicate Sheltered(w: seq<Span>, t: seq<nat>) {
    forall i: nat, j: nat {:trigger Shielded(w, t, i, j)} ::
      i < j < |w| && w[i].lo < w[j].lo ==> Shielded(w, t, i, j)
  }

  ghost predicate Sound(w: seq<Span>, tier: Span -> nat) {
    && Proper(w) && NewestFirst(w) && LongestFirst(w) && Tight(w)
    && Sheltered(w, TiersOf(w, tier))
  }

  // ---------------------------------------------------------------- what it says of the best run

  // A shield whose lower table is in the run is inside the run; one whose lower table is
  // beneath the run is beneath it; and above the run there is none.
  lemma ShieldPlace(w: seq<Span>, t: seq<nat>, i: nat, j: nat, a: nat, b: nat, m: nat, lo: nat, hi: nat)
    requires Shield(w, t, i, j, a, b, m) && BestRun(t, lo, hi)
    ensures j >= lo
    ensures j < hi ==> lo <= a && b == hi
    ensures j >= hi ==> a >= hi
  {
    StrongIsNotAbove(t, a, b, lo, hi);
  }

  lemma ShieldOf(w: seq<Span>, tier: Span -> nat, i: nat, j: nat, lo: nat, hi: nat)
    returns (a: nat, b: nat, m: nat)
    requires Sound(w, tier) && BestRun(TiersOf(w, tier), lo, hi) && i < j < |w| && w[i].lo < w[j].lo
    ensures Shield(w, TiersOf(w, tier), i, j, a, b, m)
    ensures j >= lo && (j < hi ==> lo <= a && b == hi) && (j >= hi ==> a >= hi)
  {
    assert Shielded(w, TiersOf(w, tier), i, j);
    a, b, m :| Shield(w, TiersOf(w, tier), i, j, a, b, m);
    ShieldPlace(w, TiersOf(w, tier), i, j, a, b, m, lo, hi);
  }

  lemma LowerInRun(w: seq<Span>, tier: Span -> nat, lo: nat, hi: nat, i: nat) returns (m: nat)
    requires Sound(w, tier) && BestRun(TiersOf(w, tier), lo, hi) && i < hi - 1 && w[i].lo < w[hi - 1].lo
    ensures i < m < hi && w[m].lo <= w[i].lo
  {
    var a, b, m' := ShieldOf(w, tier, i, hi - 1, lo, hi);
    m := m';
  }

  // The run's oldest table reaches as far back as any table from it up.
  lemma {:induction false} LastReachesLowest(w: seq<Span>, tier: Span -> nat, lo: nat, hi: nat, i: nat)
    requires Sound(w, tier) && BestRun(TiersOf(w, tier), lo, hi) && i < hi
    ensures w[hi - 1].lo <= w[i].lo
    decreases hi - i
  {
    if w[i].lo < w[hi - 1].lo {
      var m := LowerInRun(w, tier, lo, hi, i);
      LastReachesLowest(w, tier, lo, hi, m);
    }
  }

  // Above the run nothing undercuts what is beneath it.
  lemma SettledAbove(w: seq<Span>, tier: Span -> nat, lo: nat, hi: nat, i: nat, j: nat)
    requires Sound(w, tier) && BestRun(TiersOf(w, tier), lo, hi) && i < j < lo
    ensures w[i].lo >= w[j].lo
  {
    if w[i].lo < w[j].lo {
      var a, b, m := ShieldOf(w, tier, i, j, lo, hi);
    }
  }

  // The run's merge: from its newest table's newest layer to its oldest table's oldest.
  function MergedSpan(w: seq<Span>, lo: nat, hi: nat): Span
    requires lo < hi <= |w|
  {
    Span(w[hi - 1].lo, w[lo].hi)
  }

  // A table above the run with the run's newest layer is a copy of the merge.
  lemma TwinAbove(w: seq<Span>, tier: Span -> nat, lo: nat, hi: nat, i: nat)
    requires Sound(w, tier) && BestRun(TiersOf(w, tier), lo, hi) && i < lo && w[i].hi == w[lo].hi
    ensures w[i] == MergedSpan(w, lo, hi)
  {
    LastReachesLowest(w, tier, lo, hi, i);
    NeighboursDiffer(w, tier, lo, hi);
    assert w[lo - 1].hi == w[lo].hi && w[i].lo <= w[lo - 1].lo <= w[lo].lo;
    var a, b, m := ShieldOf(w, tier, i, lo, lo, hi);
    assert w[hi - 1].lo >= w[i].lo;
  }

  // Tables of one span are of one size, so the table just above a run is of another span.
  lemma NeighboursDiffer(w: seq<Span>, tier: Span -> nat, lo: nat, hi: nat)
    requires MaximalRun(TiersOf(w, tier), lo, hi)
    ensures lo > 0 ==> w[lo - 1] != w[lo]
    ensures hi < |w| ==> w[hi - 1] != w[hi]
  {
    assert TiersOf(w, tier)[hi - 1] == TiersOf(w, tier)[lo];
  }

  // ---------------------------------------------------------------- moving shields about

  // A shield in the common tail of two lists serves the other one too.
  lemma ShieldMoves(w: seq<Span>, w': seq<Span>, tier: Span -> nat, k: nat, k': nat,
                    i: nat, j: nat, a: nat, b: nat, m: nat, i': nat, j': nat)
    requires k <= |w| && k' <= |w'| && w[k..] == w'[k'..]
    requires Shield(w, TiersOf(w, tier), i, j, a, b, m) && a >= k && j' == j - k + k'
    requires i' < j' && i' < m - k + k' && w'[i'].lo == w[i].lo && (w'[i'].hi == w[j].hi ==> w[i].hi == w[j].hi)
    requires Floor(w, k, w[i].lo) ==> Floor(w', k', w[i].lo)
    ensures Shielded(w', TiersOf(w', tier), i', j')
  {
    TailTiers(w, w', tier, k, k');
    StrongInTail(TiersOf(w, tier), TiersOf(w', tier), k, k', a, b);
    TailAt(w, w', k, k', j);
    TailAt(w, w', k, k', m);
    if w[i].hi == w[j].hi {
      assert Floor(w, k, w[i].lo);
      forall r | 0 <= r < b - k + k' ensures w'[r].lo >= w[i].lo {
        if r >= k' { TailAt(w', w, k', k, r); }
      }
    }
    assert Shield(w', TiersOf(w', tier), i', j', a - k + k', b - k + k', m - k + k');
  }

  lemma TailAt(w: seq<Span>, w': seq<Span>, k: nat, k': nat, j: nat)
    requires k <= j < |w| && k' <= |w'| && w[k..] == w'[k'..]
    ensures j - k + k' < |w'| && w'[j - k + k'] == w[j]
  {
    assert w[j] == w[k..][j - k];
  }

  lemma TailTiers(w: seq<Span>, w': seq<Span>, tier: Span -> nat, k: nat, k': nat)
    requires k <= |w| && k' <= |w'| && w[k..] == w'[k'..]
    ensures TiersOf(w, tier)[k..] == TiersOf(w', tier)[k'..]
  {
    var a, b := TiersOf(w, tier)[k..], TiersOf(w', tier)[k'..];
    assert |a| == |w[k..]| == |w'[k'..]| == |b|;
    forall i | 0 <= i < |a| ensures a[i] == b[i] {
      assert w[k + i] == w[k..][i] == w'[k'..][i] == w'[k' + i];
    }
  }

  // ---------------------------------------------------------------- a flush on top

  lemma FlushKeepsSound(w: seq<Span>, tier: Span -> nat, n: nat)
    requires Sound(w, tier) && (w != [] ==> w[0].hi == n)
    ensures Sound([Span(n, n + 1)] + w, tier)
  {
    var w' := [Span(n, n + 1)] + w;
    forall i: nat, j: nat | i < j < |w'| && w'[i].lo < w'[j].lo ensures Shielded(w', TiersOf(w', tier), i, j) {
      FlushSheltered(w, tier, n, w', i, j);
    }
  }

  lemma FlushSheltered(w: seq<Span>, tier: Span -> nat, n: nat, w': seq<Span>, i: nat, j: nat)
    requires Sound(w, tier) && (w != [] ==> w[0].hi == n) && w' == [Span(n, n + 1)] + w
    requires i < j < |w'| && w'[i].lo < w'[j].lo
    ensures Shielded(w', TiersOf(w', tier), i, j)
  {
    assert w'[j] == w[j - 1] && w[j - 1].lo < w[j - 1].hi <= w[0].hi;
    assert i > 0 && w'[i] == w[i - 1];
    assert Shielded(w, TiersOf(w, tier), i - 1, j - 1);
    ShieldUnderFlush(w, tier, n, w', i - 1, j - 1);
  }

  lemma ShieldUnderFlush(w: seq<Span>, tier: Span -> nat, n: nat, w': seq<Span>, i: nat, j: nat)
    requires w' == [Span(n, n + 1)] + w && i < j < |w| && w[i].lo <= n && Shielded(w, TiersOf(w, tier), i, j)
    ensures Shielded(w', TiersOf(w', tier), i + 1, j + 1)
  {
    var a: nat, b: nat, m: nat :| Shield(w, TiersOf(w, tier), i, j, a, b, m);
    assert w[0..] == w'[1..];
    ShieldMoves(w, w', tier, 0, 1, i, j, a, b, m, i + 1, j + 1);
  }

  // ---------------------------------------------------------------- the merge in its run's place

  // Where the place i of the new list was in the old one; the merge stands for the run's oldest.
  function Origin(lo: nat, hi: nat, i: nat): nat
    requires lo < hi
  {
    if i < lo then i else hi - 1 + (i - lo)
  }

  ghost predicate IsReplaced(w: seq<Span>, lo: nat, hi: nat, w': seq<Span>) {
    && lo < hi <= |w| && |w'| == |w| - (hi - lo) + 1
    && forall i: nat {:trigger w'[i]} :: i < |w'| ==>
         w'[i] == if i == lo then MergedSpan(w, lo, hi) else w[Origin(lo, hi, i)]
  }

  lemma ReplacedTail(w: seq<Span>, lo: nat, hi: nat, w': seq<Span>)
    requires IsReplaced(w, lo, hi, w')
    ensures w'[lo + 1..] == w[hi..]
  {
    var a, b := w'[lo + 1..], w[hi..];
    forall i | 0 <= i < |a| ensures a[i] == b[i] { assert a[i] == w'[lo + 1 + i]; }
  }

  // The merge reaches as far back as the run's oldest table, and is at least as new.
  lemma ReplacedSpan(w: seq<Span>, lo: nat, hi: nat, w': seq<Span>, i: nat)
    requires IsReplaced(w, lo, hi, w') && NewestFirst(w) && i < |w'|
    ensures w'[i].lo == w[Origin(lo, hi, i)].lo && w'[i].hi >= w[Origin(lo, hi, i)].hi
  {
  }

  lemma ReplacedFloor(w: seq<Span>, lo: nat, hi: nat, w': seq<Span>, l: nat)
    requires IsReplaced(w, lo, hi, w')
    ensures lo < |w'| && (Floor(w, hi, l) ==> Floor(w', lo + 1, l))
  {
  }

  lemma ReplacedSheltered(w: seq<Span>, tier: Span -> nat, lo: nat, hi: nat, w': seq<Span>, i: nat, j: nat)
    requires Sound(w, tier) && BestRun(TiersOf(w, tier), lo, hi) && IsReplaced(w, lo, hi, w')
    requires i < j < |w'| && w'[i].lo < w'[j].lo
    ensures Shielded(w', TiersOf(w', tier), i, j)
  {
    ReplacedSpan(w, lo, hi, w', i);
    if j < lo {
      SettledAbove(w, tier, lo, hi, i, j);
    } else if j == lo {
      LastReachesLowest(w, tier, lo, hi, i);
    } else {
      var i0, j0 := Origin(lo, hi, i), Origin(lo, hi, j);
      var a, b, m := ShieldOf(w, tier, i0, j0, lo, hi);
      assert w[i0].hi >= w[j0].hi;
      ReplacedFloor(w, lo, hi, w', w[i0].lo);
      ReplacedTail(w, lo, hi, w');
      ShieldMoves(w, w', tier, hi, lo + 1, i0, j0, a, b, m, i, j);
    }
  }

  lemma ReplacedLongestFirst(w: seq<Span>, tier: Span -> nat, lo: nat, hi: nat, w': seq<Span>, i: nat, j: nat)
    requires Sound(w, tier) && BestRun(TiersOf(w, tier), lo, hi) && IsReplaced(w, lo, hi, w')
    requires i < j < |w'| && w'[i].hi == w'[j].hi
    ensures w'[i].lo <= w'[j].lo
  {
    ReplacedSpan(w, lo, hi, w', i);
    if j == lo {
      TwinAbove(w, tier, lo, hi, i);
    } else {
      assert w[Origin(lo, hi, i)].hi >= w[Origin(lo, hi, j)].hi;
    }
  }

  lemma ReplacedShape(w: seq<Span>, lo: nat, hi: nat, w': seq<Span>)
    requires IsReplaced(w, lo, hi, w') && Proper(w) && NewestFirst(w) && Tight(w)
    ensures Proper(w') && NewestFirst(w') && Tight(w')
  {
    forall i | 0 <= i < |w'| ensures w'[i].lo < w'[i].hi { ReplacedSpan(w, lo, hi, w', i); }
    forall i, j | 0 <= i < j < |w'| ensures w'[i].hi >= w'[j].hi {
      ReplacedSpan(w, lo, hi, w', i);
      assert Origin(lo, hi, i) < Origin(lo, hi, j);
    }
    forall i | 0 < i < |w'| ensures w'[i].hi >= w'[i - 1].lo {
      ReplacedSpan(w, lo, hi, w', i - 1);
      assert i != lo ==> w[Origin(lo, hi, i)].hi >= w[Origin(lo, hi, i) - 1].lo;
    }
  }

  // The list starts at the newest layer and ends at the oldest.
  predicate FullReach(w: seq<Span>, n: nat) {
    if w == [] then n == 0 else w[0].hi == n && w[|w| - 1].lo == 0
  }

  /** Replacing the run SelectTier chooses by its merge keeps the invariant. */
  lemma ReplaceKeepsSound(w: seq<Span>, tier: Span -> nat, lo: nat, hi: nat, n: nat, w': seq<Span>)
    requires Sound(w, tier) && FullReach(w, n) && BestRun(TiersOf(w, tier), lo, hi) && IsReplaced(w, lo, hi, w')
    ensures Sound(w', tier) && FullReach(w', n)
  {
    ReplacedSpan(w, lo, hi, w', |w'| - 1);
    assert w'[0].hi == w[0].hi;
    ReplacedShape(w, lo, hi, w');
    assert LongestFirst(w') by {
      forall i, j | 0 <= i < j < |w'| && w'[i].hi == w'[j].hi ensures w'[i].lo <= w'[j].lo {
        ReplacedLongestFirst(w, tier, lo, hi, w', i, j);
      }
    }
    forall i: nat, j: nat | i < j < |w'| && w'[i].lo < w'[j].lo ensures Shielded(w', TiersOf(w', tier), i, j) {
      ReplacedSheltered(w, tier, lo, hi, w', i, j);
    }
  }

  // ---------------------------------------------------------------- the merge above its run

  function Source(lo: nat, hi: nat, i: nat): nat
    requires lo < hi
  {
    if i < lo then i else if i == lo then hi - 1 else i - 1
  }

  ghost predicate IsInserted(w: seq<Span>, lo: nat, hi: nat, w': seq<Span>) {
    && lo < hi <= |w| && |w'| == |w| + 1
    && forall i: nat {:trigger w'[i]} :: i < |w'| ==>
         w'[i] == if i == lo then MergedSpan(w, lo, hi) else w[Source(lo, hi, i)]
  }

  lemma InsertedTail(w: seq<Span>, lo: nat, hi: nat, w': seq<Span>, k: nat)
    requires IsInserted(w, lo, hi, w') && lo <= k <= |w|
    ensures w'[k + 1..] == w[k..]
  {
    var a, b := w'[k + 1..], w[k..];
    forall i | 0 <= i < |a| ensures a[i] == b[i] { assert a[i] == w'[k + 1 + i]; }
  }

  lemma InsertedSpan(w: seq<Span>, lo: nat, hi: nat, w': seq<Span>, i: nat)
    requires IsInserted(w, lo, hi, w') && NewestFirst(w) && i < |w'|
    ensures w'[i].lo == w[Source(lo, hi, i)].lo && w'[i].hi >= w[Source(lo, hi, i)].hi
  {
  }

  lemma InsertedFloor(w: seq<Span>, lo: nat, hi: nat, w': seq<Span>, l: nat)
    requires IsInserted(w, lo, hi, w')
    ensures Floor(w, hi, l) ==> Floor(w', hi + 1, l)
  {
  }

  lemma InsertedSheltered(w: seq<Span>, tier: Span -> nat, lo: nat, hi: nat, w': seq<Span>, i: nat, j: nat)
    requires Sound(w, tier) && BestRun(TiersOf(w, tier), lo, hi) && IsInserted(w, lo, hi, w')
    requires i < j < |w'| && w'[i].lo < w'[j].lo
    ensures Shielded(w', TiersOf(w', tier), i, j)
  {
    if j < lo {
      SettledAbove(w, tier, lo, hi, i, j);
    } else if j == lo {
      LastReachesLowest(w, tier, lo, hi, i);
    } else if j <= hi {
      ShelteredByRun(w, tier, lo, hi, w', i, j);
    } else {
      ShelteredBelow(w, tier, lo, hi, w', i, j);
    }
  }

  // Beneath the run, shelters stay.
  lemma ShelteredBelow(w: seq<Span>, tier: Span -> nat, lo: nat, hi: nat, w': seq<Span>, i: nat, j: nat)
    requires Sound(w, tier) && BestRun(TiersOf(w, tier), lo, hi) && IsInserted(w, lo, hi, w')
    requires i < j < |w'| && w'[i].lo < w'[j].lo && j > hi
    ensures Shielded(w', TiersOf(w', tier), i, j)
  {
    InsertedSpan(w, lo, hi, w', i);
    var i0, j0 := Source(lo, hi, i), Source(lo, hi, j);
    var a, b, m := ShieldOf(w, tier, i0, j0, lo, hi);
    assert w[i0].hi >= w[j0].hi;
    InsertedFloor(w, lo, hi, w', w[i0].lo);
    InsertedTail(w, lo, hi, w', hi);
    ShieldMoves(w, w', tier, hi, hi + 1, i0, j0, a, b, m, i, j);
  }

  // Under its own merge, the run is the stretch that shelters it.
  lemma ShelteredByRun(w: seq<Span>, tier: Span -> nat, lo: nat, hi: nat, w': seq<Span>, i: nat, j: nat)
    requires Sound(w, tier) && BestRun(TiersOf(w, tier), lo, hi) && IsInserted(w, lo, hi, w')
    requires i < j < |w'| && w'[i].lo < w'[j].lo && lo < j <= hi
    ensures Shielded(w', TiersOf(w', tier), i, j)
  {
    RunStaysStrong(w, tier, lo, hi, w');
    InsertedSpan(w, lo, hi, w', i);
    InsertedSpan(w, lo, hi, w', hi);
    LastReachesLowest(w, tier, lo, hi, Source(lo, hi, i));
    if w'[i].hi == w'[j].hi {
      SameNewestReachesLowest(w, tier, lo, hi, w', i, j);
      RunFloor(w, tier, lo, hi);
      InsertedFloor(w, lo, hi, w', w[hi - 1].lo);
    }
    assert Shield(w', TiersOf(w', tier), i, j, lo + 1, hi + 1, hi);
  }

  lemma RunStaysStrong(w: seq<Span>, tier: Span -> nat, lo: nat, hi: nat, w': seq<Span>)
    requires BestRun(TiersOf(w, tier), lo, hi) && IsInserted(w, lo, hi, w')
    ensures Strong(TiersOf(w', tier), lo + 1, hi + 1)
  {
    InsertedTail(w, lo, hi, w', lo);
    BestIsStrong(TiersOf(w, tier), lo, hi);
    TailTiers(w, w', tier, lo, lo + 1);
    StrongInTail(TiersOf(w, tier), TiersOf(w', tier), lo, lo + 1, lo, hi);
  }

  lemma RunFloor(w: seq<Span>, tier: Span -> nat, lo: nat, hi: nat)
    requires Sound(w, tier) && BestRun(TiersOf(w, tier), lo, hi)
    ensures Floor(w, hi, w[hi - 1].lo)
  {
    forall r | 0 <= r < hi ensures w[r].lo >= w[hi - 1].lo { LastReachesLowest(w, tier, lo, hi, r); }
  }

  lemma SameNewestReachesLowest(w: seq<Span>, tier: Span -> nat, lo: nat, hi: nat, w': seq<Span>, i: nat, j: nat)
    requires Sound(w, tier) && BestRun(TiersOf(w, tier), lo, hi) && IsInserted(w, lo, hi, w')
    requires i < j < |w'| && w'[i].lo < w'[j].lo && lo < j <= hi && w'[i].hi == w'[j].hi
    ensures w'[i].lo == w[hi - 1].lo
  {
    if i < lo {
      TwinAbove(w, tier, lo, hi, i);
    } else if i > lo {
      var a, b, m := ShieldOf(w, tier, i - 1, j - 1, lo, hi);
      assert w[hi - 1].lo >= w[i - 1].lo;
      LastReachesLowest(w, tier, lo, hi, i - 1);
    }
  }

  lemma InsertedLongestFirst(w: seq<Span>, tier: Span -> nat, lo: nat, hi: nat, w': seq<Span>, i: nat, j: nat)
    requires Sound(w, tier) && BestRun(TiersOf(w, tier), lo, hi) && IsInserted(w, lo, hi, w')
    requires i < j < |w'| && w'[i].hi == w'[j].hi
    ensures w'[i].lo <= w'[j].lo
  {
    if j == lo {
      TwinAbove(w, tier, lo, hi, i);
    } else if i == lo && j <= hi {
      LastReachesLowest(w, tier, lo, hi, j - 1);
    } else {
      InsertedSpan(w, lo, hi, w', i);
      assert w[Source(lo, hi, i)].hi >= w[Source(lo, hi, j)].hi;
    }
  }

  lemma InsertedShape(w: seq<Span>, lo: nat, hi: nat, w': seq<Span>)
    requires IsInserted(w, lo, hi, w') && Proper(w) && NewestFirst(w) && Tight(w) && w[hi - 1].lo <= w[lo].lo
    ensures Proper(w') && NewestFirst(w') && Tight(w')
  {
    forall i | 0 <= i < |w'| ensures w'[i].lo < w'[i].hi { InsertedSpan(w, lo, hi, w', i); }
    forall i | 0 < i < |w'| ensures w'[i].hi >= w'[i - 1].lo {
      assert i < lo || i > lo + 1 ==> w[Source(lo, hi, i)].hi >= w[Source(lo, hi, i) - 1].lo;
    }
  }

  /** Putting the merge above the run, both there, keeps it too. */
  lemma InsertKeepsSound(w: seq<Span>, tier: Span -> nat, lo: nat, hi: nat, n: nat, w': seq<Span>)
    requires Sound(w, tier) && FullReach(w, n) && BestRun(TiersOf(w, tier), lo, hi) && IsInserted(w, lo, hi, w')
    ensures Sound(w', tier) && FullReach(w', n)
  {
    assert w'[0].hi == w[0].hi && w'[|w|].lo == w[|w| - 1].lo;
    LastReachesLowest(w, tier, lo, hi, lo);
    InsertedShape(w, lo, hi, w');
    assert LongestFirst(w') by {
      forall i, j | 0 <= i < j < |w'| && w'[i].hi == w'[j].hi ensures w'[i].lo <= w'[j].lo {
        InsertedLongestFirst(w, tier, lo, hi, w', i, j);
      }
    }
    forall i: nat, j: nat | i < j < |w'| && w'[i].lo < w'[j].lo ensures Shielded(w', TiersOf(w', tier), i, j) {
      InsertedSheltered(w, tier, lo, hi, w', i, j);
    }
  }
}
