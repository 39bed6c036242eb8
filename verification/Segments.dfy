/**
 The segmented log: sealed segments, oldest first, and the current one. Rotating moves no
 entry, deleting takes whole segments off the old end, and reopening the directory reads
 every entry still there in the order it was written.
 */
module Segments {
  import opened Numbers
  import opened Sequences

  // A directory of segment files by number: the entries each one replays to.
  type Dir<E> = map<nat, seq<E>>

  function Held<E>(dir: Dir<E>, n: nat): seq<E> {
    if n in dir then dir[n] else []
  }

  // The same entries, segment by segment; files that hold nothing may differ.
  ghost predicate SameHeld<E>(a: Dir<E>, b: Dir<E>) {
    forall n: nat :: Held(a, n) == Held(b, n)
  }

  // The entries of the segments numbered from lo to below hi, in segment order.
  function Between<E>(dir: Dir<E>, lo: nat, hi: nat): seq<E> {
    if hi <= lo then [] else Between(dir, lo, hi - 1) + Held(dir, hi - 1)
  }

  lemma {:induction false} BetweenSplit<E>(dir: Dir<E>, lo: nat, mid: nat, hi: nat)
    requires lo <= mid <= hi
    ensures Between(dir, lo, hi) == Between(dir, lo, mid) + Between(dir, mid, hi)
  {
    if mid < hi { BetweenSplit(dir, lo, mid, hi - 1); }
  }

  lemma {:induction false} BetweenSame<E>(dir: Dir<E>, dir': Dir<E>, lo: nat, hi: nat)
    requires forall n :: lo <= n < hi ==> Held(dir, n) == Held(dir', n)
    ensures Between(dir, lo, hi) == Between(dir', lo, hi)
  {
    if lo < hi {
      BetweenSame(dir, dir', lo, hi - 1);
      assert Held(dir, hi - 1) == Held(dir', hi - 1);
    }
  }

  lemma {:induction false} BetweenNothing<E>(dir: Dir<E>, lo: nat, hi: nat)
    requires forall n :: lo <= n < hi ==> Held(dir, n) == []
    ensures Between(dir, lo, hi) == []
  {
    if lo < hi {
      BetweenNothing(dir, lo, hi - 1);
      assert Held(dir, hi - 1) == [];
    }
  }

  // ---------------------------------------------------------------- listing a directory

  // The first number after the first i segments of a listing.
  function Reached(ns: seq<nat>, i: nat): nat
    requires i <= |ns|
  {
    if i == 0 then 0 else ns[i - 1] + 1
  }

  // No listed number lies between one and the next.
  lemma GapIsUnlisted(ns: seq<nat>, i: nat, m: nat)
    requires Ascending(ns) && i < |ns| && Reached(ns, i) <= m < ns[i]
    ensures m !in ns
  {
    forall j | 0 <= j < |ns| ensures ns[j] != m {
      if j > i {
        assert ns[i] < ns[j];
      } else if j < i - 1 {
        assert ns[j] < ns[i - 1];
      }
    }
  }

  // The listed numbers from the i-th on are those from Reached(ns, i) on.
  lemma ReachedSplits(ns: seq<nat>, i: nat, n: nat)
    requires Ascending(ns) && i <= |ns| && n in ns
    ensures n in ns[i..] <==> n >= Reached(ns, i)
  {
    var j :| 0 <= j < |ns| && ns[j] == n;
    if j >= i {
      assert ns[i..][j - i] == n;
      if i > 0 { assert ns[i - 1] < ns[j]; }
    } else {
      if j < i - 1 { assert ns[j] < ns[i - 1]; }
      forall k | 0 <= k < |ns[i..]| ensures ns[i..][k] > n { assert ns[j] < ns[i + k]; }
    }
  }

  lemma NextSegment<E>(dir: Dir<E>, ns: seq<nat>, i: nat)
    requires Ascending(ns) && i < |ns|
    requires forall n: nat :: Held(dir, n) != [] && n < ns[i] ==> n in ns
    ensures Reached(ns, i) <= ns[i]
    ensures forall m :: Reached(ns, i) <= m < ns[i] ==> Held(dir, m) == []
    ensures Between(dir, 0, Reached(ns, i + 1)) == Between(dir, 0, Reached(ns, i)) + Held(dir, ns[i])
  {
    var lo, n := Reached(ns, i), ns[i];
    assert lo <= n;
    forall m | lo <= m < n ensures Held(dir, m) == [] {
      GapIsUnlisted(ns, i, m);
    }
    BetweenNothing(dir, lo, n);
    BetweenSplit(dir, 0, lo, n);
    NothingBeside(Between(dir, lo, n), Between(dir, 0, lo));
  }

  // ---------------------------------------------------------------- the log

  // Segment numbers only grow, and every entry is in a sealed segment or the current one.
  ghost predicate Ordered<E>(dir: Dir<E>, sealedSegs: seq<nat>, current: nat) {
    && Ascending(sealedSegs) && current in dir
    && (forall n :: n in sealedSegs ==> n < current)
    && (forall n :: n in dir ==> n <= current)
    && (forall n: nat :: Held(dir, n) != [] ==> n in sealedSegs || n == current)
  }

  class Log<E(!new, ==)> {
    var dir: Dir<E>              // what is on disk
    var sealedSegs: seq<nat>     // oldest first
    var current: nat

    ghost predicate Valid()
      reads this
    {
      Ordered(dir, sealedSegs, current)
    }

    // Everything the log holds, oldest first.
    ghost function Entries(): seq<E>
      reads this
    {
      Between(dir, 0, current + 1)
    }

    constructor (dir: Dir<E>, sealedSegs: seq<nat>, current: nat)
      ensures this.dir == dir && this.sealedSegs == sealedSegs && this.current == current
    {
      this.dir, this.sealedSegs, this.current := dir, sealedSegs, current;
    }

    method WriteBatch(entries: seq<E>)
      requires Valid()
      modifies this
      ensures Valid() && Entries() == old(Entries()) + entries
      ensures sealedSegs == old(sealedSegs) && current == old(current)
    {
      dir := dir[current := dir[current] + entries];
      BetweenSame(old(dir), dir, 0, current);
    }

    /** Starts the next segment and seals this one. No entry moves, even when closing the
        sealed segment fails; a segment that cannot be created changes nothing. */
    method Rotate(created: bool, closed: bool) returns (sealedSeg: nat, ok: bool)
      requires Valid()
      modifies this
      ensures Valid() && Entries() == old(Entries()) && ok == (created && closed)
      ensures !created ==> sealedSegs == old(sealedSegs) && current == old(current) && dir == old(dir)
      ensures created ==>
                && sealedSeg == old(current) && sealedSegs == old(sealedSegs) + [old(current)]
                && current == old(current) + 1 && dir[current] == []
    {
      if !created { return 0, false; }
      sealedSeg := current;
      dir := dir[current + 1 := []];
      sealedSegs := sealedSegs + [current];
      assert forall i :: 0 <= i < |old(sealedSegs)| ==> old(sealedSegs)[i] in old(sealedSegs);
      current := current + 1;
      ok := closed;
      BetweenSame(old(dir), dir, 0, current);
    }

    /** Deletes sealed segments numbered at most n, oldest first, until one cannot be removed:
        what goes is the oldest part of the log, and none of it is in a newer segment. */
    method DeleteThrough(n: nat, removes: nat -> bool) returns (ok: bool, deleted: nat)
      requires Valid()
      modifies this
      ensures Valid() && current == old(current)
      ensures deleted <= |old(sealedSegs)| && sealedSegs == old(sealedSegs)[deleted..]
      ensures deleted > 0 ==> old(sealedSegs)[deleted - 1] <= n
      ensures old(Entries()) == Between(old(dir), 0, Reached(old(sealedSegs), deleted)) + Entries()
      ensures ok ==> forall m :: m in sealedSegs ==> m > n
      ensures (forall m :: removes(m)) ==> ok
      ensures forall i :: 0 <= i < deleted ==> removes(old(sealedSegs)[i])
      ensures !ok ==> deleted < |old(sealedSegs)| && old(sealedSegs)[deleted] <= n && !removes(old(sealedSegs)[deleted])
    {
      var left;
      left, deleted, ok := DeleteOldest(dir, sealedSegs, current, n, removes);
      DroppedIsOrdered(dir, left, sealedSegs, deleted, current);
      DroppedPrefix(dir, left, Reached(sealedSegs, deleted), current + 1);
      dir, sealedSegs := left, sealedSegs[deleted..];
    }
  }

  // Removes the oldest of ns, one by one, while they are numbered at most n and go.
  method DeleteOldest<E>(dir: Dir<E>, ns: seq<nat>, current: nat, n: nat, removes: nat -> bool)
    returns (left: Dir<E>, deleted: nat, ok: bool)
    requires Ordered(dir, ns, current)
    ensures deleted <= |ns| && Reached(ns, deleted) <= current && Dropped(dir, left, Reached(ns, deleted))
    ensures current in left && left.Keys <= dir.Keys
    ensures deleted > 0 ==> ns[deleted - 1] <= n
    ensures ok ==> deleted == |ns| || ns[deleted] > n
    ensures (forall m :: removes(m)) ==> ok
    ensures forall i :: 0 <= i < deleted ==> removes(ns[i])
    ensures !ok ==> deleted < |ns| && ns[deleted] <= n && !removes(ns[deleted])
  {
    left, deleted, ok := dir, 0, true;
    while deleted < |ns| && ns[deleted] <= n && ok
      invariant deleted <= |ns| && Reached(ns, deleted) <= current && Dropped(dir, left, Reached(ns, deleted))
      invariant current in left && left.Keys <= dir.Keys
      invariant deleted > 0 ==> ns[deleted - 1] <= n
      invariant forall i :: 0 <= i < deleted ==> removes(ns[i])
      invariant !ok ==> deleted < |ns| && ns[deleted] <= n && !removes(ns[deleted])
      decreases |ns| - deleted, ok
    {
      assert ns[deleted] in ns;
      if removes(ns[deleted]) {
        DropNext(dir, left, ns, deleted);
        left := left - {ns[deleted]};
        deleted := deleted + 1;
      } else {
        ok := false;
      }
    }
  }

  lemma KeptSuffix(ns: seq<nat>, i: nat)
    requires Ascending(ns) && i <= |ns|
    ensures Ascending(ns[i..])
    ensures forall m :: m in ns[i..] ==> m in ns && ns[i] <= m
  {
    forall m | m in ns[i..] ensures m in ns && ns[i] <= m {
      var j :| i <= j < |ns| && ns[j] == m;
    }
  }

  // dir' is dir without what its segments below cut held.
  ghost predicate Dropped<E>(dir: Dir<E>, dir': Dir<E>, cut: nat) {
    && (forall m: nat :: m < cut ==> Held(dir', m) == [])
    && (forall m: nat :: cut <= m ==> Held(dir', m) == Held(dir, m))
  }

  lemma DropNext<E>(dir: Dir<E>, dir': Dir<E>, ns: seq<nat>, i: nat)
    requires Ascending(ns) && i < |ns| && Dropped(dir, dir', Reached(ns, i))
    requires forall n: nat :: Held(dir, n) != [] && n < ns[i] ==> n in ns
    ensures Dropped(dir, dir' - {ns[i]}, Reached(ns, i + 1))
  {
    NextSegment(dir, ns, i);
    forall m: nat | m < Reached(ns, i + 1) ensures Held(dir' - {ns[i]}, m) == [] {
      if m < ns[i] {
        assert Held(dir, m) == [] || m < Reached(ns, i);
        assert Held(dir', m) == [];
      }
    }
    forall m: nat | Reached(ns, i + 1) <= m ensures Held(dir' - {ns[i]}, m) == Held(dir, m) {
      assert Held(dir', m) == Held(dir, m);
    }
  }

  lemma DroppedIsOrdered<E>(dir: Dir<E>, dir': Dir<E>, ns: seq<nat>, i: nat, current: nat)
    requires Ordered(dir, ns, current) && i <= |ns| && Dropped(dir, dir', Reached(ns, i))
    requires current in dir' && forall m :: m in dir' ==> m <= current
    ensures Ordered(dir', ns[i..], current) && forall m :: m in ns[i..] ==> ns[i] <= m
  {
    KeptSuffix(ns, i);
    forall m: nat | Held(dir', m) != [] ensures m in ns[i..] || m == current {
      assert Held(dir, m) != [] && m >= Reached(ns, i);
      if m != current { ReachedSplits(ns, i, m); }
    }
  }

  lemma DroppedPrefix<E>(dir: Dir<E>, dir': Dir<E>, cut: nat, hi: nat)
    requires cut <= hi && Dropped(dir, dir', cut)
    ensures Between(dir, 0, hi) == Between(dir, 0, cut) + Between(dir', 0, hi)
  {
    BetweenNothing(dir', 0, cut);
    BetweenSame(dir, dir', cut, hi);
    BetweenSplit(dir, 0, cut, hi);
    BetweenSplit(dir', 0, cut, hi);
    NothingBeside(Between(dir', 0, cut), Between(dir', cut, hi));
  }

  // The segments among ns that hold something.
  function Holding<E>(dir: Dir<E>, ns: seq<nat>): seq<nat> {
    if ns == [] then []
    else
      var last := ns[|ns| - 1];
      Holding(dir, ns[..|ns| - 1]) + (if Held(dir, last) != [] then [last] else [])
  }

  lemma {:induction false} HoldingFacts<E>(dir: Dir<E>, ns: seq<nat>)
    requires Ascending(ns)
    ensures Ascending(Holding(dir, ns))
    ensures forall n :: n in Holding(dir, ns) <==> n in ns && Held(dir, n) != []
  {
    if ns != [] {
      var front, last := ns[..|ns| - 1], ns[|ns| - 1];
      HoldingFacts(dir, front);
      var kept := Holding(dir, front);
      assert forall i :: 0 <= i < |kept| ==> kept[i] in kept;
      assert ns == front + [last];
    }
  }

  // What an open leaves: a new last segment, empty, after every file that holds something.
  lemma OpenedIsOrdered<E>(dir: Dir<E>, ns: seq<nat>, left: Dir<E>, next: nat)
    requires Ascending(ns) && (forall n :: n in ns <==> n in dir) && left.Keys <= dir.Keys
    requires SameHeld(left, dir)
    requires next == if ns == [] then 1 else Reached(ns, |ns|)
    ensures Ordered(left[next := []], Holding(dir, ns), next) && forall n :: n in dir ==> n < next
  {
    HoldingFacts(dir, ns);
    forall n | n in dir ensures n < next {
      ReachedSplits(ns, |ns|, n);
    }
    forall n: nat | Held(left[next := []], n) != [] ensures n in Holding(dir, ns) {
      assert Held(left, n) == Held(dir, n);
    }
  }

  lemma OpenedHoldsAll<E>(dir: Dir<E>, ns: seq<nat>, left: Dir<E>, next: nat)
    requires (forall n :: n in ns <==> n in dir) && SameHeld(left, dir)
    requires next == if ns == [] then 1 else Reached(ns, |ns|)
    ensures Between(left[next := []], 0, next + 1) == Between(dir, 0, next) == Between(dir, 0, Reached(ns, |ns|))
  {
    var files := left[next := []];
    if ns == [] { BetweenNothing(dir, 0, 1); }
    BetweenSame(dir, files, 0, next);
    NothingBeside(Held(files, next), Between(files, 0, next));
  }

  lemma EmptyGone<E>(left: Dir<E>, dir: Dir<E>, n: nat)
    requires SameHeld(left, dir) && Held(dir, n) == []
    ensures SameHeld(left - {n}, dir)
  {
    forall m: nat ensures Held(left - {n}, m) == Held(dir, m) {
      assert Held(left, m) == Held(dir, m);
    }
  }

  // Replays the listed segments in order, removing (at best) those that hold nothing, up to the
  // first that cannot be read.
  method ReplayAll<E(==)>(dir: Dir<E>, ns: seq<nat>, readable: nat -> bool, removes: nat -> bool)
    returns (ok: bool, entries: seq<E>, next: nat, kept: seq<nat>, left: Dir<E>)
    requires Ascending(ns) && forall n :: n in ns <==> n in dir
    ensures ok <==> forall n :: n in dir ==> readable(n)
    ensures ok ==> entries == Between(dir, 0, Reached(ns, |ns|))
    ensures ok ==> next == if ns == [] then 1 else Reached(ns, |ns|)
    ensures ok ==> kept == Holding(dir, ns)
    ensures left.Keys <= dir.Keys && SameHeld(left, dir)
  {
    ok, entries, next, kept, left := true, [], 1, [], dir;
    for i := 0 to |ns|
      invariant Replayed(dir, ns, i, entries, next, kept)
      invariant left.Keys <= dir.Keys && SameHeld(left, dir)
      invariant forall j :: 0 <= j < i ==> readable(ns[j])
    {
      assert ns[i] in ns;
      if !readable(ns[i]) {
        ok := false;
        return;
      }
      entries, next, kept, left := ReplayOne(dir, ns, i, removes, entries, next, kept, left);
    }
    assert ns[..|ns|] == ns;
  }

  method ReplayOne<E(==)>(dir: Dir<E>, ns: seq<nat>, i: nat, removes: nat -> bool,
                          entries: seq<E>, next: nat, kept: seq<nat>, left: Dir<E>)
    returns (entries': seq<E>, next': nat, kept': seq<nat>, left': Dir<E>)
    requires Replayed(dir, ns, i, entries, next, kept) && i < |ns| && left.Keys <= dir.Keys && SameHeld(left, dir)
    ensures Replayed(dir, ns, i + 1, entries', next', kept') && left'.Keys <= dir.Keys && SameHeld(left', dir)
  {
    var n: nat := ns[i];
    ReplayNext(dir, ns, i, entries, next, kept);
    entries', next', kept', left' := entries + dir[n], if n >= next then n + 1 else next, kept, left;
    if dir[n] == [] {
      if removes(n) {
        EmptyGone(left, dir, n);
        left' := left - {n};
      }
    } else {
      kept' := kept + [n];
    }
  }

  // Where the replay stands after the first i segments.
  ghost predicate Replayed<E>(dir: Dir<E>, ns: seq<nat>, i: nat, entries: seq<E>, next: nat, kept: seq<nat>) {
    && i <= |ns| && Ascending(ns) && (forall n :: n in ns <==> n in dir)
    && next == (if i == 0 then 1 else Reached(ns, i))
    && entries == Between(dir, 0, Reached(ns, i))
    && kept == Holding(dir, ns[..i])
  }

  lemma ReplayNext<E>(dir: Dir<E>, ns: seq<nat>, i: nat, entries: seq<E>, next: nat, kept: seq<nat>)
    requires Replayed(dir, ns, i, entries, next, kept) && i < |ns|
    ensures ns[i] in dir
    ensures Replayed(dir, ns, i + 1, entries + dir[ns[i]], if ns[i] >= next then ns[i] + 1 else next,
                     if dir[ns[i]] == [] then kept else kept + [ns[i]])
  {
    assert ns[i] in ns && ns[..i + 1][..i] == ns[..i];
    NextSegment(dir, ns, i);
  }

  /** Opens a directory: every entry in it, in segment order, is returned and kept, and new
      entries go to a segment after them all. It fails exactly when some segment cannot be read
      or the new one cannot be started, and even then no segment that holds anything is gone. */
  method OpenLog<E(!new, ==)>(dir: Dir<E>, readable: nat -> bool, starts: bool, removes: nat -> bool)
    returns (log: Log?<E>, entries: seq<E>, left: Dir<E>)
    ensures log != null <==> starts && forall n :: n in dir ==> readable(n)
    ensures log != null ==> fresh(log) && log.Valid() && log.Entries() == entries
    ensures log != null ==> forall n :: n in dir ==> n < log.current
    ensures log != null ==> entries == Between(dir, 0, log.current) && log.dir == left[log.current := []]
    ensures left.Keys <= dir.Keys && SameHeld(left, dir)
  {
    var ns := Sorted(dir.Keys);
    var ok, next, kept;
    ok, entries, next, kept, left := ReplayAll(dir, ns, readable, removes);
    if !ok || !starts {
      log := null;
      return;
    }
    OpenedIsOrdered(dir, ns, left, next);
    OpenedHoldsAll(dir, ns, left, next);
    log := new Log(left[next := []], kept, next);
  }
}
