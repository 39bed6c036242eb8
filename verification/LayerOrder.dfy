/**
 Reading flushed layers in some order. Every flush writes one layer; a table holds the fold of
 some layers in the order its merges read them, and a read folds the tables' contents in the
 order they are listed. What that returns depends only on the order in which each layer is
 met for the first time, and it is right for every history exactly when that is newest first.
 */
module LayerOrder {
  import opened Clocks
  import opened Versions
  import opened Layers
  import opened Sequences
  import opened Compaction

  // The layers of [lo, hi), newest first.
  function Down(lo: nat, hi: nat): seq<nat>
    decreases hi - lo
  {
    if lo >= hi then [] else Down(lo + 1, hi) + [lo]
  }

  predicate Below(order: seq<nat>, n: nat) {
    forall i :: 0 <= i < |order| ==> order[i] < n
  }

  // Key's versions in those layers, one layer after the other.
  function Stacked(h: seq<Layer>, order: seq<nat>, key: string): seq<Item>
    requires Below(order, |h|)
  {
    if order == [] then []
    else Stacked(h, order[..|order| - 1], key) + Look(h[order[|order| - 1]], key)
  }

  // What folding those layers, first to last, leaves of key's versions.
  function Seen(h: seq<Layer>, order: seq<nat>, key: string): seq<Item>
    requires Below(order, |h|)
  {
    Merge([], Stacked(h, order, key))
  }

  function Flat(orders: seq<seq<nat>>): seq<nat> {
    if orders == [] then [] else Flat(orders[..|orders| - 1]) + orders[|orders| - 1]
  }

  predicate AllBelow(orders: seq<seq<nat>>, n: nat) {
    forall i :: 0 <= i < |orders| ==> Below(orders[i], n)
  }

  // GetAll over tables that hold those layers, the tables in that order.
  function ReadOrders(h: seq<Layer>, orders: seq<seq<nat>>, key: string): seq<Item>
    requires AllBelow(orders, |h|)
  {
    Fold(seq(|orders|, i requires 0 <= i < |orders| => Seen(h, orders[i], key)))
  }

  // ---------------------------------------------------------------- which layer is met first

  // x occurs before y does for the first time.
  ghost predicate Precedes(s: seq<nat>, x: nat, y: nat) {
    exists i :: 0 <= i < |s| && s[i] == x && y !in s[..i + 1]
  }

  lemma PrecedesPrefix(a: seq<nat>, b: seq<nat>, x: nat, y: nat)
    requires a <= b && Precedes(a, x, y)
    ensures Precedes(b, x, y)
  {
    var i :| 0 <= i < |a| && a[i] == x && y !in a[..i + 1];
    assert b[..i + 1] == a[..i + 1] && b[i] == x;
  }

  lemma PrecedesAppend(s: seq<nat>, z: nat, x: nat, y: nat)
    ensures Precedes(s + [z], x, y) <==> Precedes(s, x, y) || (z == x && x != y && y !in s)
  {
    var t := s + [z];
    assert t[..|s| + 1] == t && t[|s|] == z;
    if Precedes(s, x, y) { PrecedesPrefix(s, t, x, y); }
    if Precedes(t, x, y) && y in s { PrecedesEarly(s, z, x, y); }
    if Precedes(t, x, y) && z != x { PrecedesEarly(s, z, x, y); }
    if Precedes(t, x, y) && x == y { NotBeforeItself(t, x); }
  }

  lemma PrecedesEarly(s: seq<nat>, z: nat, x: nat, y: nat)
    requires Precedes(s + [z], x, y) && (y in s || z != x)
    ensures Precedes(s, x, y)
  {
    var t := s + [z];
    var i :| 0 <= i < |t| && t[i] == x && y !in t[..i + 1];
    assert t[..|s| + 1] == t && forall w :: w in s ==> w in t;
    assert i < |s|;
    assert t[..i + 1] == s[..i + 1];
  }

  lemma NotBeforeItself(s: seq<nat>, x: nat)
    ensures !Precedes(s, x, x)
  {
    forall i | 0 <= i < |s| && s[i] == x ensures x in s[..i + 1] { assert s[..i + 1][i] == x; }
  }

  // Taking first occurrences keeps their order.
  lemma {:induction false} FirstsKeepOrder(s: seq<nat>, x: nat, y: nat)
    ensures Precedes(Firsts(s), x, y) <==> Precedes(s, x, y)
  {
    if s != [] {
      var front, last := s[..|s| - 1], s[|s| - 1];
      assert s == front + [last];
      FirstsKeepOrder(front, x, y);
      FirstsFacts(front);
      PrecedesAppend(front, last, x, y);
      if last in front {
        assert Firsts(s) == Firsts(front);
        if last == x && x != y && y !in front { HeldPrecedes(front, x, y); }
      } else {
        PrecedesAppend(Firsts(front), last, x, y);
      }
    }
  }

  lemma HeldPrecedes(s: seq<nat>, x: nat, y: nat)
    requires x in s && y !in s
    ensures Precedes(s, x, y)
  {
    var i :| 0 <= i < |s| && s[i] == x;
    assert forall w :: w in s[..i + 1] ==> w in s;
  }

  // ---------------------------------------------------------------- only first meetings matter

  lemma {:induction false} FlatBelow(orders: seq<seq<nat>>, n: nat)
    requires AllBelow(orders, n)
    ensures Below(Flat(orders), n)
  {
    if orders != [] { FlatBelow(orders[..|orders| - 1], n); }
  }

  lemma FirstsBelow(order: seq<nat>, n: nat)
    requires Below(order, n)
    ensures Below(Firsts(order), n)
  {
    var f := Firsts(order);
    FirstsFacts(order);
    forall i | 0 <= i < |f| ensures f[i] < n {
      assert f[i] in f && f[i] in order;
      var j :| 0 <= j < |order| && order[j] == f[i];
    }
  }

  lemma StackedNext(h: seq<Layer>, order: seq<nat>, x: nat, key: string)
    requires Below(order, |h|) && x < |h|
    ensures Below(order + [x], |h|) && Stacked(h, order + [x], key) == Stacked(h, order, key) + Look(h[x], key)
  {
    assert (order + [x])[..|order|] == order;
  }

  lemma {:induction false} StackedConcat(h: seq<Layer>, a: seq<nat>, b: seq<nat>, key: string)
    requires Below(a, |h|) && Below(b, |h|)
    ensures Stacked(h, a + b, key) == Stacked(h, a, key) + Stacked(h, b, key)
  {
    if b == [] {
      assert a + b == a;
    } else {
      var front, last := b[..|b| - 1], b[|b| - 1];
      StackedConcat(h, a, front, key);
      assert a + b == (a + front) + [last];
      StackedNext(h, a + front, last, key);
      ConcatAssociates(Stacked(h, a, key), Stacked(h, front, key), Look(h[last], key));
    }
  }

  // Tables folded one after the other read as their layers laid end to end.
  lemma {:induction false} ReadIsFlat(h: seq<Layer>, orders: seq<seq<nat>>, key: string)
    requires AllBelow(orders, |h|)
    ensures Below(Flat(orders), |h|)
    ensures ReadOrders(h, orders, key) == Seen(h, Flat(orders), key)
  {
    FlatBelow(orders, |h|);
    if orders != [] {
      var front, last := orders[..|orders| - 1], orders[|orders| - 1];
      ReadIsFlat(h, front, key);
      var lists := seq(|orders|, i requires 0 <= i < |orders| => Seen(h, orders[i], key));
      assert lists[..|orders| - 1] == seq(|front|, i requires 0 <= i < |front| => Seen(h, front[i], key));
      MergeFolded(ReadOrders(h, front, key), Stacked(h, last, key));
      StackedConcat(h, Flat(front), last, key);
      MergeConcat([], Stacked(h, Flat(front), key), Stacked(h, last, key));
    }
  }

  // A layer met again adds nothing.
  lemma {:induction false} SeenFirsts(h: seq<Layer>, order: seq<nat>, key: string)
    requires Below(order, |h|)
    ensures Below(Firsts(order), |h|) && Seen(h, order, key) == Seen(h, Firsts(order), key)
  {
    FirstsBelow(order, |h|);
    if order != [] {
      var front, last := order[..|order| - 1], order[|order| - 1];
      SeenFirsts(h, front, key);
      SeenNext(h, front, last, key);
      assert order == front + [last];
      FirstsStep(front, last);
      if last !in front {
        FirstsFacts(front);
        SeenNext(h, Firsts(front), last, key);
      } else {
        assert Firsts(order) == Firsts(front);
      }
    }
  }

  lemma SeenNext(h: seq<Layer>, order: seq<nat>, x: nat, key: string)
    requires Below(order, |h|) && x < |h|
    ensures Below(order + [x], |h|)
    ensures Seen(h, order + [x], key) == if x in order then Seen(h, order, key) else Merge(Seen(h, order, key), Look(h[x], key))
  {
    var above, here := Stacked(h, order, key), Look(h[x], key);
    assert (order + [x])[..|order|] == order;
    MergeConcat([], above, here);
    if x in order {
      MergeKeepsAntichain([], above);
      forall y | y in here ensures Covered(y, Merge([], above)) {
        HeldIsCovered(h, order, x, key, y);
      }
      MergeAbsorbed(Merge([], above), here);
    }
  }

  lemma HeldIsCovered(h: seq<Layer>, order: seq<nat>, x: nat, key: string, y: Item)
    requires Below(order, |h|) && x in order && y in Look(h[x], key)
    ensures Covered(y, Seen(h, order, key))
  {
    HeldIsStacked(h, order, x, key, y);
    MergeCoversBoth([], Stacked(h, order, key));
    assert y in [] + Stacked(h, order, key);
  }

  lemma {:induction false} HeldIsStacked(h: seq<Layer>, order: seq<nat>, x: nat, key: string, y: Item)
    requires Below(order, |h|) && x in order && y in Look(h[x], key)
    ensures y in Stacked(h, order, key)
  {
    var front, last := order[..|order| - 1], order[|order| - 1];
    assert order == front + [last];
    if x != last { HeldIsStacked(h, front, x, key, y); }
  }

  // ---------------------------------------------------------------- newest first is exactly right

  // Folding those layers returns, for every history, what folding all of it newest first does.
  ghost predicate Exact(n: nat, order: seq<nat>) {
    && Below(order, n)
    && forall h: seq<Layer>, key: string :: |h| == n ==> SameAsAll(h, order, key)
  }

  predicate SameAsAll(h: seq<Layer>, order: seq<nat>, key: string)
    requires Below(order, |h|)
  {
    DownBelow(0, |h|);
    Seen(h, order, key) == Seen(h, Down(0, |h|), key)
  }

  lemma {:induction false} DownBelow(lo: nat, hi: nat)
    ensures Below(Down(lo, hi), hi)
    decreases hi - lo
  {
    if lo < hi { DownBelow(lo + 1, hi); }
  }

  lemma {:induction false} DownMembers(lo: nat, hi: nat, x: nat)
    ensures x in Down(lo, hi) <==> lo <= x < hi
    decreases hi - lo
  {
    if lo < hi { DownMembers(lo + 1, hi, x); }
  }

  lemma {:induction false} DownAt(lo: nat, hi: nat)
    requires lo <= hi
    ensures |Down(lo, hi)| == hi - lo
    ensures forall i :: 0 <= i < hi - lo ==> Down(lo, hi)[i] == hi - 1 - i
    decreases hi - lo
  {
    if lo < hi { DownAt(lo + 1, hi); }
  }

  lemma {:induction false} FirstsDistinct(order: seq<nat>)
    requires Distinct(order)
    ensures Firsts(order) == order
  {
    if order != [] {
      var front, last := order[..|order| - 1], order[|order| - 1];
      FirstsDistinct(front);
      assert order == front + [last] && last !in front;
      FirstsStep(front, last);
    }
  }

  // The history in which layer x alone writes to key, or layers x and y do.
  function Pair(n: nat, x: nat, a: Item, y: nat, b: Item, key: string): seq<Layer> {
    seq(n, i => if i == x then map[key := [a]] else if i == y then map[key := [b]] else map[])
  }

  lemma {:induction false} NothingStacked(h: seq<Layer>, order: seq<nat>, key: string)
    requires Below(order, |h|) && forall i :: 0 <= i < |order| ==> Look(h[order[i]], key) == []
    ensures Stacked(h, order, key) == []
  {
    if order != [] { NothingStacked(h, order[..|order| - 1], key); }
  }

  // Key is written by layer x, by layer y, and by no other, under one clock.
  ghost predicate WrittenTwice(h: seq<Layer>, x: nat, a: Item, y: nat, b: Item, key: string) {
    && Same(a.clock, b.clock)
    && forall z: nat :: z < |h| ==> Look(h[z], key) == (if z == x then [a] else if z == y then [b] else [])
  }

  // The layer met first wins.
  lemma FirstMetWins(h: seq<Layer>, order: seq<nat>, x: nat, a: Item, y: nat, b: Item, key: string)
    requires Below(order, |h|) && WrittenTwice(h, x, a, y, b, key) && Precedes(order, x, y)
    ensures Seen(h, order, key) == [a]
  {
    var i :| 0 <= i < |order| && order[i] == x && y !in order[..i + 1];
    var start, rest := order[..i + 1], order[i + 1..];
    assert order == start + rest && start[i] == x;
    MetAlone(h, start, x, a, y, b, key);
    StaysFirst(h, start, rest, x, a, y, b, key);
  }

  lemma {:induction false} MetAlone(h: seq<Layer>, order: seq<nat>, x: nat, a: Item, y: nat, b: Item, key: string)
    requires Below(order, |h|) && WrittenTwice(h, x, a, y, b, key) && y !in order
    ensures Seen(h, order, key) == if x in order then [a] else []
  {
    if order != [] {
      var front, last := order[..|order| - 1], order[|order| - 1];
      assert order == front + [last];
      MetAlone(h, front, x, a, y, b, key);
      SeenNext(h, front, last, key);
      MergeAntichainIsIdentity([a]);
    }
  }

  lemma StaysFirst(h: seq<Layer>, start: seq<nat>, rest: seq<nat>, x: nat, a: Item, y: nat, b: Item, key: string)
    requires Below(start, |h|) && Below(rest, |h|) && WrittenTwice(h, x, a, y, b, key)
    requires Seen(h, start, key) == [a]
    ensures Below(start + rest, |h|) && Seen(h, start + rest, key) == [a]
  {
    StackedConcat(h, start, rest, key);
    MergeConcat([], Stacked(h, start, key), Stacked(h, rest, key));
    OnlyTheTwo(h, rest, x, a, y, b, key);
    KeepsFirst(a, b, Stacked(h, rest, key));
  }

  lemma {:induction false} OnlyTheTwo(h: seq<Layer>, order: seq<nat>, x: nat, a: Item, y: nat, b: Item, key: string)
    requires Below(order, |h|) && WrittenTwice(h, x, a, y, b, key)
    ensures forall z :: z in Stacked(h, order, key) ==> z == a || z == b
  {
    if order != [] { OnlyTheTwo(h, order[..|order| - 1], x, a, y, b, key); }
  }

  lemma KeepsFirst(a: Item, b: Item, more: seq<Item>)
    requires Same(a.clock, b.clock) && forall y :: y in more ==> y == a || y == b
    ensures Merge([a], more) == [a]
  {
    assert Covers(a, a) && Covers(a, b) && a in [a];
    assert forall y :: y in more ==> Covered(y, [a]);
    MergeAbsorbed([a], more);
  }

  lemma NeverMet(n: nat, order: seq<nat>, x: nat, a: Item, key: string)
    requires Below(order, n) && x !in order
    ensures Seen(Pair(n, x, a, n, a, key), order, key) == []
  {
    var h := Pair(n, x, a, n, a, key);
    forall i | 0 <= i < |order| ensures Look(h[order[i]], key) == [] { assert order[i] in order; }
    NothingStacked(h, order, key);
  }

  lemma DownPrecedes(lo: nat, hi: nat, x: nat, y: nat)
    requires lo <= y < x < hi
    ensures Precedes(Down(lo, hi), x, y)
  {
    DownAt(lo, hi);
    var d, i := Down(lo, hi), hi - 1 - x;
    assert d[i] == x && y !in d[..i + 1];
  }

  // Every layer is met, and each before every older one.
  ghost predicate NewestMetFirst(n: nat, order: seq<nat>) {
    && (forall x: nat :: x < n ==> x in order)
    && forall x: nat, y: nat :: y < x < n ==> Precedes(order, x, y)
  }

  lemma MissesLayer(n: nat, order: seq<nat>, x: nat)
    requires Below(order, n) && x < n && x !in order
    ensures !Exact(n, order)
  {
    var a, key := Item(0, map[], "", "", false), "";
    var h := Pair(n, x, a, n, a, key);
    NeverMet(n, order, x, a, key);
    DownBelow(0, n);
    DownMembers(0, n, x);
    HeldIsCovered(h, Down(0, n), x, key, a);
    assert |h| == n && !SameAsAll(h, order, key);
  }

  lemma MeetsOlderFirst(n: nat, order: seq<nat>, x: nat, y: nat)
    requires Below(order, n) && y < x < n && Precedes(order, y, x)
    ensures !Exact(n, order)
  {
    var a, b, key := Item(0, map[], "newer", "", false), Item(1, map[], "older", "", false), "";
    var h := Pair(n, x, a, y, b, key);
    FirstMetWins(h, order, y, b, x, a, key);
    DownBelow(0, n);
    DownPrecedes(0, n, x, y);
    FirstMetWins(h, Down(0, n), x, a, y, b, key);
    assert |h| == n && !SameAsAll(h, order, key);
  }

  // One of two met layers is met first.
  lemma {:induction false} OneComesFirst(order: seq<nat>, x: nat, y: nat)
    requires x in order && x != y
    ensures Precedes(order, x, y) || Precedes(order, y, x)
  {
    var front, last := order[..|order| - 1], order[|order| - 1];
    assert order == front + [last];
    PrecedesAppend(front, last, x, y);
    PrecedesAppend(front, last, y, x);
    if x in front {
      OneComesFirst(front, x, y);
    } else if y in front {
      HeldPrecedes(front, y, x);
    }
  }

  // First meetings newest first leave one list only.
  lemma {:induction false} NewestMetFirstIsDown(n: nat, order: seq<nat>, k: nat)
    requires Below(order, n) && Distinct(order) && NewestMetFirst(n, order) && k <= n
    ensures k <= |order| && order[..k] == Down(n - k, n)
  {
    if k > 0 {
      NewestMetFirstIsDown(n, order, k - 1);
      DownAt(n - k + 1, n);
      var x := n - k;
      assert x in order;
      var i :| 0 <= i < |order| && order[i] == x;
      NextIsNext(n, order, k - 1, i);
      DownTop(n - k, n);
      assert order[..k] == order[..k - 1] + [x];
    }
  }

  lemma NextIsNext(n: nat, order: seq<nat>, k: nat, i: nat)
    requires Below(order, n) && Distinct(order) && NewestMetFirst(n, order)
    requires k < n && k <= |order| && order[..k] == Down(n - k, n) && i < |order| && order[i] == n - 1 - k
    ensures i == k
  {
    DownMembers(n - k, n, n - 1 - k);
    assert forall m :: 0 <= m < k ==> order[m] in order[..k];
    if i > k { TooEarly(n, order, k, i); }
  }

  // Behind a newest-first start, the next newest layer cannot wait.
  lemma TooEarly(n: nat, order: seq<nat>, k: nat, i: nat)
    requires Below(order, n) && Distinct(order) && k < n && k < i < |order| && order[i] == n - 1 - k
    requires order[..k] == Down(n - k, n)
    ensures !NewestMetFirst(n, order)
  {
    var x, z := n - 1 - k, order[k];
    DownMembers(n - k, n, z);
    assert z !in order[..k] && order[k] != order[i];
    assert z < x;
    assert order[k] == z && x !in order[..k + 1];
    PrecedesOneWay(order, z, x);
  }

  lemma DownTop(lo: nat, hi: nat)
    requires lo < hi
    ensures Down(lo, hi) == Down(lo + 1, hi) + [lo]
  {
  }

  lemma FirstsAreDown(n: nat, order: seq<nat>)
    requires Below(order, n) && NewestMetFirst(n, order)
    ensures Firsts(order) == Down(0, n)
  {
    var f := Firsts(order);
    FirstsFacts(order);
    FirstsBelow(order, n);
    forall x: nat, y: nat | y < x < n ensures Precedes(f, x, y) { FirstsKeepOrder(order, x, y); }
    forall x: nat | x < n ensures x in f { assert x in order; }
    assert Distinct(f) && NewestMetFirst(n, f);
    NewestMetFirstIsDown(n, f, n);
    if |f| > n {
      assert f[n] in f && f[n] in order && f[n] < n;
      DownMembers(0, n, f[n]);
      assert false;
    }
    assert f[..n] == f;
  }

  /** Whatever the tables hold and however they are listed, a read is right for every history
      if and only if every layer is met, and each before every older one. */
  lemma ExactIff(n: nat, order: seq<nat>)
    requires Below(order, n)
    ensures Exact(n, order) <==> NewestMetFirst(n, order)
  {
    if NewestMetFirst(n, order) {
      FirstsAreDown(n, order);
      forall h: seq<Layer>, key: string | |h| == n ensures SameAsAll(h, order, key) {
        SeenFirsts(h, order, key);
      }
    } else if x: nat :| x < n && x !in order {
      MissesLayer(n, order, x);
    } else {
      var x: nat, y: nat :| y < x < n && !Precedes(order, x, y);
      OneComesFirst(order, x, y);
      MeetsOlderFirst(n, order, x, y);
    }
  }

  // ---------------------------------------------------------------- in terms of tables

  predicate Descending(order: seq<nat>) {
    forall i, j :: 0 <= i < j < |order| ==> order[i] > order[j]
  }

  // p is the first listed table that holds layer x.
  predicate FirstHolder(orders: seq<seq<nat>>, x: nat, p: int) {
    && 0 <= p < |orders| && x in orders[p]
    && forall q :: 0 <= q < p ==> x !in orders[q]
  }

  predicate Held(orders: seq<seq<nat>>, x: nat) {
    exists p :: 0 <= p < |orders| && x in orders[p]
  }

  lemma {:induction false} FlatMembers(orders: seq<seq<nat>>, x: nat)
    ensures x in Flat(orders) <==> Held(orders, x)
  {
    if orders != [] {
      var n := |orders| - 1;
      var front := orders[..n];
      FlatMembers(front, x);
      if Held(front, x) {
        var p :| 0 <= p < n && x in front[p];
        assert x in orders[p];
      }
      if Held(orders, x) {
        var p :| 0 <= p <= n && x in orders[p];
        if p < n { assert x in front[p]; }
      }
    }
  }

  lemma {:induction false} FirstHolderExists(orders: seq<seq<nat>>, x: nat) returns (p: nat)
    requires Held(orders, x)
    ensures FirstHolder(orders, x, p)
  {
    var n := |orders| - 1;
    var front := orders[..n];
    if Held(front, x) {
      p := FirstHolderExists(front, x);
    } else {
      p := n;
      forall q | 0 <= q < n ensures x !in orders[q] { assert orders[q] == front[q]; }
    }
  }

  lemma {:induction false} FlatSplit(orders: seq<seq<nat>>, p: nat)
    requires p < |orders|
    ensures Flat(orders[..p]) + orders[p] <= Flat(orders)
  {
    var n := |orders| - 1;
    if p < n {
      assert orders[..n][..p] == orders[..p];
      FlatSplit(orders[..n], p);
    }
  }

  // Which of two layers is met first, from the tables that hold them first.
  lemma FirstHoldersDecide(orders: seq<seq<nat>>, x: nat, y: nat, p: int, q: int)
    requires x != y && FirstHolder(orders, x, p) && FirstHolder(orders, y, q)
    requires p < q || (p == q && x > y && Descending(orders[p]))
    ensures Precedes(Flat(orders), x, y)
  {
    var above, here := Flat(orders[..p]), orders[p];
    assert y !in above && x !in above by {
      FlatMembers(orders[..p], x);
      FlatMembers(orders[..p], y);
    }
    var k :| 0 <= k < |here| && here[k] == x;
    var part := above + here;
    var i := |above| + k;
    assert part[i] == x;
    assert part[..i + 1] == above + here[..k + 1];
    assert y !in here[..k + 1] by { assert p < q ==> y !in here; }
    FlatSplit(orders, p);
    PrecedesPrefix(part, Flat(orders), x, y);
  }

  // Both cannot be.
  lemma PrecedesOneWay(order: seq<nat>, x: nat, y: nat)
    requires Precedes(order, x, y)
    ensures !Precedes(order, y, x)
  {
    var i :| 0 <= i < |order| && order[i] == x && y !in order[..i + 1];
    forall j | 0 <= j < |order| && order[j] == y ensures x in order[..j + 1] {
      assert j > i;
      assert x == order[..j + 1][i];
    }
  }

  // Every layer is held, and no older layer is held by an earlier table than a newer one.
  ghost predicate HoldersInOrder(n: nat, orders: seq<seq<nat>>) {
    && (forall x: nat :: x < n ==> Held(orders, x))
    && forall x: nat, y: nat, p, q :: y < x < n && FirstHolder(orders, x, p) && FirstHolder(orders, y, q) ==> p <= q
  }

  /** Tables that each hold their layers newest first read every history right if and only if
      every layer is held and, of any two layers, the first listed table that holds the newer
      one is not after the first that holds the older one. */
  lemma ListingReadsExactlyIff(n: nat, orders: seq<seq<nat>>)
    requires AllBelow(orders, n) && forall i :: 0 <= i < |orders| ==> Descending(orders[i])
    ensures Exact(n, Flat(orders)) <==> HoldersInOrder(n, orders)
  {
    var flat := Flat(orders);
    FlatBelow(orders, n);
    ExactIff(n, flat);
    forall x: nat ensures x in flat <==> Held(orders, x) { FlatMembers(orders, x); }
    if HoldersInOrder(n, orders) { HoldersMeet(n, orders); }
    if NewestMetFirst(n, flat) { MeetingsHold(n, orders); }
  }

  lemma HoldersMeet(n: nat, orders: seq<seq<nat>>)
    requires HoldersInOrder(n, orders) && forall i :: 0 <= i < |orders| ==> Descending(orders[i])
    ensures NewestMetFirst(n, Flat(orders))
  {
    forall x: nat | x < n ensures x in Flat(orders) { FlatMembers(orders, x); }
    forall x: nat, y: nat | y < x < n ensures Precedes(Flat(orders), x, y) {
      var p := FirstHolderExists(orders, x);
      var q := FirstHolderExists(orders, y);
      assert p <= q;
      FirstHoldersDecide(orders, x, y, p, q);
    }
  }

  lemma MeetingsHold(n: nat, orders: seq<seq<nat>>)
    requires NewestMetFirst(n, Flat(orders))
    ensures HoldersInOrder(n, orders)
  {
    forall x: nat | x < n ensures Held(orders, x) { FlatMembers(orders, x); }
    forall x: nat, y: nat, p, q | y < x < n && FirstHolder(orders, x, p) && FirstHolder(orders, y, q)
      ensures p <= q
    {
      PrecedesOneWay(Flat(orders), x, y);
      if q < p { FirstHoldersDecide(orders, y, x, q, p); }
    }
  }

  // ---------------------------------------------------------------- stretches laid end to end

  // A stretch read after one that reaches from c up to n, leaving no gap, extends it.
  lemma {:induction false} StretchExtends(order: seq<nat>, c: nat, n: nat, lo: nat, hi: nat)
    requires Firsts(order) == Down(c, n) && c <= n && lo <= hi <= n && (hi >= c || lo >= c)
    ensures Firsts(order + Down(lo, hi)) == Down(if lo < c then lo else c, n)
    decreases hi - lo
  {
    if lo == hi {
      assert order + Down(lo, hi) == order;
    } else {
      StretchExtends(order, c, n, lo + 1, hi);
      ConcatAssociates(order, Down(lo + 1, hi), [lo]);
      OneExtends(order + Down(lo + 1, hi), if lo + 1 < c then lo + 1 else c, n, lo);
    }
  }

  lemma OneExtends(order: seq<nat>, c: nat, n: nat, x: nat)
    requires Firsts(order) == Down(c, n) && c <= x + 1 <= n
    ensures Firsts(order + [x]) == Down(if x < c then x else c, n)
  {
    FirstsStep(order, x);
    FirstsFacts(order);
    DownMembers(c, n, x);
  }
}
