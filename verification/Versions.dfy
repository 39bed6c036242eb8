/**
 Sibling sets: the versions of one key, ordered only by their vector clocks.

 Every layer, replica and repair path of the store combines versions with Resolve or its
 fold MergeSiblings. Their loops are the methods at the end; the functions Resolve and Merge
 are what those loops compute, and the lemmas between say what that means: the closed form
 of the fold, and the laws the rest of the project is built on.
 */
module Versions {
  import opened Sequences
  import opened Clocks

  /** A stored version. `ref` is the object's identity: the source compares versions by
      pointer in a few places, and two equal items here are the same object. */
  datatype Item = Item(ref: nat, clock: Clock, value: string, updatedBy: string, deleted: bool)

  // x is at or after y: the source's After or Equal.
  predicate Covers(x: Item, y: Item) {
    Leq(y.clock, x.clock)
  }

  // x is strictly after y.
  predicate Beats(x: Item, y: Item) {
    Less(y.clock, x.clock)
  }

  predicate Covered(y: Item, over: seq<Item>) {
    exists x :: x in over && Covers(x, y)
  }

  predicate Beaten(y: Item, over: seq<Item>) {
    exists x :: x in over && Beats(x, y)
  }

  // No version is at or after another: what a sibling set should be.
  predicate Antichain(xs: seq<Item>) {
    forall i, j :: 0 <= i < |xs| && 0 <= j < |xs| && i != j ==> !Covers(xs[i], xs[j])
  }

  // xs without the versions something in `over` is strictly after, in order.
  function Unbeaten(xs: seq<Item>, over: seq<Item>): seq<Item> {
    if xs == [] then []
    else
      var last := xs[|xs| - 1];
      Unbeaten(xs[..|xs| - 1], over) + (if Beaten(last, over) then [] else [last])
  }

  // One write folded into a version set: what it supersedes goes, and it is appended unless
  // something there already covers it.
  function Resolve(existing: seq<Item>, incoming: Item): seq<Item> {
    Unbeaten(existing, [incoming]) + (if Covered(incoming, existing) then [] else [incoming])
  }

  // MergeSiblings: b folded into a, one version at a time.
  function Merge(a: seq<Item>, b: seq<Item>): seq<Item> {
    if b == [] then a else Resolve(Merge(a, b[..|b| - 1]), b[|b| - 1])
  }

  // ---------------------------------------------------------------- Unbeaten

  lemma {:induction false} UnbeatenMembers(xs: seq<Item>, over: seq<Item>)
    ensures forall x :: x in Unbeaten(xs, over) <==> x in xs && !Beaten(x, over)
  {
    if xs != [] {
      UnbeatenMembers(xs[..|xs| - 1], over);
      assert xs == xs[..|xs| - 1] + [xs[|xs| - 1]];
    }
  }

  lemma {:induction false} UnbeatenConcat(a: seq<Item>, b: seq<Item>, over: seq<Item>)
    ensures Unbeaten(a + b, over) == Unbeaten(a, over) + Unbeaten(b, over)
  {
    if b == [] {
      assert a + b == a;
    } else {
      UnbeatenConcat(a, b[..|b| - 1], over);
      assert (a + b)[..|a + b| - 1] == a + b[..|b| - 1];
    }
  }

  lemma {:induction false} UnbeatenTwice(xs: seq<Item>, over: seq<Item>, more: seq<Item>)
    ensures Unbeaten(Unbeaten(xs, over), more) == Unbeaten(xs, over + more)
  {
    if xs != [] {
      var last := xs[|xs| - 1];
      UnbeatenTwice(xs[..|xs| - 1], over, more);
      UnbeatenConcat(Unbeaten(xs[..|xs| - 1], over), if Beaten(last, over) then [] else [last], more);
      assert Beaten(last, over + more) <==> Beaten(last, over) || Beaten(last, more);
      assert [last][..0] == [];
    }
  }

  // Unbeaten depends only on which versions of xs are beaten.
  lemma {:induction false} UnbeatenSame(xs: seq<Item>, over: seq<Item>, over': seq<Item>)
    requires forall x :: x in xs ==> (Beaten(x, over) <==> Beaten(x, over'))
    ensures Unbeaten(xs, over) == Unbeaten(xs, over')
  {
    if xs != [] {
      UnbeatenSame(xs[..|xs| - 1], over, over');
    }
  }

  lemma UnbeatenAll(xs: seq<Item>, over: seq<Item>)
    requires forall x :: x in xs ==> !Beaten(x, over)
    ensures Unbeaten(xs, over) == xs
  {
    forall i | 0 <= i < |xs| ensures !Beaten(xs[i], over) { assert xs[i] in xs; }
    UnbeatenEach(xs, over);
  }

  lemma {:induction false} UnbeatenEach(xs: seq<Item>, over: seq<Item>)
    requires forall i :: 0 <= i < |xs| ==> !Beaten(xs[i], over)
    ensures Unbeaten(xs, over) == xs
  {
    if xs != [] {
      UnbeatenEach(xs[..|xs| - 1], over);
      assert xs == xs[..|xs| - 1] + [xs[|xs| - 1]];
    }
  }

  // ---------------------------------------------------------------- what a fold covers

  // Resolve loses no coverage and adds none.
  lemma ResolveCovers(xs: seq<Item>, y: Item, z: Item)
    ensures Covered(z, Resolve(xs, y)) <==> Covered(z, xs + [y])
  {
    UnbeatenMembers(xs, [y]);
    if Covered(z, Resolve(xs, y)) {
      var x :| x in Resolve(xs, y) && Covers(x, z);
      assert x in xs + [y];
    }
    if Covered(z, xs + [y]) {
      var x :| x in xs + [y] && Covers(x, z);
      if x in xs && !Beats(y, x) {
        assert !Beaten(x, [y]);
        assert x in Resolve(xs, y);
      } else {
        assert Covers(y, z) by { if x != y { LeqTransitive(z.clock, x.clock, y.clock); } }
        if Covered(y, xs) {
          var w :| w in xs && Covers(w, y);
          assert !Beats(y, w);
          assert !Beaten(w, [y]);
          assert w in Resolve(xs, y);
          LeqTransitive(z.clock, y.clock, w.clock);
        } else {
          assert y in Resolve(xs, y);
        }
      }
    }
  }

  lemma {:induction false} MergeCovers(a: seq<Item>, b: seq<Item>, z: Item)
    ensures Covered(z, Merge(a, b)) <==> Covered(z, a + b)
  {
    if b == [] {
      assert a + b == a;
    } else {
      var front, last := b[..|b| - 1], b[|b| - 1];
      MergeCovers(a, front, z);
      ResolveCovers(Merge(a, front), last, z);
      assert a + b == a + front + [last];
    }
  }

  lemma {:induction false} MergeMembers(a: seq<Item>, b: seq<Item>)
    ensures forall x :: x in Merge(a, b) ==> x in a + b
  {
    if b != [] {
      var front, last := b[..|b| - 1], b[|b| - 1];
      MergeMembers(a, front);
      UnbeatenMembers(Merge(a, front), [last]);
    }
  }

  lemma {:induction false} MergeConcat(a: seq<Item>, b: seq<Item>, c: seq<Item>)
    ensures Merge(a, b + c) == Merge(Merge(a, b), c)
  {
    if c == [] {
      assert b + c == b;
    } else {
      MergeConcat(a, b, c[..|c| - 1]);
      assert (b + c)[..|b + c| - 1] == b + c[..|c| - 1];
    }
  }

  // Nothing a fold keeps is strictly before anything folded in.
  lemma {:induction false} MergeUnbeaten(a: seq<Item>, b: seq<Item>)
    ensures forall x :: x in Merge(a, b) ==> !Beaten(x, b)
  {
    if b != [] {
      var front, last := b[..|b| - 1], b[|b| - 1];
      var m := Merge(a, front);
      MergeUnbeaten(a, front);
      UnbeatenMembers(m, [last]);
      forall x | x in Merge(a, b) ensures !Beaten(x, b) {
        if x in Unbeaten(m, [last]) {
          assert !Beats(last, x);
        } else if Beaten(last, front) {
          var w :| w in front && Beats(w, last);
          assert w in a + front;
          MergeCovers(a, front, last);
        }
      }
    }
  }

  // ---------------------------------------------------------------- the closed form

  // y = b[i] is one of the versions the fold adds to a: nothing in either list is strictly
  // after it, and it is the first of its clock in a and then b.
  predicate Fresh(a: seq<Item>, b: seq<Item>, i: nat)
    requires i < |b|
  {
    && !Beaten(b[i], a + b)
    && (forall x :: x in a + b[..i] ==> !Same(x.clock, b[i].clock))
  }

  // The fresh versions among b's first n, in order.
  function FreshUpTo(a: seq<Item>, b: seq<Item>, n: nat): seq<Item>
    requires n <= |b|
  {
    if n == 0 then [] else FreshUpTo(a, b, n - 1) + (if Fresh(a, b, n - 1) then [b[n - 1]] else [])
  }

  /** The fold in closed form: a's versions that b does not beat, in order, and then, in
      order, the first of each clock of b that nothing in a or b beats and a does not hold. */
  lemma {:induction false} MergeClosedForm(a: seq<Item>, b: seq<Item>)
    ensures Merge(a, b) == Unbeaten(a, b) + FreshUpTo(a, b, |b|)
  {
    if b == [] {
      UnbeatenAll(a, b);
      NothingBeside(FreshUpTo(a, b, 0), a);
    } else {
      var front, last := b[..|b| - 1], b[|b| - 1];
      assert b == front + [last];
      MergeClosedForm(a, front);
      ClosedFormStep(a, front, last);
    }
  }

  lemma ClosedFormStep(a: seq<Item>, front: seq<Item>, last: Item)
    requires Merge(a, front) == Unbeaten(a, front) + FreshUpTo(a, front, |front|)
    ensures Resolve(Merge(a, front), last) == Unbeaten(a, front + [last]) + FreshUpTo(a, front + [last], |front| + 1)
  {
    UnbeatenConcat(Unbeaten(a, front), FreshUpTo(a, front, |front|), [last]);
    UnbeatenTwice(a, front, [last]);
    FreshGrows(a, front, last, |front|);
    LastIsFresh(a, front, last);
  }

  lemma {:induction false} FreshGrows(a: seq<Item>, front: seq<Item>, last: Item, n: nat)
    requires n <= |front|
    ensures Unbeaten(FreshUpTo(a, front, n), [last]) == FreshUpTo(a, front + [last], n)
  {
    if n > 0 {
      var i, b := n - 1, front + [last];
      var f := FreshUpTo(a, front, i);
      FreshGrows(a, front, last, i);
      FreshGrowsAt(a, front, last, i);
      assert b[i] == front[i];
      if Fresh(a, front, i) {
        assert FreshUpTo(a, front, n) == f + [front[i]];
        UnbeatenConcat(f, [front[i]], [last]);
        UnbeatenOne(front[i], last);
      } else {
        assert FreshUpTo(a, front, n) == f;
      }
    }
  }

  lemma UnbeatenOne(x: Item, y: Item)
    ensures Unbeaten([x], [y]) == (if Beats(y, x) then [] else [x])
  {
    assert [x][..0] == [];
    assert Beaten(x, [y]) <==> Beats(y, x);
  }

  lemma FreshGrowsAt(a: seq<Item>, front: seq<Item>, last: Item, i: nat)
    requires i < |front|
    ensures Fresh(a, front + [last], i) <==> Fresh(a, front, i) && !Beats(last, front[i])
  {
    var b := front + [last];
    assert a + b == (a + front) + [last];
    assert Beaten(b[i], a + b) <==> Beaten(b[i], a + front) || Beats(last, b[i]);
    assert b[..i] == front[..i];
  }

  lemma LastIsFresh(a: seq<Item>, front: seq<Item>, last: Item)
    ensures Fresh(a, front + [last], |front|) <==> !Covered(last, Merge(a, front))
  {
    var b := front + [last];
    MergeCovers(a, front, last);
    assert b[..|front|] == front;
    assert a + b == (a + front) + [last];
    if Covered(last, a + front) {
      var x :| x in a + front && Covers(x, last);
      assert Same(x.clock, last.clock) || Beats(x, last);
    }
  }

  // ---------------------------------------------------------------- laws of the fold

  lemma ResolveKeepsAntichain(xs: seq<Item>, y: Item)
    requires Antichain(xs)
    ensures Antichain(Resolve(xs, y))
  {
    UnbeatenAntichain(xs, [y]);
    UnbeatenMembers(xs, [y]);
    if !Covered(y, xs) {
      var u := Unbeaten(xs, [y]);
      forall i | 0 <= i < |u| ensures !Covers(u[i], y) && !Covers(y, u[i]) {
        assert u[i] in u;
        assert !Beaten(u[i], [y]);
        assert !Beats(y, u[i]) && u[i] in xs && !Covers(u[i], y);
      }
    }
  }

  lemma {:induction false} UnbeatenAntichain(xs: seq<Item>, over: seq<Item>)
    requires Antichain(xs)
    ensures Antichain(Unbeaten(xs, over))
  {
    if xs != [] {
      var front, last := xs[..|xs| - 1], xs[|xs| - 1];
      UnbeatenAntichain(front, over);
      UnbeatenMembers(front, over);
      var u := Unbeaten(front, over);
      forall i | 0 <= i < |u| ensures !Covers(u[i], last) && !Covers(last, u[i]) {
        assert u[i] in front;
        var k :| 0 <= k < |front| && front[k] == u[i];
        assert xs[k] == u[i];
      }
    }
  }

  lemma {:induction false} MergeKeepsAntichain(a: seq<Item>, b: seq<Item>)
    requires Antichain(a)
    ensures Antichain(Merge(a, b))
  {
    if b != [] {
      MergeKeepsAntichain(a, b[..|b| - 1]);
      ResolveKeepsAntichain(Merge(a, b[..|b| - 1]), b[|b| - 1]);
    }
  }

  // A covered version that beats nothing changes nothing.
  lemma ResolveAbsorbed(xs: seq<Item>, y: Item)
    requires Covered(y, xs)
    requires forall x :: x in xs ==> !Beats(y, x)
    ensures Resolve(xs, y) == xs
  {
    UnbeatenAll(xs, [y]);
  }

  lemma CoveredInAntichain(xs: seq<Item>, y: Item)
    requires Antichain(xs) && Covered(y, xs)
    ensures forall x :: x in xs ==> !Beats(y, x)
  {
    var i :| 0 <= i < |xs| && Covers(xs[i], y);
    forall x | x in xs ensures !Beats(y, x) {
      var j :| 0 <= j < |xs| && xs[j] == x;
      if Beats(y, x) {
        LeqTransitive(x.clock, y.clock, xs[i].clock);
        assert false;
      }
    }
  }

  // Folding versions already covered into an antichain changes nothing, not even the order.
  lemma {:induction false} MergeAbsorbed(a: seq<Item>, b: seq<Item>)
    requires Antichain(a)
    requires forall y :: y in b ==> Covered(y, a)
    ensures Merge(a, b) == a
  {
    if b != [] {
      MergeAbsorbed(a, b[..|b| - 1]);
      CoveredInAntichain(a, b[|b| - 1]);
      ResolveAbsorbed(a, b[|b| - 1]);
    }
  }

  // Two lists that agree except for versions y is strictly after.
  predicate AgreeAbove(y: Item, s: seq<Item>, t: seq<Item>) {
    Unbeaten(s, [y]) == Unbeaten(t, [y])
  }

  lemma AgreeAboveCovers(y: Item, s: seq<Item>, t: seq<Item>, m: Item)
    requires AgreeAbove(y, s, t) && !Beats(y, m) && Covered(m, s)
    ensures Covered(m, t)
  {
    UnbeatenMembers(s, [y]);
    UnbeatenMembers(t, [y]);
    var x :| x in s && Covers(x, m);
    if Beats(y, x) {
      LeqTransitive(m.clock, x.clock, y.clock);
      assert Leq(y.clock, m.clock);
      LeqTransitive(y.clock, m.clock, x.clock);
      assert false;
    }
    assert !Beaten(x, [y]);
    assert x in Unbeaten(s, [y]);
  }

  lemma UnbeatenCommutes(xs: seq<Item>, a: seq<Item>, b: seq<Item>)
    ensures Unbeaten(Unbeaten(xs, a), b) == Unbeaten(Unbeaten(xs, b), a)
  {
    UnbeatenTwice(xs, a, b);
    UnbeatenTwice(xs, b, a);
    UnbeatenSame(xs, a + b, b + a);
  }

  lemma ResolveKeepsAgreement(y: Item, s: seq<Item>, t: seq<Item>, m: Item)
    requires AgreeAbove(y, s, t)
    ensures AgreeAbove(y, Resolve(s, m), Resolve(t, m))
  {
    var tailS := if Covered(m, s) then [] else [m];
    var tailT := if Covered(m, t) then [] else [m];
    UnbeatenConcat(Unbeaten(s, [m]), tailS, [y]);
    UnbeatenConcat(Unbeaten(t, [m]), tailT, [y]);
    UnbeatenCommutes(s, [m], [y]);
    UnbeatenCommutes(t, [m], [y]);
    assert [m][..0] == [];
    if Beats(y, m) {
      assert Beaten(m, [y]);
    } else {
      if Covered(m, s) { AgreeAboveCovers(y, s, t, m); }
      if Covered(m, t) { AgreeAboveCovers(y, t, s, m); }
    }
  }

  // A version y is strictly after leaves no trace above y.
  lemma BeatenLeavesNoTrace(y: Item, s: seq<Item>, m: Item)
    requires Beats(y, m)
    ensures AgreeAbove(y, Resolve(s, m), s)
  {
    var tail := if Covered(m, s) then [] else [m];
    UnbeatenConcat(Unbeaten(s, [m]), tail, [y]);
    UnbeatenTwice(s, [m], [y]);
    assert Beaten(m, [y]);
    assert [m][..0] == [];
    assert Unbeaten(tail, [y]) == [];
    forall x | x in s ensures Beaten(x, [m] + [y]) <==> Beaten(x, [y]) {
      if Beats(m, x) {
        LeqTransitive(x.clock, m.clock, y.clock);
        if Leq(y.clock, x.clock) { LeqTransitive(y.clock, x.clock, m.clock); }
      }
    }
    UnbeatenSame(s, [m] + [y], [y]);
  }

  lemma AgreementResolves(y: Item, s: seq<Item>, t: seq<Item>)
    requires AgreeAbove(y, s, t)
    ensures Resolve(s, y) == Resolve(t, y)
  {
    if Covered(y, s) { AgreeAboveCovers(y, s, t, y); }
    if Covered(y, t) { AgreeAboveCovers(y, t, s, y); }
  }

  lemma {:induction false} DroppingBeatenAgrees(x: seq<Item>, m: seq<Item>, y: Item)
    ensures AgreeAbove(y, Merge(x, Unbeaten(m, [y])), Merge(x, m))
  {
    if m != [] {
      var front, last := m[..|m| - 1], m[|m| - 1];
      DroppingBeatenAgrees(x, front, y);
      var u := Unbeaten(front, [y]);
      if Beaten(last, [y]) {
        assert Unbeaten(m, [y]) == u;
        assert Beats(y, last);
        BeatenLeavesNoTrace(y, Merge(x, front), last);
      } else {
        MergeAppend(x, u, last);
        ResolveKeepsAgreement(y, Merge(x, u), Merge(x, front), last);
      }
    }
  }

  lemma MergeAppend(a: seq<Item>, b: seq<Item>, y: Item)
    ensures Merge(a, b + [y]) == Resolve(Merge(a, b), y)
  {
    assert (b + [y])[..|b|] == b;
  }

  // What is folded in covers y, so y beats nothing that is left.
  lemma CoveredBeatsNothing(x: seq<Item>, m: seq<Item>, w: Item, y: Item)
    requires w in m && Covers(w, y)
    ensures Unbeaten(Merge(x, m), [y]) == Merge(x, m) && Covered(y, Merge(x, m))
  {
    MergeUnbeaten(x, m);
    MergeCovers(x, m, y);
    assert w in x + m;
    forall s | s in Merge(x, m) ensures !Beaten(s, [y]) {
      if Beats(y, s) {
        LeqTransitive(s.clock, y.clock, w.clock);
        if Leq(w.clock, s.clock) { LeqTransitive(y.clock, w.clock, s.clock); }
      }
    }
    UnbeatenAll(Merge(x, m), [y]);
  }

  lemma ResolveCovered(xs: seq<Item>, y: Item)
    requires Covered(y, xs)
    ensures Resolve(xs, y) == Unbeaten(xs, [y])
  {
    NothingBeside([], Unbeaten(xs, [y]));
  }

  lemma MergeResolvedCovered(x: seq<Item>, m: seq<Item>, w: Item, y: Item)
    requires w in m && Covers(w, y)
    ensures Merge(x, Unbeaten(m, [y])) == Merge(x, m)
  {
    var u := Unbeaten(m, [y]);
    DroppingBeatenAgrees(x, m, y);
    UnbeatenMembers(m, [y]);
    assert w in u;
    CoveredBeatsNothing(x, m, w, y);
    CoveredBeatsNothing(x, u, w, y);
  }

  // Folding in a list that was itself resolved is folding in its history.
  lemma MergeResolved(x: seq<Item>, m: seq<Item>, y: Item)
    ensures Merge(x, Resolve(m, y)) == Resolve(Merge(x, m), y)
  {
    if Covered(y, m) {
      var w :| w in m && Covers(w, y);
      MergeResolvedCovered(x, m, w, y);
      ResolveCovered(m, y);
      CoveredBeatsNothing(x, m, w, y);
      ResolveCovered(Merge(x, m), y);
    } else {
      var u := Unbeaten(m, [y]);
      DroppingBeatenAgrees(x, m, y);
      MergeAppend(x, u, y);
      AgreementResolves(y, Merge(x, u), Merge(x, m));
    }
  }

  /** Associativity on exact lists, whatever they hold. */
  lemma {:induction false} MergeAssociative(x: seq<Item>, a: seq<Item>, b: seq<Item>)
    ensures Merge(x, Merge(a, b)) == Merge(Merge(x, a), b)
  {
    if b != [] {
      var front, last := b[..|b| - 1], b[|b| - 1];
      MergeAssociative(x, a, front);
      MergeResolved(x, Merge(a, front), last);
    }
  }

  /** Folding a whole list in equals folding in what the list itself folds to: the law that
      lets a layer, a compaction or a replica be replaced by its own fold. */
  lemma MergeFolded(x: seq<Item>, l: seq<Item>)
    ensures Merge(x, Merge([], l)) == Merge(x, l)
  {
    MergeAssociative(x, [], l);
  }

  // An antichain folds to itself.
  lemma {:induction false} MergeAntichainIsIdentity(a: seq<Item>)
    requires Antichain(a)
    ensures Merge([], a) == a
  {
    if a != [] {
      var front, last := a[..|a| - 1], a[|a| - 1];
      MergeAntichainIsIdentity(front);
      forall x | x in front ensures !Beats(last, x) && !Covers(x, last) {
        var k :| 0 <= k < |front| && front[k] == x;
        assert a[k] == x && a[|a| - 1] == last;
      }
      ResolveApart(front, last);
      assert a == front + [last];
    }
  }

  lemma ResolveApart(xs: seq<Item>, y: Item)
    requires forall x :: x in xs ==> !Beats(y, x) && !Covers(x, y)
    ensures Resolve(xs, y) == xs + [y]
  {
    UnbeatenAll(xs, [y]);
  }

  // ---------------------------------------------------------------- sets of clocks

  // The causal points a list holds.
  function ClockSet(xs: seq<Item>): set<Clock> {
    set x | x in xs :: Normal(x.clock)
  }

  // The points of a list that nothing in it is strictly after.
  function MaximalClocks(xs: seq<Item>): set<Clock> {
    set x | x in xs && !Beaten(x, xs) :: Normal(x.clock)
  }

  // a covers everything in b.
  predicate CoversAll(a: seq<Item>, b: seq<Item>) {
    forall y :: y in b ==> Covered(y, a)
  }

  predicate Subset(a: seq<Item>, b: seq<Item>) {
    forall x :: x in a ==> x in b
  }

  lemma CoveredMonotone(y: Item, z: Item, over: seq<Item>)
    requires Covers(z, y) && Covered(z, over)
    ensures Covered(y, over)
  {
    var x :| x in over && Covers(x, z);
    LeqTransitive(y.clock, z.clock, x.clock);
  }

  lemma MergeCoversBoth(a: seq<Item>, b: seq<Item>)
    ensures CoversAll(Merge(a, b), a + b)
  {
    forall y | y in a + b ensures Covered(y, Merge(a, b)) {
      assert Covers(y, y);
      MergeCovers(a, b, y);
    }
  }

  /** An antichain drawn from a history and covering all of it holds exactly the history's
      maximal clocks. */
  lemma AntichainHoldsMaximal(a: seq<Item>, h: seq<Item>)
    requires Antichain(a) && Subset(a, h) && CoversAll(a, h)
    ensures ClockSet(a) == MaximalClocks(h)
  {
    forall c | c in ClockSet(a) ensures c in MaximalClocks(h) {
      var x :| x in a && c == Normal(x.clock);
      AntichainIsUnbeaten(a, h, x);
    }
    forall c | c in MaximalClocks(h) ensures c in ClockSet(a) {
      var x :| x in h && !Beaten(x, h) && c == Normal(x.clock);
      var z :| z in a && Covers(z, x);
      assert z in h && !Beats(z, x);
      NormalIsCanonical(x.clock, z.clock);
    }
  }

  lemma AntichainIsUnbeaten(a: seq<Item>, h: seq<Item>, x: Item)
    requires Antichain(a) && CoversAll(a, h) && x in a
    ensures !Beaten(x, h)
  {
    forall w | w in h ensures !Beats(w, x) {
      assert Covered(w, a);
      CoveredInAntichain(a, w);
    }
  }

  // On clocks, a fold is the maximal clocks of everything folded.
  lemma MergeHoldsMaximal(a: seq<Item>, b: seq<Item>)
    requires Antichain(a)
    ensures ClockSet(Merge(a, b)) == MaximalClocks(a + b)
  {
    MergeKeepsAntichain(a, b);
    MergeMembers(a, b);
    MergeCoversBoth(a, b);
    AntichainHoldsMaximal(Merge(a, b), a + b);
  }

  // MaximalClocks looks at which versions a list holds, not at their order.
  lemma MaximalIgnoresOrder(a: seq<Item>, b: seq<Item>)
    requires forall x :: x in a <==> x in b
    ensures MaximalClocks(a) == MaximalClocks(b)
  {
    forall x ensures Beaten(x, a) <==> Beaten(x, b) { }
  }

  lemma MergeCommutesOnClocks(a: seq<Item>, b: seq<Item>)
    requires Antichain(a) && Antichain(b)
    ensures ClockSet(Merge(a, b)) == ClockSet(Merge(b, a))
  {
    MergeHoldsMaximal(a, b);
    MergeHoldsMaximal(b, a);
    MaximalIgnoresOrder(a + b, b + a);
  }

  lemma MergeIdempotent(a: seq<Item>)
    requires Antichain(a)
    ensures Merge(a, a) == a
  {
    forall y | y in a ensures Covered(y, a) { assert Covers(y, y); }
    MergeAbsorbed(a, a);
  }

  // ---------------------------------------------------------------- the loops

  // resolve.go's loop, one comparison per existing version.
  method ResolveItems(existing: seq<Item>, incoming: Item) returns (survivors: seq<Item>)
    ensures survivors == Resolve(existing, incoming)
  {
    survivors := [];
    var incomingSurvives := true;
    for i := 0 to |existing|
      invariant survivors == Unbeaten(existing[..i], [incoming])
      invariant incomingSurvives <==> !Covered(incoming, existing[..i])
    {
      var item := existing[i];
      assert existing[..i + 1] == existing[..i] + [item];
      assert existing[..i + 1][..i] == existing[..i];
      assert Covered(incoming, existing[..i + 1]) <==> Covered(incoming, existing[..i]) || Covers(item, incoming);
      assert Beaten(item, [incoming]) <==> Beats(incoming, item);
      var relation := CompareSnapshots(item.clock, incoming.clock);
      match relation {
        case Concurrent => survivors := survivors + [item];
        case After =>
          incomingSurvives := false;
          survivors := survivors + [item];
        case Before =>
        case Equal =>
          survivors := survivors + [item];
          incomingSurvives := false;
      }
    }
    assert existing[..|existing|] == existing;
    if incomingSurvives {
      survivors := survivors + [incoming];
    }
  }

  method MergeSiblings(a: seq<Item>, b: seq<Item>) returns (merged: seq<Item>)
    ensures merged == Merge(a, b)
  {
    merged := a;
    for i := 0 to |b|
      invariant merged == Merge(a, b[..i])
    {
      assert b[..i + 1][..i] == b[..i];
      merged := ResolveItems(merged, b[i]);
    }
    assert b[..|b|] == b;
  }

  // The clock at or above every sibling's, the least such.
  function UnionClock(items: seq<Item>): (u: Clock)
  {
    if items == [] then map[] else Join(UnionClock(items[..|items| - 1]), items[|items| - 1].clock)
  }

  lemma {:induction false} UnionClockIsLeast(items: seq<Item>, c: Clock)
    ensures Leq(UnionClock(items), c) <==> forall x :: x in items ==> Leq(x.clock, c)
  {
    if items != [] {
      var front, last := items[..|items| - 1], items[|items| - 1];
      UnionClockIsLeast(front, c);
      JoinIsLeastUpperBound(UnionClock(front), last.clock, c);
      if Leq(UnionClock(items), c) {
        LeqTransitive(UnionClock(front), UnionClock(items), c);
        LeqTransitive(last.clock, UnionClock(items), c);
      }
      assert items == front + [last];
    }
  }

  // One sibling's entries, raising each counter of u to the maximum.
  method RaiseTo(u: Clock, snapshot: Clock) returns (raised: Clock)
    requires forall n :: n in u ==> u[n] != 0
    ensures forall n :: At(raised, n) == At(Join(u, snapshot), n)
    ensures forall n :: n in raised ==> raised[n] != 0
  {
    raised := u;
    var todo := snapshot.Keys;
    while todo != {}
      invariant todo <= snapshot.Keys
      invariant forall n :: n in todo || n !in snapshot ==> At(raised, n) == At(u, n)
      invariant forall n :: n in snapshot && n !in todo ==> At(raised, n) == At(Join(u, snapshot), n)
      invariant forall n :: n in raised ==> raised[n] != 0
      decreases |todo|
    {
      var node :| node in todo;
      if snapshot[node] > At(raised, node) {
        raised := raised[node := snapshot[node]];
      }
      todo := todo - {node};
    }
  }

  // The outer loop, over the siblings.
  method UnionVectorClock(items: seq<Item>) returns (union: Clock)
    ensures Same(union, UnionClock(items))
    ensures forall n :: n in union ==> union[n] != 0
  {
    union := map[];
    for i := 0 to |items|
      invariant forall n :: At(union, n) == At(UnionClock(items[..i]), n)
      invariant forall n :: n in union ==> union[n] != 0
    {
      ghost var before := union;
      union := RaiseTo(union, items[i].clock);
      assert items[..i + 1][..i] == items[..i];
      forall n ensures At(union, n) == At(UnionClock(items[..i + 1]), n) {
        assert At(union, n) == At(Join(before, items[i].clock), n);
      }
    }
    assert items[..|items|] == items;
    LeqIsPointwise(union, UnionClock(items));
    LeqIsPointwise(UnionClock(items), union);
  }
}
