/**
 Anti-entropy between two replicas: each hashes its data into a Merkle tree, and for the
 buckets that differ each side sends the other the versions it lacks. One run without other
 writes leaves both with the same clocks for every key they share; with other writes going on,
 nothing either side held is ever uncovered.
 */
module AntiEntropy {
  import opened Clocks
  import opened Versions
  import opened Layers
  import M = Merkle
  import N = Numbers

  // ---------------------------------------------------------------- one key

  // The incoming versions nothing in `held` covers, in order.
  function Missing(held: seq<Item>, incoming: seq<Item>): seq<Item> {
    if incoming == [] then []
    else
      var last := incoming[|incoming| - 1];
      Missing(held, incoming[..|incoming| - 1]) + (if Covered(last, held) then [] else [last])
  }

  method MissingFrom(held: seq<Item>, incoming: seq<Item>) returns (missing: seq<Item>)
    ensures missing == Missing(held, incoming)
  {
    missing := [];
    for i := 0 to |incoming|
      invariant missing == Missing(held, incoming[..i])
    {
      var covered := false;
      for j := 0 to |held|
        invariant covered <==> Covered(incoming[i], held[..j])
      {
        var c := CompareSnapshots(held[j].clock, incoming[i].clock);
        assert held[..j + 1] == held[..j] + [held[j]];
        if c == After || c == Equal {
          covered := true;
          assert held[j] in held;
          break;
        }
      }
      assert held[..|held|] == held;
      assert covered <==> Covered(incoming[i], held);
      assert incoming[..i + 1][..i] == incoming[..i];
      if !covered {
        missing := missing + [incoming[i]];
      }
    }
    assert incoming[..|incoming|] == incoming;
  }

  lemma {:induction false} MissingMembers(held: seq<Item>, incoming: seq<Item>)
    ensures forall x :: x in Missing(held, incoming) <==> x in incoming && !Covered(x, held)
  {
    if incoming != [] {
      MissingMembers(held, incoming[..|incoming| - 1]);
      assert incoming == incoming[..|incoming| - 1] + [incoming[|incoming| - 1]];
    }
  }

  // Nothing is missing exactly when everything is covered.
  lemma NothingMissingIff(held: seq<Item>, incoming: seq<Item>)
    ensures Missing(held, incoming) == [] <==> CoversAll(held, incoming)
  {
    MissingMembers(held, incoming);
    if Missing(held, incoming) != [] {
      assert Missing(held, incoming)[0] in Missing(held, incoming);
    }
  }

  // What a store reads for a key after merging some versions into it, in whatever layers: a
  // sibling set of the old and new versions that covers them all.
  ghost predicate Absorbs(before: seq<Item>, items: seq<Item>, after: seq<Item>) {
    Antichain(after) && Subset(after, before + items) && CoversAll(after, before + items)
  }

  lemma AbsorbsNothing(held: seq<Item>)
    requires Antichain(held)
    ensures Absorbs(held, [], held)
  {
    assert held + [] == held;
    forall y | y in held ensures Covered(y, held) { assert Covers(y, y); }
  }

  lemma AbsorbsMore(a: seq<Item>, xs: seq<Item>, b: seq<Item>, ys: seq<Item>, c: seq<Item>)
    requires Absorbs(a, xs, b) && Absorbs(b, ys, c)
    ensures Absorbs(a, xs + ys, c)
  {
    forall z | z in c ensures z in a + (xs + ys) {
      assert z in b + ys;
      if z in b { assert z in a + xs; }
    }
    forall y | y in a + (xs + ys) ensures Covered(y, c) {
      if y in a + xs {
        var x :| x in b && Covers(x, y);
        assert x in b + ys;
        CoveredMonotone(y, x, c);
      } else {
        assert y in b + ys;
      }
    }
  }

  /** One key, both ways, whatever else is written to either side after its set was read: each
      side ends up covering everything both held. */
  lemma ExchangeCoversBoth(a: seq<Item>, b: seq<Item>, toA: seq<Item>, a': seq<Item>)
    requires Absorbs(a, toA, a') && Subset(Missing(a, b), toA)
    ensures CoversAll(a', a + b)
  {
    MissingMembers(a, b);
    forall y | y in a + b ensures Covered(y, a') {
      if y in a {
        assert y in a + toA;
      } else if Covered(y, a) {
        var x :| x in a && Covers(x, y);
        assert x in a + toA;
        CoveredMonotone(y, x, a');
      } else {
        assert y in Missing(a, b);
        assert y in a + toA;
      }
    }
  }

  // With nothing else written, a side ends with exactly the maximal clocks of the union.
  lemma ExchangeIsMaximal(a: seq<Item>, b: seq<Item>, a': seq<Item>)
    requires Absorbs(a, Missing(a, b), a')
    ensures ClockSet(a') == MaximalClocks(a + b)
  {
    ExchangeCoversBoth(a, b, Missing(a, b), a');
    MissingMembers(a, b);
    forall x | x in a' ensures x in a + b {
      assert x in a + Missing(a, b);
    }
    AntichainHoldsMaximal(a', a + b);
  }

  // ---------------------------------------------------------------- what a bucket's hash sees

  // A version without its identity in memory.
  datatype Face = Face(clock: Clock, value: string, updatedBy: string, deleted: bool)

  function FaceOf(x: Item): Face {
    Face(x.clock, x.value, x.updatedBy, x.deleted)
  }

  // A key's siblings in canonical order, as a multiset.
  function View(items: seq<Item>): multiset<Face> {
    if items == [] then multiset{} else View(items[..|items| - 1]) + multiset{FaceOf(items[|items| - 1])}
  }

  lemma {:induction false} ViewMembers(items: seq<Item>, f: Face)
    ensures f in View(items) <==> exists x :: x in items && FaceOf(x) == f
  {
    if items != [] {
      ViewMembers(items[..|items| - 1], f);
      assert items == items[..|items| - 1] + [items[|items| - 1]];
    }
  }

  // Both hold a version with the same clock, value, writer and tombstone, or neither does.
  ghost predicate BothHold(a: seq<Item>, b: seq<Item>, x: Item) {
    (exists y :: y in a && SameVersion(x, y)) <==> (exists y :: y in b && SameVersion(x, y))
  }

  predicate SameVersion(x: Item, y: Item) {
    x.clock == y.clock && x.value == y.value && x.updatedBy == y.updatedBy && x.deleted == y.deleted
  }

  /** Sets that look the same hold the same versions, down to their values. */
  lemma SameViewSameVersions(a: seq<Item>, b: seq<Item>, x: Item)
    requires View(a) == View(b)
    ensures |a| == |b| && BothHold(a, b, x)
  {
    ViewMembers(a, FaceOf(x));
    ViewMembers(b, FaceOf(x));
    ViewSize(a);
    ViewSize(b);
    if y :| y in a && SameVersion(x, y) { assert FaceOf(y) == FaceOf(x); }
    if y :| y in b && SameVersion(x, y) { assert FaceOf(y) == FaceOf(x); }
    if FaceOf(x) in View(a) {
      var y :| y in a && FaceOf(y) == FaceOf(x);
      var z :| z in b && FaceOf(z) == FaceOf(x);
      assert SameVersion(x, y) && SameVersion(x, z);
    }
  }

  lemma {:induction false} ViewSize(items: seq<Item>)
    ensures |View(items)| == |items|
  {
    if items != [] { ViewSize(items[..|items| - 1]); }
  }

  // Siblings that look the same cover the same.
  lemma SameViewCovers(a: seq<Item>, b: seq<Item>)
    requires View(a) == View(b)
    ensures CoversAll(a, b)
  {
    forall y | y in b ensures Covered(y, a) {
      ViewMembers(b, FaceOf(y));
      ViewMembers(a, FaceOf(y));
      var x :| x in a && FaceOf(x) == FaceOf(y);
      assert Covers(x, y);
    }
  }

  function BucketView(data: Layer, bucketFor: string -> nat, b: nat): map<string, multiset<Face>> {
    map k | k in data && bucketFor(k) == b :: View(data[k])
  }

  function Leaves<H>(data: Layer, bucketFor: string -> nat, buckets: nat, hash: map<string, multiset<Face>> -> H): seq<H> {
    seq(buckets, b requires 0 <= b < buckets => hash(BucketView(data, bucketFor, b)))
  }

  ghost predicate Injective<H(!new)>(hash: map<string, multiset<Face>> -> H) {
    forall a, b :: hash(a) == hash(b) ==> a == b
  }

  // Sets that look the same already hold the maximal clocks of their union.
  lemma SameViewIsMaximal(a: seq<Item>, b: seq<Item>)
    requires View(a) == View(b) && Antichain(a)
    ensures ClockSet(a) == MaximalClocks(a + b)
  {
    SameViewCovers(a, b);
    forall y | y in a + b ensures Covered(y, a) {
      if y in a { assert Covers(y, y); }
    }
    AntichainHoldsMaximal(a, a + b);
  }

  // ---------------------------------------------------------------- two replicas

  class Replica {
    var data: Layer

    // Merges one version, by the path an incoming replication takes.
    method MergeReplicated(key: string, item: Item)
      requires Siblings(data)
      modifies this
      ensures Siblings(data) && Absorbs(Look(old(data), key), [item], Look(data, key))
      ensures forall k :: k != key ==> Look(data, k) == Look(old(data), k)
    {
      var held := Look(data, key);
      PutItemsAntichain(held, item);
      PutItemsMembers(held, item);
      UnbeatenMembers(held, [item]);
      forall y ensures Covered(y, held + [item]) ==> Covered(y, PutItems(held, item)) { PutItemsCovers(held, item, y); }
      AbsorbsOne(held, item, PutItems(held, item));
      data := PutLayer(data, key, item);
    }

    method MergeAll(key: string, items: seq<Item>)
      requires Siblings(data)
      modifies this
      ensures Siblings(data) && Absorbs(Look(old(data), key), items, Look(data, key))
      ensures forall k :: k != key ==> Look(data, k) == Look(old(data), k)
    {
      AbsorbsNothing(Look(data, key));
      for i := 0 to |items|
        invariant Siblings(data) && Absorbs(Look(old(data), key), items[..i], Look(data, key))
        invariant forall k :: k != key ==> Look(data, k) == Look(old(data), k)
      {
        ghost var before := Look(data, key);
        MergeReplicated(key, items[i]);
        AbsorbsMore(Look(old(data), key), items[..i], before, [items[i]], Look(data, key));
        assert items[..i + 1] == items[..i] + [items[i]];
      }
      assert items[..|items|] == items;
    }
  }

  // A set that holds only old and new versions, and covers them one by one, absorbs them.
  lemma AbsorbsOne(before: seq<Item>, item: Item, after: seq<Item>)
    requires Antichain(after) && forall x :: x in after ==> x in before || x == item
    requires forall y :: Covered(y, before + [item]) ==> Covered(y, after)
    ensures Absorbs(before, [item], after)
  {
    forall y | y in before + [item] ensures Covered(y, after) {
      assert Covers(y, y);
      assert Covered(y, before + [item]);
    }
  }

  // ---------------------------------------------------------------- a run

  // Each side merged what it lacked of the other's.
  ghost predicate Exchanged(a: seq<Item>, b: seq<Item>, a': seq<Item>, b': seq<Item>) {
    Absorbs(a, Missing(a, b), a') && Absorbs(b, Missing(b, a), b')
  }

  // Neither side lacks anything the other holds.
  ghost predicate InSync(a: seq<Item>, b: seq<Item>) {
    CoversAll(a, b) && CoversAll(b, a)
  }

  method ReconcileKey(local: Replica, remote: Replica, key: string) returns (sent: bool)
    requires local != remote && Siblings(local.data) && Siblings(remote.data)
    modifies local, remote
    ensures Siblings(local.data) && Siblings(remote.data)
    ensures Exchanged(Look(old(local.data), key), Look(old(remote.data), key), Look(local.data, key), Look(remote.data, key))
    ensures forall k :: k != key ==> Look(local.data, k) == Look(old(local.data), k)
    ensures forall k :: k != key ==> Look(remote.data, k) == Look(old(remote.data), k)
    ensures sent <==> !InSync(Look(old(local.data), key), Look(old(remote.data), key))
  {
    var localItems, remoteItems := Look(local.data, key), Look(remote.data, key);
    NothingMissingIff(localItems, remoteItems);
    NothingMissingIff(remoteItems, localItems);
    var toPull := MissingFrom(localItems, remoteItems);
    local.MergeAll(key, toPull);
    var toPush := MissingFrom(remoteItems, localItems);
    remote.MergeAll(key, toPush);
    sent := |toPull| > 0 || |toPush| > 0;
  }

  // Keys `done` have been exchanged, and no other key has changed.
  ghost predicate Progress(l: Layer, r: Layer, done: iset<string>, l': Layer, r': Layer) {
    && Siblings(l') && Siblings(r')
    && (forall k :: k in done ==> Exchanged(Look(l, k), Look(r, k), Look(l', k), Look(r', k)))
    && (forall k :: k !in done ==> Look(l', k) == Look(l, k) && Look(r', k) == Look(r, k))
  }

  ghost function InBucket(bucketFor: string -> nat, shares: string -> bool, b: nat): iset<string> {
    iset k | bucketFor(k) == b && shares(k)
  }

  lemma OneMoreKey(l: Layer, r: Layer, done: iset<string>, l1: Layer, r1: Layer, key: string, l2: Layer, r2: Layer)
    requires Progress(l, r, done, l1, r1) && key !in done && Siblings(l2) && Siblings(r2)
    requires Exchanged(Look(l1, key), Look(r1, key), Look(l2, key), Look(r2, key))
    requires forall k :: k != key ==> Look(l2, k) == Look(l1, k)
    requires forall k :: k != key ==> Look(r2, k) == Look(r1, k)
    ensures Progress(l, r, done + iset{key}, l2, r2)
  {
  }

  method ReconcileNext(local: Replica, remote: Replica, key: string, ghost l: Layer, ghost r: Layer, ghost done: iset<string>)
    returns (sent: bool)
    requires local != remote && Progress(l, r, done, local.data, remote.data) && key !in done
    modifies local, remote
    ensures Progress(l, r, done + iset{key}, local.data, remote.data)
    ensures sent <==> !InSync(Look(l, key), Look(r, key))
  {
    ghost var l1, r1 := local.data, remote.data;
    sent := ReconcileKey(local, remote, key);
    OneMoreKey(l, r, done, l1, r1, key, local.data, remote.data);
  }

  ghost predicate OutOfSync(l: Layer, r: Layer, k: string) {
    !InSync(Look(l, k), Look(r, k))
  }

  // The keys either side holds in a bucket that both replicate, one after another.
  method ReconcileKeys(local: Replica, remote: Replica, keys: set<string>, ghost l: Layer, ghost r: Layer, ghost done: iset<string>)
    returns (sent: set<string>)
    requires local != remote && Progress(l, r, done, local.data, remote.data) && forall k :: k in keys ==> k !in done
    modifies local, remote
    ensures Progress(l, r, done + Infinite(keys), local.data, remote.data)
    ensures sent <= keys && forall k :: k in sent ==> OutOfSync(l, r, k)
  {
    var todo := keys;
    sent := {};
    assert done + Infinite(keys - todo) == done;
    while todo != {}
      invariant todo <= keys && Progress(l, r, done + Infinite(keys - todo), local.data, remote.data)
      invariant sent <= keys && forall k :: k in sent ==> OutOfSync(l, r, k)
      decreases |todo|
    {
      var key :| key in todo;
      OneKeyLess(done, keys, todo, key);
      var moved := ReconcileNext(local, remote, key, l, r, done + Infinite(keys - todo));
      if moved { sent := sent + {key}; }
      todo := todo - {key};
    }
    assert keys - todo == keys;
  }

  lemma OneKeyLess(done: iset<string>, keys: set<string>, todo: set<string>, key: string)
    requires key in todo && todo <= keys && key !in done
    ensures key !in done + Infinite(keys - todo)
    ensures done + Infinite(keys - (todo - {key})) == done + Infinite(keys - todo) + iset{key}
  {
  }

  ghost function Infinite(s: set<string>): iset<string> {
    iset k | k in s
  }

  method ReconcileBucket(local: Replica, remote: Replica, bucketFor: string -> nat, shares: string -> bool, b: nat,
                         ghost l: Layer, ghost r: Layer, ghost done: iset<string>)
    returns (sent: set<string>)
    requires local != remote && Progress(l, r, done, local.data, remote.data) && done !! InBucket(bucketFor, shares, b)
    modifies local, remote
    ensures Progress(l, r, done + InBucket(bucketFor, shares, b), local.data, remote.data)
    ensures forall k :: k in sent ==> shares(k) && !InSync(Look(l, k), Look(r, k))
  {
    ghost var l1, r1 := local.data, remote.data;
    var keys := set k | k in local.data.Keys + remote.data.Keys && bucketFor(k) == b && shares(k);
    sent := ReconcileKeys(local, remote, keys, l, r, done);
    BucketDone(l, r, done, l1, r1, keys, InBucket(bucketFor, shares, b), local.data, remote.data);
  }

  lemma BucketDone(l: Layer, r: Layer, done: iset<string>, l1: Layer, r1: Layer, keys: set<string>,
                   bucket: iset<string>, l2: Layer, r2: Layer)
    requires Progress(l, r, done, l1, r1) && Progress(l, r, done + Infinite(keys), l2, r2) && done !! bucket
    requires forall k :: k in keys ==> k in bucket
    requires forall k :: k in bucket && (k in l1 || k in r1) ==> k in keys
    ensures Progress(l, r, done + bucket, l2, r2)
  {
    forall k | k in bucket && k !in keys ensures Exchanged(Look(l, k), Look(r, k), Look(l2, k), Look(r2, k)) {
      assert Look(l1, k) == [] && Look(r1, k) == [];
      AbsorbsNothing([]);
    }
  }

  const NUM_BUCKETS: nat := 16

  // The keys of the first n divergent buckets.
  ghost function InBuckets(bucketFor: string -> nat, shares: string -> bool, bs: seq<nat>): iset<string> {
    iset k | bucketFor(k) in bs && shares(k)
  }

  lemma NextBucket(bucketFor: string -> nat, shares: string -> bool, bs: seq<nat>, i: nat)
    requires i < |bs| && bs[i] !in bs[..i]
    ensures InBuckets(bucketFor, shares, bs[..i + 1]) == InBuckets(bucketFor, shares, bs[..i]) + InBucket(bucketFor, shares, bs[i])
    ensures InBuckets(bucketFor, shares, bs[..i]) !! InBucket(bucketFor, shares, bs[i])
  {
    assert bs[..i + 1] == bs[..i] + [bs[i]];
  }

  // A key of a bucket whose hashes agree looks the same on both sides.
  lemma SameLeafSameView<H(!new)>(l: Layer, r: Layer, bucketFor: string -> nat, hash: map<string, multiset<Face>> -> H, k: string)
    requires Injective(hash)
    requires hash(BucketView(l, bucketFor, bucketFor(k))) == hash(BucketView(r, bucketFor, bucketFor(k)))
    ensures View(Look(l, k)) == View(Look(r, k))
    ensures forall x :: BothHold(Look(l, k), Look(r, k), x)
  {
    var a, b := BucketView(l, bucketFor, bucketFor(k)), BucketView(r, bucketFor, bucketFor(k));
    assert a == b;
    assert (k in l <==> k in a) && (k in r <==> k in b);
    if k in l { assert a[k] == b[k]; }
    forall x ensures BothHold(Look(l, k), Look(r, k), x) { SameViewSameVersions(Look(l, k), Look(r, k), x); }
  }

  lemma ExchangedIsMaximal(a: seq<Item>, b: seq<Item>, a': seq<Item>, b': seq<Item>)
    requires Exchanged(a, b, a', b')
    ensures ClockSet(a') == MaximalClocks(a + b) == ClockSet(b')
  {
    ExchangeIsMaximal(a, b, a');
    ExchangeIsMaximal(b, a, b');
    MaximalIgnoresOrder(a + b, b + a);
  }

  lemma UntouchedIsMaximal(a: seq<Item>, b: seq<Item>)
    requires View(a) == View(b) && Antichain(a) && Antichain(b)
    ensures ClockSet(a) == MaximalClocks(a + b) == ClockSet(b)
  {
    SameViewIsMaximal(a, b);
    SameViewIsMaximal(b, a);
    MaximalIgnoresOrder(a + b, b + a);
  }

  // The buckets whose contents look different.
  method FindDivergent<H(!new, 0, ==)>(l: Layer, r: Layer, bucketFor: string -> nat,
                                       hash: map<string, multiset<Face>> -> H, combine: (H, H) -> H)
    returns (diverged: seq<nat>)
    requires M.CollisionFree(combine)
    ensures N.Ascending(diverged)
    ensures forall b :: b in diverged <==>
              0 <= b < NUM_BUCKETS && hash(BucketView(l, bucketFor, b)) != hash(BucketView(r, bucketFor, b))
  {
    assert M.Pow2(2 * 2) == NUM_BUCKETS;
    var leavesL, leavesR := Leaves(l, bucketFor, NUM_BUCKETS, hash), Leaves(r, bucketFor, NUM_BUCKETS, hash);
    var local := M.Build(leavesL, combine);
    var remote := M.Build(leavesR, combine);
    diverged := M.DivergentBuckets(local[..], remote[..], NUM_BUCKETS, combine);
    forall b | 0 <= b < NUM_BUCKETS
      ensures local[M.LeafIndex(b, NUM_BUCKETS)] == leavesL[b] && remote[M.LeafIndex(b, NUM_BUCKETS)] == leavesR[b]
    {
      assert local[M.LeafIndex(b, NUM_BUCKETS)] == local[NUM_BUCKETS - 1..][b];
      assert remote[M.LeafIndex(b, NUM_BUCKETS)] == remote[NUM_BUCKETS - 1..][b];
    }
  }

  // Both sides hold the same clocks for key: the maximal ones of what they held before.
  ghost predicate Converged(l: Layer, r: Layer, l': Layer, r': Layer, k: string) {
    ClockSet(Look(l', k)) == MaximalClocks(Look(l, k) + Look(r, k)) == ClockSet(Look(r', k))
  }

  lemma AllConverge<H(!new)>(l: Layer, r: Layer, l': Layer, r': Layer, bucketFor: string -> nat, shares: string -> bool,
                             hash: map<string, multiset<Face>> -> H, diverged: seq<nat>, k: string)
    requires Siblings(l) && Siblings(r) && Injective(hash) && shares(k) && bucketFor(k) < NUM_BUCKETS
    requires forall b :: b in diverged <==>
               0 <= b < NUM_BUCKETS && hash(BucketView(l, bucketFor, b)) != hash(BucketView(r, bucketFor, b))
    requires Progress(l, r, InBuckets(bucketFor, shares, diverged), l', r')
    ensures Converged(l, r, l', r', k)
  {
    if bucketFor(k) in diverged {
      assert k in InBuckets(bucketFor, shares, diverged);
      ExchangedIsMaximal(Look(l, k), Look(r, k), Look(l', k), Look(r', k));
    } else {
      SameLeafSameView(l, r, bucketFor, hash, k);
      UntouchedIsMaximal(Look(l, k), Look(r, k));
    }
  }

  /** One run with no other writes: every key both replicate has the same clocks on both sides,
      the maximal ones of the union; other keys are untouched; and nothing is sent for a key
      neither side lacks anything of. */
  method RunAntiEntropy<H(!new, 0, ==)>(local: Replica, remote: Replica, bucketFor: string -> nat, shares: string -> bool,
                                        hash: map<string, multiset<Face>> -> H, combine: (H, H) -> H)
    returns (sent: set<string>)
    requires local != remote && Siblings(local.data) && Siblings(remote.data)
    requires Injective(hash) && M.CollisionFree(combine) && forall k :: bucketFor(k) < NUM_BUCKETS
    modifies local, remote
    ensures forall k :: shares(k) ==> Converged(old(local.data), old(remote.data), local.data, remote.data, k)
    ensures forall k :: !shares(k) ==> Look(local.data, k) == Look(old(local.data), k)
                                       && Look(remote.data, k) == Look(old(remote.data), k)
    ensures forall k :: k in sent ==> shares(k) && !InSync(Look(old(local.data), k), Look(old(remote.data), k))
  {
    var l, r := local.data, remote.data;
    var diverged := FindDivergent(l, r, bucketFor, hash, combine);
    sent := {};
    ghost var done := InBuckets(bucketFor, shares, []);
    for i := 0 to |diverged|
      invariant done == InBuckets(bucketFor, shares, diverged[..i])
      invariant Progress(l, r, done, local.data, remote.data)
      invariant forall k :: k in sent ==> shares(k) && !InSync(Look(l, k), Look(r, k))
    {
      NextBucket(bucketFor, shares, diverged, i);
      var more := ReconcileBucket(local, remote, bucketFor, shares, diverged[i], l, r, done);
      done := InBuckets(bucketFor, shares, diverged[..i + 1]);
      sent := sent + more;
    }
    assert diverged[..|diverged|] == diverged;
    forall k | shares(k) ensures Converged(l, r, local.data, remote.data, k) {
      AllConverge(l, r, local.data, remote.data, bucketFor, shares, hash, diverged, k);
    }
  }
}
