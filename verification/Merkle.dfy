/**
 Merkle trees over hash buckets, heap-indexed in one array: the children of node i are nodes
 2i+1 and 2i+2, and the last `buckets` nodes are the leaves, in bucket order. With hashes that
 do not collide, a walk that descends only where hashes differ finds exactly the buckets whose
 leaves differ, in ascending order.
 */
module Merkle {
  import opened Numbers
  import opened Sequences

  function Pow2(n: nat): (p: nat)
    ensures p >= 1
  {
    if n == 0 then 1 else 2 * Pow2(n - 1)
  }

  // The bucket counts a tree can have: 4^k.
  ghost predicate ValidBucketCount(buckets: nat) {
    exists k: nat :: buckets == Pow2(2 * k)
  }

  function LeafIndex(bucket: nat, buckets: nat): nat
    requires buckets >= 1
  {
    buckets - 1 + bucket
  }

  // Node i is the hash of its two children.
  ghost predicate Hashed<H>(nodes: seq<H>, i: nat, combine: (H, H) -> H)
    requires 2 * i + 2 < |nodes|
  {
    nodes[i] == combine(nodes[2 * i + 1], nodes[2 * i + 2])
  }

  ghost predicate IsTree<H>(nodes: seq<H>, buckets: nat, combine: (H, H) -> H) {
    && buckets >= 1 && |nodes| == 2 * buckets - 1
    && forall i: nat :: i < buckets - 1 ==> Hashed(nodes, i, combine)
  }

  ghost predicate CollisionFree<H(!new)>(combine: (H, H) -> H) {
    forall a, b, c, d {:trigger combine(a, b), combine(c, d)} :: combine(a, b) == combine(c, d) ==> a == c && b == d
  }

  // The inner levels, from the bottom up to the root.
  method FillInner<H>(nodes: array<H>, buckets: nat, combine: (H, H) -> H)
    requires buckets >= 1 && nodes.Length == 2 * buckets - 1
    modifies nodes
    ensures IsTree(nodes[..], buckets, combine) && nodes[buckets - 1..] == old(nodes[buckets - 1..])
  {
    for i := buckets - 1 downto 0
      invariant nodes[buckets - 1..] == old(nodes[buckets - 1..])
      invariant forall j :: i <= j < buckets - 1 ==> nodes[j] == combine(nodes[2 * j + 1], nodes[2 * j + 2])
    {
      nodes[i] := combine(nodes[2 * i + 1], nodes[2 * i + 2]);
    }
    assert forall i: nat :: i < buckets - 1 ==> Hashed(nodes[..], i, combine);
  }

  /** Leaves first, then the inner levels over them. */
  method Build<H(0)>(leaves: seq<H>, combine: (H, H) -> H) returns (nodes: array<H>)
    requires ValidBucketCount(|leaves|)
    ensures fresh(nodes) && IsTree(nodes[..], |leaves|, combine) && nodes[|leaves| - 1..] == leaves
  {
    var buckets := |leaves|;
    assert buckets >= 1;
    nodes := new H[2 * buckets - 1];
    for b := 0 to buckets
      invariant nodes[buckets - 1..buckets - 1 + b] == leaves[..b]
    {
      nodes[LeafIndex(b, buckets)] := leaves[b];
    }
    assert nodes[buckets - 1..] == nodes[buckets - 1..buckets - 1 + buckets];
    assert leaves[..buckets] == leaves;
    FillInner(nodes, buckets, combine);
  }

  // ---------------------------------------------------------------- subtrees

  // The index of the leftmost leaf under node i, when its leaves are h levels down.
  function FirstLeaf(i: nat, h: nat): (f: nat)
    ensures f >= i
    decreases h
  {
    if h == 0 then i else FirstLeaf(2 * i + 1, h - 1)
  }

  lemma {:induction false} NextSubtree(i: nat, h: nat)
    ensures FirstLeaf(i + 1, h) == FirstLeaf(i, h) + Pow2(h)
    decreases h
  {
    if h > 0 {
      NextSubtree(2 * i + 1, h - 1);
      NextSubtree(2 * i + 2, h - 1);
    }
  }

  // The tree's leaves are the leaves under its root.
  lemma {:induction false} RootHasAllLeaves(h: nat)
    ensures FirstLeaf(0, h) == Pow2(h) - 1
  {
    if h > 0 {
      RootHasAllLeaves(h - 1);
      NextSubtree(0, h - 1);
    }
  }

  // Node i's leaves, h levels down, are leaves of a tree of `buckets`.
  ghost predicate Within(i: nat, h: nat, buckets: nat) {
    buckets >= 1 && buckets - 1 <= FirstLeaf(i, h) && FirstLeaf(i, h) + Pow2(h) <= 2 * buckets - 1
  }

  lemma ChildrenWithin(i: nat, h: nat, buckets: nat)
    requires Within(i, h, buckets) && h > 0
    ensures Within(2 * i + 1, h - 1, buckets) && Within(2 * i + 2, h - 1, buckets)
    ensures FirstLeaf(2 * i + 1, h - 1) == FirstLeaf(i, h)
    ensures FirstLeaf(2 * i + 2, h - 1) == FirstLeaf(i, h) + Pow2(h - 1)
    ensures i < buckets - 1
  {
    NextSubtree(2 * i + 1, h - 1);
  }

  // ---------------------------------------------------------------- where two trees differ

  // The buckets whose leaves, at indices from lo to below hi, differ.
  function Differing<H(==)>(local: seq<H>, remote: seq<H>, buckets: nat, lo: nat, hi: nat): seq<nat>
    requires buckets >= 1 && buckets - 1 <= lo && hi <= |local| && hi <= |remote|
  {
    if hi <= lo then []
    else Differing(local, remote, buckets, lo, hi - 1)
         + (if local[hi - 1] != remote[hi - 1] then [hi - 1 - (buckets - 1)] else [])
  }

  lemma {:induction false} DifferingSplit<H>(local: seq<H>, remote: seq<H>, buckets: nat, lo: nat, mid: nat, hi: nat)
    requires buckets >= 1 && buckets - 1 <= lo <= mid <= hi <= |local| && hi <= |remote|
    ensures Differing(local, remote, buckets, lo, hi)
         == Differing(local, remote, buckets, lo, mid) + Differing(local, remote, buckets, mid, hi)
  {
    if mid < hi { DifferingSplit(local, remote, buckets, lo, mid, hi - 1); }
  }

  lemma {:induction false} DifferingNone<H>(local: seq<H>, remote: seq<H>, buckets: nat, lo: nat, hi: nat)
    requires buckets >= 1 && buckets - 1 <= lo && hi <= |local| && hi <= |remote|
    requires forall j :: lo <= j < hi ==> local[j] == remote[j]
    ensures Differing(local, remote, buckets, lo, hi) == []
  {
    if lo < hi { DifferingNone(local, remote, buckets, lo, hi - 1); }
  }

  // What Differing lists: every bucket in range whose leaves differ, once, ascending.
  lemma {:induction false} DifferingIsExact<H>(local: seq<H>, remote: seq<H>, buckets: nat, lo: nat, hi: nat)
    requires buckets >= 1 && buckets - 1 <= lo && hi <= |local| && hi <= |remote|
    ensures Ascending(Differing(local, remote, buckets, lo, hi))
    ensures forall b: nat :: b in Differing(local, remote, buckets, lo, hi) <==>
              lo <= LeafIndex(b, buckets) < hi && local[LeafIndex(b, buckets)] != remote[LeafIndex(b, buckets)]
  {
    DifferingAscends(local, remote, buckets, lo, hi);
    forall b: nat
      ensures b in Differing(local, remote, buckets, lo, hi) <==>
                lo <= LeafIndex(b, buckets) < hi && local[LeafIndex(b, buckets)] != remote[LeafIndex(b, buckets)]
    {
      DifferingHolds(local, remote, buckets, lo, hi, b);
    }
  }

  lemma {:induction false} DifferingAscends<H>(local: seq<H>, remote: seq<H>, buckets: nat, lo: nat, hi: nat)
    requires buckets >= 1 && buckets - 1 <= lo && hi <= |local| && hi <= |remote|
    ensures var d := Differing(local, remote, buckets, lo, hi); Ascending(d) && forall i :: 0 <= i < |d| ==> d[i] < hi - (buckets - 1)
  {
    if lo < hi { DifferingAscends(local, remote, buckets, lo, hi - 1); }
  }

  lemma {:induction false} DifferingHolds<H>(local: seq<H>, remote: seq<H>, buckets: nat, lo: nat, hi: nat, b: nat)
    requires buckets >= 1 && buckets - 1 <= lo && hi <= |local| && hi <= |remote|
    ensures b in Differing(local, remote, buckets, lo, hi) <==>
              lo <= LeafIndex(b, buckets) < hi && local[LeafIndex(b, buckets)] != remote[LeafIndex(b, buckets)]
  {
    if lo < hi { DifferingHolds(local, remote, buckets, lo, hi - 1, b); }
  }

  // Equal hashes, equal leaves.
  lemma {:induction false} EqualSubtrees<H(!new)>(local: seq<H>, remote: seq<H>, buckets: nat, combine: (H, H) -> H, i: nat, h: nat)
    requires IsTree(local, buckets, combine) && IsTree(remote, buckets, combine) && CollisionFree(combine)
    requires Within(i, h, buckets) && local[i] == remote[i]
    ensures forall j :: FirstLeaf(i, h) <= j < FirstLeaf(i, h) + Pow2(h) ==> local[j] == remote[j]
    decreases h
  {
    if h > 0 {
      ChildrenWithin(i, h, buckets);
      var l, r := 2 * i + 1, 2 * i + 2;
      assert Hashed(local, i, combine) && Hashed(remote, i, combine);
      EqualSubtrees(local, remote, buckets, combine, l, h - 1);
      EqualSubtrees(local, remote, buckets, combine, r, h - 1);
    }
  }

  // The differing buckets among node i's leaves, h levels down.
  function Below<H(==)>(local: seq<H>, remote: seq<H>, buckets: nat, i: nat, h: nat): seq<nat>
    requires buckets >= 1 && buckets - 1 <= FirstLeaf(i, h)
    requires FirstLeaf(i, h) + Pow2(h) <= |local| && FirstLeaf(i, h) + Pow2(h) <= |remote|
  {
    Differing(local, remote, buckets, FirstLeaf(i, h), FirstLeaf(i, h) + Pow2(h))
  }

  lemma NothingBelow<H(!new)>(local: seq<H>, remote: seq<H>, buckets: nat, combine: (H, H) -> H, i: nat, h: nat)
    requires IsTree(local, buckets, combine) && IsTree(remote, buckets, combine) && CollisionFree(combine)
    requires Within(i, h, buckets) && local[i] == remote[i]
    ensures Below(local, remote, buckets, i, h) == []
  {
    EqualSubtrees(local, remote, buckets, combine, i, h);
    DifferingNone(local, remote, buckets, FirstLeaf(i, h), FirstLeaf(i, h) + Pow2(h));
  }

  lemma LeafBelow<H>(local: seq<H>, remote: seq<H>, buckets: nat, i: nat)
    requires Within(i, 0, buckets) && |local| == |remote| == 2 * buckets - 1 && local[i] != remote[i]
    ensures Below(local, remote, buckets, i, 0) == [i - (buckets - 1)]
  {
    assert Differing(local, remote, buckets, i, i) == [];
  }

  lemma ChildrenBelow<H>(local: seq<H>, remote: seq<H>, buckets: nat, i: nat, h: nat)
    requires Within(i, h, buckets) && h > 0 && |local| == |remote| == 2 * buckets - 1
    ensures Within(2 * i + 1, h - 1, buckets) && Within(2 * i + 2, h - 1, buckets)
    ensures Below(local, remote, buckets, i, h)
         == Below(local, remote, buckets, 2 * i + 1, h - 1) + Below(local, remote, buckets, 2 * i + 2, h - 1)
  {
    ChildrenWithin(i, h, buckets);
    var lo := FirstLeaf(i, h);
    DifferingSplit(local, remote, buckets, lo, lo + Pow2(h - 1), lo + Pow2(h));
  }

  // The recursive step, which appends what it finds to diverged.
  method Walk<H(!new, ==)>(local: seq<H>, remote: seq<H>, buckets: nat, i: nat, diverged: seq<nat>,
                           ghost h: nat, ghost combine: (H, H) -> H)
    returns (found: seq<nat>)
    requires IsTree(local, buckets, combine) && IsTree(remote, buckets, combine) && CollisionFree(combine)
    requires Within(i, h, buckets)
    ensures found == diverged + Below(local, remote, buckets, i, h)
    decreases h
  {
    if local[i] == remote[i] {
      NothingBelow(local, remote, buckets, combine, i, h);
      NothingBeside(Below(local, remote, buckets, i, h), diverged);
      return diverged;
    }
    if h > 0 { ChildrenWithin(i, h, buckets); }
    if i >= buckets - 1 {
      LeafBelow(local, remote, buckets, i);
      return diverged + [i - (buckets - 1)];
    }
    ChildrenBelow(local, remote, buckets, i, h);
    ConcatAssociates(diverged, Below(local, remote, buckets, 2 * i + 1, h - 1), Below(local, remote, buckets, 2 * i + 2, h - 1));
    found := Walk(local, remote, buckets, 2 * i + 1, diverged, h - 1, combine);
    found := Walk(local, remote, buckets, 2 * i + 2, found, h - 1, combine);
  }

  lemma RootDiffers<H>(local: seq<H>, remote: seq<H>, buckets: nat, h: nat, diverged: seq<nat>)
    requires buckets == Pow2(h) && FirstLeaf(0, h) == Pow2(h) - 1 && |local| == |remote| == 2 * buckets - 1
    requires diverged == [] + Below(local, remote, buckets, 0, h)
    ensures Ascending(diverged)
    ensures forall b: nat :: b in diverged <==>
              b < buckets && local[LeafIndex(b, buckets)] != remote[LeafIndex(b, buckets)]
  {
    NothingBeside([], Below(local, remote, buckets, 0, h));
    DifferingIsExact(local, remote, buckets, buckets - 1, 2 * buckets - 1);
  }

  /** Exactly the buckets whose leaves differ, in ascending order. */
  method DivergentBuckets<H(!new, ==)>(local: seq<H>, remote: seq<H>, buckets: nat, ghost combine: (H, H) -> H)
    returns (diverged: seq<nat>)
    requires ValidBucketCount(buckets) && CollisionFree(combine)
    requires IsTree(local, buckets, combine) && IsTree(remote, buckets, combine)
    ensures Ascending(diverged)
    ensures forall b: nat :: b in diverged <==>
              b < buckets && local[LeafIndex(b, buckets)] != remote[LeafIndex(b, buckets)]
  {
    ghost var k: nat :| buckets == Pow2(2 * k);
    RootHasAllLeaves(2 * k);
    diverged := Walk(local, remote, buckets, 0, [], 2 * k, combine);
    RootDiffers(local, remote, buckets, 2 * k, diverged);
  }
}
