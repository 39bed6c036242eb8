/**
 What one layer of storage holds, whether a memtable or an SSTable: a version set per key.
 A layer also has a flat form, one entry per version, keys ascending and each key's
 versions together: the form a memtable is flushed in and an SSTable is written in.
 */
module Layers {
  import opened Versions
  import Keys

  type Layer = map<string, seq<Item>>

  datatype Entry = Entry(key: string, item: Item)

  // A key a layer does not hold has no versions there.
  function Look(l: Layer, key: string): seq<Item> {
    if key in l then l[key] else []
  }

  // The versions a flat list holds for key, in its order: a linear scan.
  function ItemsFor(entries: seq<Entry>, key: string): seq<Item> {
    if entries == [] then []
    else
      var last := entries[|entries| - 1];
      ItemsFor(entries[..|entries| - 1], key) + (if last.key == key then [last.item] else [])
  }

  // Keys ascending, each key's versions together.
  predicate SortedByKey(entries: seq<Entry>) {
    forall i, j :: 0 <= i < j < |entries| ==>
      entries[i].key == entries[j].key || Keys.Less(entries[i].key, entries[j].key)
  }

  // entries is a flat form of l.
  ghost predicate Flattens(entries: seq<Entry>, l: Layer) {
    && SortedByKey(entries)
    && forall k :: ItemsFor(entries, k) == Look(l, k)
  }

  predicate NoEmptySets(l: Layer) {
    forall k :: k in l ==> l[k] != []
  }

  predicate Siblings(l: Layer) {
    forall k :: k in l ==> Antichain(l[k])
  }

  lemma {:induction false} ItemsForConcat(a: seq<Entry>, b: seq<Entry>, key: string)
    ensures ItemsFor(a + b, key) == ItemsFor(a, key) + ItemsFor(b, key)
  {
    if b == [] {
      assert a + b == a;
    } else {
      ItemsForConcat(a, b[..|b| - 1], key);
      assert (a + b)[..|a + b| - 1] == a + b[..|b| - 1];
    }
  }

  lemma ItemsForAppend(a: seq<Entry>, e: Entry, key: string)
    ensures ItemsFor(a + [e], key) == ItemsFor(a, key) + (if e.key == key then [e.item] else [])
  {
    assert (a + [e])[..|a|] == a;
  }

  lemma {:induction false} ItemsForMissing(entries: seq<Entry>, key: string)
    ensures ItemsFor(entries, key) == [] <==> forall e :: e in entries ==> e.key != key
  {
    if entries != [] {
      ItemsForMissing(entries[..|entries| - 1], key);
      assert entries == entries[..|entries| - 1] + [entries[|entries| - 1]];
    }
  }

  lemma {:induction false} ItemsForAll(entries: seq<Entry>, key: string)
    requires forall e :: e in entries ==> e.key == key
    ensures |ItemsFor(entries, key)| == |entries|
    ensures forall i :: 0 <= i < |entries| ==> ItemsFor(entries, key)[i] == entries[i].item
  {
    if entries != [] {
      ItemsForAll(entries[..|entries| - 1], key);
    }
  }

  // ---------------------------------------------------------------- changes to a layer

  // xs without every occurrence of x.
  function Without(xs: seq<Item>, x: Item): seq<Item> {
    if xs == [] then []
    else Without(xs[..|xs| - 1], x) + (if xs[|xs| - 1] == x then [] else [xs[|xs| - 1]])
  }

  // A write into a memtable's version set: resolved, and moved to the front if it is there.
  function PutItems(held: seq<Item>, item: Item): seq<Item> {
    var survivors := Resolve(held, item);
    (if item in survivors then [item] else []) + Without(survivors, item)
  }

  function PutLayer(l: Layer, key: string, item: Item): Layer {
    l[key := PutItems(Look(l, key), item)]
  }

  // Versions put back behind newer ones, as a failed flush does.
  function PutBackLayer(l: Layer, older: Layer): Layer {
    map k | k in l.Keys + older.Keys :: if k in older then Merge(Look(l, k), older[k]) else l[k]
  }

  // A verbatim replacement; an empty set removes the key.
  function ReplaceLayer(l: Layer, key: string, items: seq<Item>): Layer {
    if items == [] then l - {key} else l[key := items]
  }

  lemma {:induction false} WithoutMembers(xs: seq<Item>, x: Item)
    ensures forall y :: y in Without(xs, x) <==> y in xs && y != x
  {
    if xs != [] {
      WithoutMembers(xs[..|xs| - 1], x);
      assert xs == xs[..|xs| - 1] + [xs[|xs| - 1]];
    }
  }

  // Moving the newest to the front loses and adds nothing.
  lemma PutItemsMembers(held: seq<Item>, item: Item)
    ensures forall y :: y in PutItems(held, item) <==> y in Resolve(held, item)
  {
    WithoutMembers(Resolve(held, item), item);
  }

  lemma PutItemsCovers(held: seq<Item>, item: Item, z: Item)
    ensures Covered(z, PutItems(held, item)) <==> Covered(z, held + [item])
  {
    PutItemsMembers(held, item);
    ResolveCovers(held, item, z);
  }

  lemma {:induction false} WithoutAntichain(xs: seq<Item>, x: Item)
    requires Antichain(xs)
    ensures Antichain(Without(xs, x))
  {
    if xs != [] {
      var front, last := xs[..|xs| - 1], xs[|xs| - 1];
      WithoutAntichain(front, x);
      WithoutMembers(front, x);
      var w := Without(front, x);
      forall i | 0 <= i < |w| ensures !Covers(w[i], last) && !Covers(last, w[i]) {
        assert w[i] in front;
        var k :| 0 <= k < |front| && front[k] == w[i];
        assert xs[k] == w[i];
      }
    }
  }

  lemma PutItemsNotEmpty(held: seq<Item>, item: Item)
    ensures PutItems(held, item) != []
  {
    PutItemsCovers(held, item, item);
    assert Covers(item, item) && item in held + [item];
  }

  lemma PutItemsAntichain(held: seq<Item>, item: Item)
    requires Antichain(held)
    ensures Antichain(PutItems(held, item))
  {
    var s := Resolve(held, item);
    ResolveKeepsAntichain(held, item);
    WithoutAntichain(s, item);
    WithoutMembers(s, item);
    if item in s {
      forall x | x in Without(s, item) ensures !Covers(x, item) && !Covers(item, x) {
        AntichainApart(s, x, item);
      }
      PrependAntichain(item, Without(s, item));
    } else {
      assert PutItems(held, item) == Without(s, item);
    }
  }

  lemma AntichainApart(s: seq<Item>, x: Item, y: Item)
    requires Antichain(s) && x in s && y in s && x != y
    ensures !Covers(x, y) && !Covers(y, x)
  {
    var i :| 0 <= i < |s| && s[i] == x;
    var j :| 0 <= j < |s| && s[j] == y;
  }

  lemma PrependAntichain(x: Item, s: seq<Item>)
    requires Antichain(s) && forall y :: y in s ==> !Covers(y, x) && !Covers(x, y)
    ensures Antichain([x] + s)
  {
    var t := [x] + s;
    forall i, j | 0 <= i < |t| && 0 <= j < |t| && i != j ensures !Covers(t[i], t[j]) {
      if i > 0 { assert t[i] == s[i - 1]; }
      if j > 0 { assert t[j] == s[j - 1]; }
    }
  }

  // A surviving write is the newest version of its set, and what was there keeps its order.
  lemma PutItemsIsNewest(held: seq<Item>, item: Item)
    requires !Covered(item, held)
    ensures PutItems(held, item) == [item] + Unbeaten(held, [item])
  {
    var u := Unbeaten(held, [item]);
    UnbeatenMembers(held, [item]);
    assert item !in u by { if item in u { assert Covers(item, item); } }
    WithoutAbsent(u, item);
    assert (u + [item])[..|u|] == u;
  }

  // A write something there already covers is dropped; put again, a version already there is
  // moved to the front.
  lemma PutItemsCovered(held: seq<Item>, item: Item)
    requires Antichain(held) && Covered(item, held)
    ensures PutItems(held, item) == if item in held then [item] + Without(held, item) else held
  {
    CoveredInAntichain(held, item);
    ResolveAbsorbed(held, item);
    if item !in held { WithoutAbsent(held, item); }
  }

  lemma {:induction false} WithoutAbsent(xs: seq<Item>, x: Item)
    requires x !in xs
    ensures Without(xs, x) == xs
  {
    if xs != [] {
      var front, last := xs[..|xs| - 1], xs[|xs| - 1];
      assert last in xs && xs == front + [last];
      assert forall y :: y in front ==> y in xs;
      WithoutAbsent(front, x);
    }
  }
}
