/**
 The in-memory table of recent writes: a version set per key, changed in place, with a
 running estimate of its size. Its B-tree is the map `table`; listing it in key order is
 where the tree's order shows.
 */
module Memtables {
  import opened Versions
  import opened Layers
  import Keys

  // The estimate for one version: key, encoded value, and 64 for the clock and the rest.
  function ItemSize(key: string, item: Item): nat {
    |key| + |item.value| + 64
  }

  function SetSize(key: string, items: seq<Item>): nat {
    if items == [] then 0 else SetSize(key, items[..|items| - 1]) + ItemSize(key, items[|items| - 1])
  }

  function ValueBytes(items: seq<Item>): nat {
    if items == [] then 0 else ValueBytes(items[..|items| - 1]) + |items[|items| - 1].value|
  }

  // A set counts its key and 64 for every version, and all their values.
  lemma {:induction false} SetSizeIs(key: string, items: seq<Item>)
    ensures SetSize(key, items) == |items| * (|key| + 64) + ValueBytes(items)
  {
    if items != [] {
      var n := |items| - 1;
      SetSizeIs(key, items[..n]);
      assert (n + 1) * (|key| + 64) == n * (|key| + 64) + (|key| + 64);
    }
  }

  ghost function TotalSize(l: Layer): nat
    decreases |l|
  {
    if l == map[] then 0
    else
      var k :| k in l;
      SetSize(k, l[k]) + TotalSize(l - {k})
  }

  // The total does not depend on the order the keys are summed in.
  lemma {:induction false} TotalSizeSplit(l: Layer, key: string)
    requires key in l
    ensures TotalSize(l) == SetSize(key, l[key]) + TotalSize(l - {key})
    decreases |l|
  {
    var k :| k in l && TotalSize(l) == SetSize(k, l[k]) + TotalSize(l - {k});
    if k != key {
      TotalSizeSplit(l - {k}, key);
      TotalSizeSplit(l - {key}, k);
      assert l - {k} - {key} == l - {key} - {k};
    }
  }

  lemma TotalSizeUpdate(l: Layer, key: string, items: seq<Item>)
    ensures TotalSize(l[key := items]) == TotalSize(l) + SetSize(key, items) - SetSize(key, Look(l, key))
  {
    var l' := l[key := items];
    TotalSizeSplit(l', key);
    assert l' - {key} == l - {key};
    if key in l {
      TotalSizeSplit(l, key);
    } else {
      assert l - {key} == l;
    }
  }

  class MemTable {
    var table: Layer
    var sizeSoFar: int
    const maxBytes: int

    // The estimate is exact for what is held, and no key is held without versions.
    ghost predicate Valid()
      reads this
    {
      sizeSoFar == TotalSize(table) && NoEmptySets(table)
    }

    constructor (maxBytes: int)
      ensures Valid() && table == map[] && this.maxBytes == maxBytes
    {
      table := map[];
      sizeSoFar := 0;
      this.maxBytes := maxBytes;
    }

    // Installs items as key's set, moving the estimate by the difference.
    method Install(key: string, items: seq<Item>)
      requires Valid() && items != []
      modifies this
      ensures Valid() && table == old(table)[key := items]
    {
      TotalSizeUpdate(table, key, items);
      sizeSoFar := sizeSoFar + SetSize(key, items) - SetSize(key, Look(table, key));
      table := table[key := items];
    }

    // Merges item into key's set, and reports whether the table should be flushed.
    method Put(key: string, item: Item) returns (full: bool)
      requires Valid()
      modifies this
      ensures Valid() && table == PutLayer(old(table), key, item)
      ensures old(Siblings(table)) ==> Siblings(table)
      ensures full <==> TotalSize(table) >= maxBytes
    {
      var held := Look(table, key);
      var survivors := ResolveItems(held, item);
      var items := NewestFirst(survivors, item);
      PutItemsNotEmpty(held, item);
      if Antichain(held) { PutItemsAntichain(held, item); }
      Install(key, items);
      full := sizeSoFar >= maxBytes;
    }

    method MergeBehind(key: string, older: seq<Item>)
      requires Valid() && older != []
      modifies this
      ensures Valid() && table == old(table)[key := Merge(Look(old(table), key), older)]
    {
      var merged := MergeSiblings(Look(table, key), older);
      MergeNotEmpty(Look(table, key), older);
      Install(key, merged);
    }

    // Merges a failed flush's entries behind what is here, key by key.
    method PutBackOlder(entries: seq<Entry>)
      requires Valid()
      modifies this
      ensures Valid()
      ensures forall k :: Look(table, k) == Merge(Look(old(table), k), ItemsFor(entries, k))
    {
      var keys, older := GroupByKey(entries);
      for i := 0 to |keys|
        invariant Valid() && table == PutBackFor(old(table), older, keys[..i])
      {
        assert keys[..i + 1][..i] == keys[..i] && keys[i] in keys;
        MergeBehind(keys[i], older[keys[i]]);
      }
      assert keys[..|keys|] == keys;
      PutBackForEntries(old(table), older, keys, entries);
    }

    // Installs items verbatim, or removes the key: rollback only.
    method Replace(key: string, items: seq<Item>)
      requires Valid()
      modifies this
      ensures Valid() && table == ReplaceLayer(old(table), key, items)
    {
      if items == [] {
        if key in table {
          TotalSizeSplit(table, key);
        } else {
          assert table - {key} == table;
        }
        sizeSoFar := sizeSoFar - SetSize(key, Look(table, key));
        table := table - {key};
      } else {
        Install(key, items);
      }
    }

    // One entry per version: keys ascending, each key's versions newest first.
    method Snapshot() returns (entries: seq<Entry>)
      requires Valid()
      ensures Flattens(entries, table)
    {
      var keys := Keys.Sorted(table.Keys);
      entries := [];
      for i := 0 to |keys|
        invariant entries == FlattenKeys(table, keys[..i])
      {
        assert keys[..i + 1][..i] == keys[..i];
        var block := Block(keys[i], Look(table, keys[i]));
        entries := entries + block;
      }
      assert keys[..|keys|] == keys;
      FlattenKeysFlattens(table, keys);
    }
  }

  function PutBackFor(l: Layer, older: Layer, keys: seq<string>): Layer {
    if keys == [] then l
    else
      var done := PutBackFor(l, older, keys[..|keys| - 1]);
      var key := keys[|keys| - 1];
      done[key := Merge(Look(done, key), Look(older, key))]
  }

  lemma {:induction false} PutBackForLook(l: Layer, older: Layer, keys: seq<string>, k: string)
    requires forall a, b :: 0 <= a < b < |keys| ==> keys[a] != keys[b]
    ensures Look(PutBackFor(l, older, keys), k) == if k in keys then Merge(Look(l, k), Look(older, k)) else Look(l, k)
  {
    if keys != [] {
      PutBackForLook(l, older, keys[..|keys| - 1], k);
      assert keys == keys[..|keys| - 1] + [keys[|keys| - 1]];
    }
  }

  lemma PutBackForEntries(l: Layer, older: Layer, keys: seq<string>, entries: seq<Entry>)
    requires forall a, b :: 0 <= a < b < |keys| ==> keys[a] != keys[b]
    requires forall k :: k in keys <==> k in older
    requires forall k :: Look(older, k) == ItemsFor(entries, k)
    ensures forall k :: Look(PutBackFor(l, older, keys), k) == Merge(Look(l, k), ItemsFor(entries, k))
  {
    forall k ensures Look(PutBackFor(l, older, keys), k) == Merge(Look(l, k), ItemsFor(entries, k)) {
      PutBackForLook(l, older, keys, k);
      if k !in keys { assert ItemsFor(entries, k) == []; }
    }
  }

  function BlockOf(key: string, items: seq<Item>): seq<Entry> {
    seq(|items|, n requires 0 <= n < |items| => Entry(key, items[n]))
  }

  function FlattenKeys(l: Layer, keys: seq<string>): seq<Entry> {
    if keys == [] then []
    else
      var key := keys[|keys| - 1];
      FlattenKeys(l, keys[..|keys| - 1]) + BlockOf(key, Look(l, key))
  }

  lemma {:induction false} FlattenKeysItems(l: Layer, keys: seq<string>, k: string)
    requires Keys.Ascending(keys)
    ensures ItemsFor(FlattenKeys(l, keys), k) == if k in keys then Look(l, k) else []
  {
    if keys != [] {
      var front, key := keys[..|keys| - 1], keys[|keys| - 1];
      var block := BlockOf(key, Look(l, key));
      FlattenKeysItems(l, front, k);
      AscendingIsNew(keys, |front|);
      InFrontOrLast(keys, k);
      ItemsForConcat(FlattenKeys(l, front), block, k);
      BlockItems(key, Look(l, key), block, k);
      assert ItemsFor(FlattenKeys(l, keys), k) == ItemsFor(FlattenKeys(l, front), k) + ItemsFor(block, k);
    }
  }

  lemma InFrontOrLast(keys: seq<string>, k: string)
    requires keys != []
    ensures k in keys <==> k in keys[..|keys| - 1] || k == keys[|keys| - 1]
  {
    assert keys == keys[..|keys| - 1] + [keys[|keys| - 1]];
  }

  lemma {:induction false} FlattenKeysSorted(l: Layer, keys: seq<string>)
    requires Keys.Ascending(keys)
    ensures SortedByKey(FlattenKeys(l, keys))
    ensures forall e :: e in FlattenKeys(l, keys) ==> e.key in keys
  {
    if keys != [] {
      var front, key := keys[..|keys| - 1], keys[|keys| - 1];
      FlattenKeysSorted(l, front);
      forall e | e in FlattenKeys(l, front) ensures Keys.Less(e.key, key) {
        var n :| 0 <= n < |front| && front[n] == e.key;
        assert Keys.Less(keys[n], keys[|front|]);
      }
      BlockSorts(FlattenKeys(l, front), key, BlockOf(key, Look(l, key)));
    }
  }

  lemma FlattenKeysFlattens(l: Layer, keys: seq<string>)
    requires Keys.Ascending(keys) && Keys.Elements(keys) == l.Keys
    ensures Flattens(FlattenKeys(l, keys), l)
  {
    FlattenKeysSorted(l, keys);
    forall k ensures ItemsFor(FlattenKeys(l, keys), k) == Look(l, k) {
      FlattenKeysItems(l, keys, k);
      assert k in keys <==> k in Keys.Elements(keys);
    }
  }

  // memtable.Put's two passes: the written version first if it survived, then the others.
  method NewestFirst(survivors: seq<Item>, item: Item) returns (items: seq<Item>)
    ensures items == (if item in survivors then [item] else []) + Without(survivors, item)
  {
    items := [];
    var i := 0;
    while i < |survivors| && items == []
      invariant 0 <= i <= |survivors|
      invariant items == if item in survivors[..i] then [item] else []
    {
      if survivors[i] == item {
        items := [item];
      }
      i := i + 1;
      assert survivors[..i] == survivors[..i - 1] + [survivors[i - 1]];
    }
    assert i == |survivors| ==> survivors[..i] == survivors;
    ghost var front := items;
    for j := 0 to |survivors|
      invariant items == front + Without(survivors[..j], item)
    {
      assert survivors[..j + 1][..j] == survivors[..j];
      if survivors[j] != item {
        items := items + [survivors[j]];
      }
    }
    assert survivors[..|survivors|] == survivors;
  }

  // A flat list's keys in order of first appearance, and its versions gathered by key.
  method GroupByKey(entries: seq<Entry>) returns (keys: seq<string>, grouped: Layer)
    ensures forall k :: Look(grouped, k) == ItemsFor(entries, k)
    ensures NoEmptySets(grouped)
    ensures forall k :: k in keys <==> k in grouped
    ensures forall a, b :: 0 <= a < b < |keys| ==> keys[a] != keys[b]
  {
    keys, grouped := [], map[];
    for i := 0 to |entries|
      invariant forall k :: Look(grouped, k) == ItemsFor(entries[..i], k)
      invariant NoEmptySets(grouped)
      invariant forall k :: k in keys <==> k in grouped
      invariant forall a, b :: 0 <= a < b < |keys| ==> keys[a] != keys[b]
    {
      var e := entries[i];
      assert entries[..i + 1] == entries[..i] + [e];
      forall k ensures ItemsFor(entries[..i + 1], k) == ItemsFor(entries[..i], k) + (if e.key == k then [e.item] else []) {
        ItemsForAppend(entries[..i], e, k);
      }
      if e.key !in grouped {
        keys := keys + [e.key];
      }
      grouped := grouped[e.key := Look(grouped, e.key) + [e.item]];
    }
    assert entries[..|entries|] == entries;
  }

  // One key's versions as consecutive entries.
  method Block(key: string, items: seq<Item>) returns (block: seq<Entry>)
    ensures block == BlockOf(key, items)
  {
    block := [];
    for j := 0 to |items|
      invariant |block| == j && forall n :: 0 <= n < j ==> block[n] == Entry(key, items[n])
    {
      block := block + [Entry(key, items[j])];
    }
  }

  lemma MergeNotEmpty(a: seq<Item>, b: seq<Item>)
    requires b != []
    ensures Merge(a, b) != []
  {
    MergeCoversBoth(a, b);
    assert b[0] in a + b;
    assert Covered(b[0], Merge(a, b));
  }

  lemma AscendingIsNew(keys: seq<string>, i: nat)
    requires Keys.Ascending(keys) && i < |keys|
    ensures keys[i] !in keys[..i]
  {
    forall a | 0 <= a < i ensures keys[a] != keys[i] {
      assert Keys.Less(keys[a], keys[i]);
      Keys.LessIrreflexive(keys[i]);
    }
  }

  lemma BlockItems(key: string, items: seq<Item>, block: seq<Entry>, k: string)
    requires |block| == |items| && forall n :: 0 <= n < |items| ==> block[n] == Entry(key, items[n])
    ensures ItemsFor(block, k) == if k == key then items else []
  {
    if k == key {
      ItemsForAll(block, key);
    } else {
      ItemsForMissing(block, k);
    }
  }

  lemma BlockSorts(before: seq<Entry>, key: string, block: seq<Entry>)
    requires SortedByKey(before) && forall e :: e in before ==> Keys.Less(e.key, key)
    requires forall e :: e in block ==> e.key == key
    ensures SortedByKey(before + block)
  {
    var all := before + block;
    forall a, b | 0 <= a < b < |all| ensures all[a].key == all[b].key || Keys.Less(all[a].key, all[b].key) {
      if b >= |before| {
        assert all[b] in block;
        if a >= |before| { assert all[a] in block; } else { assert all[a] in before; }
      }
    }
  }
}
