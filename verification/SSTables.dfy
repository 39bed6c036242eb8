/**
 Sorted tables on disk: entries written one after another with an index of their offsets. A
 lookup through the key range, the Bloom filter and a binary search of the index returns what
 a scan of every entry would. The record format is any framed one; the filter is any predicate
 that holds of every key written.
 */
module SSTables {
  import opened Wrappers
  import opened Sequences
  import opened Versions
  import opened Layers
  import F = Framing
  import Keys

  datatype IndexEntry = IndexEntry(key: string, offset: nat)

  datatype SSTable<!B> = SSTable(minKey: string, maxKey: string, index: seq<IndexEntry>,
                                 filter: string -> bool, data: seq<B>)

  // The i-th index entry is the i-th entry's key and where its record starts.
  ghost predicate Indexes<B>(f: F.Format<Entry, B>, index: seq<IndexEntry>, entries: seq<Entry>) {
    && |index| == |entries|
    && forall i :: 0 <= i < |index| ==>
         index[i].key == entries[i].key && index[i].offset == |F.Records(f, entries[..i])|
  }

  // t is a table written from entries.
  ghost predicate Holds<B>(f: F.Format<Entry, B>, t: SSTable<B>, entries: seq<Entry>) {
    && entries != [] && SortedByKey(entries) && F.AllFit(f, entries)
    && Indexes(f, t.index, entries) && t.data == F.Records(f, entries)
    && t.minKey == entries[0].key && t.maxKey == entries[|entries| - 1].key
    && forall e :: e in entries ==> t.filter(e.key)
  }

  // ---------------------------------------------------------------- writing

  // The check before anything is written: neighbours in order.
  method IsSorted(entries: seq<Entry>) returns (sorted: bool)
    ensures sorted <==> SortedByKey(entries)
  {
    for i := 0 to |entries|
      invariant SortedByKey(entries[..i])
    {
      if i > 0 {
        Keys.LessTotal(entries[i - 1].key, entries[i].key);
        if Keys.Less(entries[i].key, entries[i - 1].key) {
          OutOfOrder(entries, i);
          return false;
        }
        LargestIsLast(entries, i);
      }
    }
    assert entries[..|entries|] == entries;
    sorted := true;
  }

  lemma OutOfOrder(entries: seq<Entry>, i: nat)
    requires 0 < i < |entries| && Keys.Less(entries[i].key, entries[i - 1].key)
    ensures !SortedByKey(entries)
  {
    Keys.LessIrreflexive(entries[i].key);
    if Keys.Less(entries[i - 1].key, entries[i].key) {
      Keys.LessTransitive(entries[i].key, entries[i - 1].key, entries[i].key);
    }
  }

  lemma LargestIsLast(entries: seq<Entry>, i: nat)
    requires 0 < i < |entries| && SortedByKey(entries[..i])
    requires entries[i - 1].key == entries[i].key || Keys.Less(entries[i - 1].key, entries[i].key)
    ensures SortedByKey(entries[..i + 1])
  {
    var before := entries[..i];
    forall j | 0 <= j < i ensures entries[j].key == entries[i].key || Keys.Less(entries[j].key, entries[i].key) {
      if j < i - 1 {
        assert before[j].key == before[i - 1].key || Keys.Less(before[j].key, before[i - 1].key);
        if Keys.Less(entries[j].key, entries[i - 1].key) && Keys.Less(entries[i - 1].key, entries[i].key) {
          Keys.LessTransitive(entries[j].key, entries[i - 1].key, entries[i].key);
        }
      }
    }
    forall a, b | 0 <= a < b < i + 1
      ensures entries[a].key == entries[b].key || Keys.Less(entries[a].key, entries[b].key)
    {
      if b < i { assert before[a] == entries[a] && before[b] == entries[b]; }
    }
  }

  // Each record goes where the bytes of the ones before it end; one that cannot be encoded ends
  // the writing.
  method WriteDataSection<B>(f: F.Format<Entry, B>, entries: seq<Entry>)
    returns (ok: bool, index: seq<IndexEntry>, data: seq<B>)
    ensures ok <==> F.AllFit(f, entries)
    ensures ok ==> Indexes(f, index, entries) && data == F.Records(f, entries)
  {
    ok, index, data := true, [], [];
    for i := 0 to |entries|
      invariant forall j :: 0 <= j < i ==> f.fits(entries[j])
      invariant data == F.Records(f, entries[..i])
      invariant |index| == i && forall j :: 0 <= j < i ==>
                  index[j].key == entries[j].key && index[j].offset == |F.Records(f, entries[..j])|
    {
      if !f.fits(entries[i]) {
        assert entries[i] in entries;
        ok := false;
        return;
      }
      index := index + [IndexEntry(entries[i].key, |data|)];
      data := data + f.write(entries[i]);
      assert entries[..i + 1] == entries[..i] + [entries[i]];
      F.RecordsAppend(f, entries[..i], entries[i]);
    }
    assert entries[..|entries|] == entries;
  }

  // An SSTable is never empty, only sorted entries that can all be encoded make one, and only if
  // the file system stores it.
  method Write<B>(f: F.Format<Entry, B>, entries: seq<Entry>, filter: string -> bool, stores: bool)
    returns (t: Option<SSTable<B>>)
    requires forall e :: e in entries ==> filter(e.key)
    ensures t.Some? <==> entries != [] && SortedByKey(entries) && F.AllFit(f, entries) && stores
    ensures t.Some? ==> Holds(f, t.value, entries)
  {
    if |entries| == 0 { return None; }
    var sorted := IsSorted(entries);
    if !sorted { return None; }
    var ok, index, data := WriteDataSection(f, entries);
    if !ok || !stores { return None; }
    t := Some(SSTable(entries[0].key, entries[|entries| - 1].key, index, filter, data));
  }

  // ---------------------------------------------------------------- reading

  lemma RecordAt<B(!new)>(f: F.Format<Entry, B>, entries: seq<Entry>, i: nat)
    requires F.Framed(f) && F.AllFit(f, entries) && i < |entries|
    ensures |F.Records(f, entries[..i])| <= |F.Records(f, entries)|
    ensures f.read(F.Records(f, entries)[|F.Records(f, entries[..i])|..])
         == F.Entry(entries[i], |f.write(entries[i])|)
  {
    var before, after := entries[..i], entries[i + 1..];
    assert entries == before + entries[i..];
    F.RecordsConcat(f, before, entries[i..]);
    assert entries[i..][1..] == after;
    assert F.Records(f, entries[i..]) == f.write(entries[i]) + F.Records(f, after);
    var data := F.Records(f, entries);
    assert data[|F.Records(f, before)|..] == f.write(entries[i]) + F.Records(f, after);
    assert F.ReadsBack(f, entries[i], F.Records(f, after));
  }

  // The first index entry at or after key (len if none): a binary search.
  method Search(index: seq<IndexEntry>, key: string) returns (at: nat)
    requires forall i, j :: 0 <= i < j < |index| ==> index[i].key == index[j].key || Keys.Less(index[i].key, index[j].key)
    ensures at <= |index|
    ensures forall i :: 0 <= i < at ==> Keys.Less(index[i].key, key)
    ensures forall i :: at <= i < |index| ==> !Keys.Less(index[i].key, key)
  {
    var lo, hi := 0, |index|;
    while lo < hi
      invariant lo <= hi <= |index|
      invariant forall i :: 0 <= i < lo ==> Keys.Less(index[i].key, key)
      invariant forall i :: hi <= i < |index| ==> !Keys.Less(index[i].key, key)
    {
      var mid := (lo + hi) / 2;
      if Keys.Less(index[mid].key, key) {
        forall i | lo <= i <= mid ensures Keys.Less(index[i].key, key) {
          if i < mid && index[i].key != index[mid].key { Keys.LessTransitive(index[i].key, index[mid].key, key); }
        }
        lo := mid + 1;
      } else {
        forall i | mid <= i < hi ensures !Keys.Less(index[i].key, key) {
          if mid < i && Keys.Less(index[i].key, key) && index[mid].key != index[i].key {
            Keys.LessTransitive(index[mid].key, index[i].key, key);
          }
        }
        hi := mid;
      }
    }
    at := lo;
  }

  // A key's entries are together: those before are smaller, those after are not it.
  lemma RunHoldsKey(entries: seq<Entry>, key: string, start: nat, end: nat)
    requires SortedByKey(entries) && start <= end <= |entries|
    requires forall i :: 0 <= i < start ==> Keys.Less(entries[i].key, key)
    requires forall i :: start <= i < end ==> entries[i].key == key
    requires end < |entries| ==> entries[end].key != key && !Keys.Less(entries[end].key, key)
    ensures ItemsFor(entries, key) == ItemsFor(entries[start..end], key)
  {
    Keys.LessIrreflexive(key);
    var a, b, c := entries[..start], entries[start..end], entries[end..];
    assert entries == a + b + c;
    NoneBehind(entries, key, end);
    ItemsForMissing(a, key);
    ItemsForMissing(c, key);
    ItemsInMiddle(a, b, c, key);
  }

  lemma NoneBehind(entries: seq<Entry>, key: string, end: nat)
    requires SortedByKey(entries) && end <= |entries|
    requires end < |entries| ==> entries[end].key != key && !Keys.Less(entries[end].key, key)
    ensures forall e :: e in entries[end..] ==> e.key != key
  {
    forall e | e in entries[end..] ensures e.key != key {
      var i :| end <= i < |entries| && entries[i] == e;
      assert i == end || entries[end].key == entries[i].key || Keys.Less(entries[end].key, entries[i].key);
    }
  }

  lemma ItemsInMiddle(a: seq<Entry>, b: seq<Entry>, c: seq<Entry>, key: string)
    requires ItemsFor(a, key) == [] && ItemsFor(c, key) == []
    ensures ItemsFor(a + b + c, key) == ItemsFor(b, key)
  {
    ItemsForConcat(a + b, c, key);
    ItemsForConcat(a, b, key);
    NothingBeside(ItemsFor(a, key), ItemsFor(b, key));
    NothingBeside(ItemsFor(c, key), ItemsFor(b, key));
  }

  // Outside the key range there is nothing.
  lemma OutOfRange<B>(f: F.Format<Entry, B>, t: SSTable<B>, entries: seq<Entry>, key: string)
    requires Holds(f, t, entries) && (Keys.Less(key, t.minKey) || Keys.Less(t.maxKey, key))
    ensures ItemsFor(entries, key) == []
  {
    Keys.LessIrreflexive(key);
    var n := |entries| - 1;
    forall e | e in entries ensures e.key != key {
      var i :| 0 <= i < |entries| && entries[i] == e;
      if e.key == key {
        assert i > 0 ==> entries[0].key == key || Keys.Less(entries[0].key, key);
        assert i < n ==> key == entries[n].key || Keys.Less(key, entries[n].key);
        if Keys.Less(key, t.minKey) && i > 0 && entries[0].key != key {
          Keys.LessTransitive(key, t.minKey, key);
        }
        if Keys.Less(t.maxKey, key) && i < n && entries[n].key != key {
          Keys.LessTransitive(key, t.maxKey, key);
        }
      }
    }
    ItemsForMissing(entries, key);
  }

  // The versions at one key's run of index entries.
  method ReadRun<B(!new)>(f: F.Format<Entry, B>, t: SSTable<B>, key: string, start: nat, end: nat, ghost entries: seq<Entry>)
    returns (items: seq<Item>)
    requires F.Framed(f) && Holds(f, t, entries) && start <= end <= |entries|
    requires forall i :: start <= i < end ==> entries[i].key == key
    ensures items == ItemsFor(entries[start..end], key)
  {
    items := [];
    for i := start to end
      invariant items == ItemsFor(entries[start..i], key)
    {
      RecordAt(f, entries, i);
      var first := f.read(t.data[t.index[i].offset..]);
      items := items + [first.entry.item];
      assert entries[start..i + 1] == entries[start..i] + [entries[i]];
      ItemsForAppend(entries[start..i], entries[i], key);
    }
  }

  /** A lookup is the linear scan: every version of the key, in order, and nothing else. */
  method GetAll<B(!new)>(f: F.Format<Entry, B>, t: SSTable<B>, key: string, ghost entries: seq<Entry>)
    returns (items: seq<Item>, found: bool)
    requires F.Framed(f) && Holds(f, t, entries)
    ensures items == ItemsFor(entries, key)
    ensures found <==> items != []
  {
    if Keys.Less(key, t.minKey) || Keys.Less(t.maxKey, key) {
      OutOfRange(f, t, entries, key);
      return [], false;
    }
    if !t.filter(key) {
      ItemsForMissing(entries, key);
      return [], false;
    }
    var start := Search(t.index, key);
    if start >= |t.index| || t.index[start].key != key {
      RunHoldsKey(entries, key, start, start);
      return [], false;
    }
    var end := start;
    while end < |t.index| && t.index[end].key == key
      invariant start <= end <= |t.index|
      invariant forall i :: start <= i < end ==> entries[i].key == key
    {
      end := end + 1;
    }
    RunHoldsKey(entries, key, start, end);
    items := ReadRun(f, t, key, start, end, entries);
    found := true;
    assert entries[start] in entries;
    ItemsForMissing(entries, key);
  }

  // Every entry, read back through the index.
  method All<B(!new)>(f: F.Format<Entry, B>, t: SSTable<B>, ghost entries: seq<Entry>) returns (all: seq<Entry>)
    requires F.Framed(f) && Holds(f, t, entries)
    ensures all == entries
  {
    all := [];
    for i := 0 to |t.index|
      invariant all == entries[..i]
    {
      RecordAt(f, entries, i);
      var first := f.read(t.data[t.index[i].offset..]);
      all := all + [first.entry];
    }
  }

  // The distinct keys of sorted entries, in order.
  function DistinctKeys(entries: seq<Entry>): seq<string> {
    if entries == [] then []
    else
      var before, key := DistinctKeys(entries[..|entries| - 1]), entries[|entries| - 1].key;
      if before != [] && before[|before| - 1] == key then before else before + [key]
  }

  lemma {:induction false} DistinctKeysFacts(entries: seq<Entry>)
    requires SortedByKey(entries)
    ensures Keys.Ascending(DistinctKeys(entries))
    ensures entries != [] ==> DistinctKeys(entries) != []
                              && DistinctKeys(entries)[|DistinctKeys(entries)| - 1] == entries[|entries| - 1].key
    ensures forall k :: k in DistinctKeys(entries) <==> ItemsFor(entries, k) != []
  {
    if entries != [] {
      var front, last := entries[..|entries| - 1], entries[|entries| - 1];
      DistinctKeysFacts(front);
      var before := DistinctKeys(front);
      if front != [] && before[|before| - 1] != last.key {
        LargerExtends(before, last.key);
      }
    }
  }

  lemma LargerExtends(keys: seq<string>, key: string)
    requires Keys.Ascending(keys) && keys != [] && Keys.Less(keys[|keys| - 1], key)
    ensures Keys.Ascending(keys + [key])
  {
    forall i | 0 <= i < |keys| ensures Keys.Less(keys[i], key) {
      if i < |keys| - 1 { Keys.LessTransitive(keys[i], keys[|keys| - 1], key); }
    }
  }

  // The keys with a version in the table, ascending: the index with repeats skipped.
  method KeysOf<B>(f: F.Format<Entry, B>, t: SSTable<B>, ghost entries: seq<Entry>) returns (keys: seq<string>)
    requires Holds(f, t, entries)
    ensures Keys.Ascending(keys) && forall k :: k in keys <==> ItemsFor(entries, k) != []
  {
    keys := [];
    for i := 0 to |t.index|
      invariant keys == DistinctKeys(entries[..i])
    {
      assert entries[..i + 1][..i] == entries[..i];
      if |keys| == 0 || keys[|keys| - 1] != t.index[i].key {
        keys := keys + [t.index[i].key];
      }
    }
    assert entries[..|entries|] == entries;
    DistinctKeysFacts(entries);
  }
}
