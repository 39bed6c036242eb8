/**
 The byte order of keys and identifiers, and sorting by it. The source leans on that order in
 three places: a memtable lists its keys ascending, the ring breaks ties towards the lower
 node ID, and live SSTable IDs sort into the order the tables were written in.
 */
module Keys {

  predicate Less(a: string, b: string) {
    if b == "" then false
    else if a == "" then true
    else a[0] < b[0] || (a[0] == b[0] && Less(a[1..], b[1..]))
  }

  lemma {:induction false} LessIrreflexive(a: string)
    ensures !Less(a, a)
  {
    if a != "" { LessIrreflexive(a[1..]); }
  }

  lemma {:induction false} LessTransitive(a: string, b: string, c: string)
    requires Less(a, b) && Less(b, c)
    ensures Less(a, c)
  {
    if a != "" && a[0] == b[0] == c[0] { LessTransitive(a[1..], b[1..], c[1..]); }
  }

  lemma {:induction false} LessTotal(a: string, b: string)
    ensures Less(a, b) || a == b || Less(b, a)
  {
    if a != "" && b != "" && a[0] == b[0] {
      LessTotal(a[1..], b[1..]);
      assert a == [a[0]] + a[1..] && b == [b[0]] + b[1..];
    }
  }

  // A longer name sorts after the name it extends.
  lemma {:induction false} LessExtension(a: string, suffix: string)
    requires suffix != ""
    ensures Less(a, a + suffix)
  {
    if a == "" {
      assert a + suffix == suffix;
    } else {
      LessExtension(a[1..], suffix);
      assert (a + suffix)[1..] == a[1..] + suffix;
    }
  }

  // Between names of one width, whatever is appended to either changes nothing.
  lemma {:induction false} LessFixedWidth(a: string, b: string, s: string, t: string)
    requires |a| == |b| && Less(a, b)
    ensures Less(a + s, b + t)
  {
    assert (a + s)[0] == a[0] && (b + t)[0] == b[0];
    if a[0] == b[0] {
      LessFixedWidth(a[1..], b[1..], s, t);
      assert (a + s)[1..] == a[1..] + s && (b + t)[1..] == b[1..] + t;
    }
  }

  function Elements(s: seq<string>): set<string> {
    set k | k in s
  }

  predicate Ascending(s: seq<string>) {
    forall i, j :: 0 <= i < j < |s| ==> Less(s[i], s[j])
  }

  // The least element of a set, by a scan.
  method Least(keys: set<string>) returns (least: string)
    requires keys != {}
    ensures least in keys && forall k :: k in keys && k != least ==> Less(least, k)
  {
    least :| least in keys;
    var todo := keys - {least};
    while todo != {}
      invariant todo <= keys && least in keys && least !in todo
      invariant forall k :: k in keys - todo && k != least ==> Less(least, k)
      decreases |todo|
    {
      var k :| k in todo;
      todo := todo - {k};
      LessTotal(k, least);
      if Less(k, least) {
        forall other | other in keys - todo && other != k ensures Less(k, other) {
          if other != least { LessTransitive(k, least, other); }
        }
        least := k;
      }
    }
  }

  method Sorted(keys: set<string>) returns (s: seq<string>)
    ensures Ascending(s) && Elements(s) == keys
  {
    s := [];
    var todo := keys;
    while todo != {}
      invariant todo <= keys && Elements(s) == keys - todo
      invariant Ascending(s)
      invariant forall x, k :: x in s && k in todo ==> Less(x, k)
      decreases |todo|
    {
      var k := Least(todo);
      AscendingAppend(s, k);
      s := s + [k];
      todo := todo - {k};
    }
  }

  lemma AscendingAppend(s: seq<string>, k: string)
    requires Ascending(s) && forall x :: x in s ==> Less(x, k)
    ensures Ascending(s + [k]) && Elements(s + [k]) == Elements(s) + {k}
  {
    var t := s + [k];
    forall i, j | 0 <= i < j < |t| ensures Less(t[i], t[j]) {
      if j == |s| { assert s[i] in s; }
    }
  }

  lemma ElementsEmpty(s: seq<string>)
    ensures s == [] <==> Elements(s) == {}
  {
    if s != [] { assert s[0] in Elements(s); }
  }

  lemma AscendingMember(s: seq<string>, i: nat, k: string)
    requires Ascending(s) && i < |s| && k in s
    requires forall j :: 0 <= j < |s| && s[j] == k ==> j >= i
    ensures k == s[i] || Less(s[i], k)
  {
    var j :| 0 <= j < |s| && s[j] == k;
  }

  // An ascending listing of a set is unique.
  lemma {:induction false} AscendingUnique(s: seq<string>, t: seq<string>)
    requires Ascending(s) && Ascending(t)
    requires Elements(s) == Elements(t)
    ensures s == t
  {
    if s == [] {
      ElementsEmpty(s);
      ElementsEmpty(t);
    } else {
      assert s[0] in Elements(s);
      assert s[0] in Elements(t);
      assert t[0] in Elements(t);
      assert t[0] in Elements(s);
      AscendingMember(s, 0, t[0]);
      AscendingMember(t, 0, s[0]);
      if s[0] != t[0] {
        LessTransitive(s[0], t[0], s[0]);
        LessIrreflexive(s[0]);
        assert false;
      }
      TailSet(s);
      TailSet(t);
      AscendingUnique(s[1..], t[1..]);
      assert s == [s[0]] + s[1..] && t == [t[0]] + t[1..];
    }
  }

  lemma TailSet(s: seq<string>)
    requires Ascending(s) && s != []
    ensures Elements(s[1..]) == Elements(s) - {s[0]}
  {
    assert s == [s[0]] + s[1..];
    forall k | k in s[1..] ensures k != s[0] {
      var j :| 0 <= j < |s[1..]| && s[1..][j] == k;
      assert Less(s[0], s[j + 1]);
      LessIrreflexive(s[0]);
    }
  }
}
