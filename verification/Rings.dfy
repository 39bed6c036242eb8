/**
 Consistent hashing with virtual nodes. A ring is a function of its member set alone, for any
 hash function: a position two nodes claim goes to the lower id, whoever came first. A key's
 preference list is the first distinct owners clockwise from its hash, and a member that is
 not on it can leave without changing it.
 */
module Rings {
  import opened Wrappers
  import opened Numbers
  import opened Sequences
  import Keys

  // A node's claim to a position.
  datatype Claim = Claim(pos: nat, id: string)

  // ---------------------------------------------------------------- owners

  function Digits(n: nat): string {
    if n < 10 then ["0123456789"[n]] else Digits(n / 10) + ["0123456789"[n % 10]]
  }

  // What a node's i-th virtual node is hashed from, and where it goes.
  function Label(id: string, i: nat): string {
    id + "-" + Digits(i)
  }

  function Position(hash: string -> nat, id: string, i: nat): nat {
    hash(Label(id, i))
  }

  lemma {:induction false} DigitsAreDigits(n: nat)
    ensures |Digits(n)| >= 1 && (|Digits(n)| == 1 <==> n < 10) && forall c :: c in Digits(n) ==> c != '-'
  {
    if n >= 10 { DigitsAreDigits(n / 10); }
  }

  lemma {:induction false} DigitsDiffer(m: nat, n: nat)
    requires Digits(m) == Digits(n)
    ensures m == n
    decreases m
  {
    DigitsAreDigits(m);
    DigitsAreDigits(n);
    if m >= 10 {
      var a, b := Digits(m), Digits(n);
      assert a[..|a| - 1] == Digits(m / 10) && b[..|b| - 1] == Digits(n / 10);
      DigitsDiffer(m / 10, n / 10);
      assert a[|a| - 1] == b[|b| - 1];
    }
  }

  lemma LastDash(a: string, d: string, j: nat)
    requires '-' !in d && j < |a + "-" + d| && (a + "-" + d)[j] == '-'
    ensures j <= |a|
  {
    assert forall i :: |a| < i < |a + "-" + d| ==> (a + "-" + d)[i] == d[i - |a| - 1];
  }

  // A text splits at its last dash in one way only.
  lemma DashSplits(a: string, d: string, a': string, d': string)
    requires a + "-" + d == a' + "-" + d' && '-' !in d && '-' !in d'
    ensures a == a' && d == d'
  {
    var whole := a + "-" + d;
    LastDash(a, d, |a'|);
    LastDash(a', d', |a|);
    assert whole[..|a|] == a && whole[..|a'|] == a';
    assert whole[|a| + 1..] == d && whole[|a'| + 1..] == d';
  }

  /** No two virtual nodes are hashed from the same text, whatever the nodes are called. */
  lemma LabelsDiffer(id: string, i: nat, id': string, i': nat)
    requires Label(id, i) == Label(id', i')
    ensures id == id' && i == i'
  {
    DigitsAreDigits(i);
    DigitsAreDigits(i');
    DashSplits(id, Digits(i), id', Digits(i'));
    DigitsDiffer(i, i');
  }

  ghost function Claims(hash: string -> nat, vnodes: nat, members: set<string>): set<Claim> {
    set m, i | m in members && 0 <= i < vnodes :: Claim(Position(hash, m, i), m)
  }

  // Every claimed position, and only those, belongs to its least claimant.
  ghost predicate Owns(nodeMap: map<nat, string>, claims: set<Claim>) {
    && (forall c :: c in claims ==> c.pos in nodeMap && (c.id == nodeMap[c.pos] || Keys.Less(nodeMap[c.pos], c.id)))
    && (forall p :: p in nodeMap ==> Claim(p, nodeMap[p]) in claims)
  }

  // The collision rule: a claim takes a free position, or one a higher id holds.
  function Claimed(nodeMap: map<nat, string>, c: Claim): map<nat, string> {
    if c.pos in nodeMap && !Keys.Less(c.id, nodeMap[c.pos]) then nodeMap else nodeMap[c.pos := c.id]
  }

  lemma ClaimKeepsLeast(nodeMap: map<nat, string>, claims: set<Claim>, c: Claim)
    requires Owns(nodeMap, claims)
    ensures Owns(Claimed(nodeMap, c), claims + {c})
  {
    var next := Claimed(nodeMap, c);
    if c.pos in nodeMap { Keys.LessTotal(c.id, nodeMap[c.pos]); }
    forall d | d in claims + {c} ensures d.pos in next && (d.id == next[d.pos] || Keys.Less(next[d.pos], d.id)) {
      if d in claims && d.pos == c.pos && Keys.Less(c.id, nodeMap[c.pos]) && d.id != nodeMap[c.pos] {
        Keys.LessTransitive(c.id, nodeMap[c.pos], d.id);
      }
    }
  }

  /** One owner map per set of claims: it does not depend on the order they were made in. */
  lemma OwnersAreUnique(a: map<nat, string>, b: map<nat, string>, claims: set<Claim>)
    requires Owns(a, claims) && Owns(b, claims)
    ensures a == b
  {
    forall p | p in a ensures p in b && a[p] == b[p] {
      assert Claim(p, a[p]) in claims;
      assert Claim(p, b[p]) in claims;
      Keys.LessIrreflexive(a[p]);
      if Keys.Less(a[p], b[p]) && Keys.Less(b[p], a[p]) { Keys.LessTransitive(a[p], b[p], a[p]); }
    }
    forall p | p in b ensures p in a {
      assert Claim(p, b[p]) in claims;
    }
  }

  // ---------------------------------------------------------------- the ring

  // The owned positions, ascending, with their owners.
  ghost predicate IsRing(ring: seq<nat>, nodeMap: map<nat, string>, claims: set<Claim>) {
    && Owns(nodeMap, claims)
    && Ascending(ring) && forall p :: p in ring <==> p in nodeMap
  }

  // ---------------------------------------------------------------- walking clockwise

  function Keep(ns: seq<nat>, p: nat -> bool): seq<nat> {
    if ns == [] then []
    else Keep(ns[..|ns| - 1], p) + (if p(ns[|ns| - 1]) then [ns[|ns| - 1]] else [])
  }

  function AtOrAfter(h: nat): nat -> bool {
    n => n >= h
  }

  function Before(h: nat): nat -> bool {
    n => n < h
  }

  function On(nodeMap: map<nat, string>): nat -> bool {
    p => p in nodeMap
  }

  // The ring's positions from h on, then around to those below it.
  function Clockwise(ring: seq<nat>, h: nat): seq<nat> {
    Keep(ring, AtOrAfter(h)) + Keep(ring, Before(h))
  }

  function OwnerAt(nodeMap: map<nat, string>, p: nat): string {
    if p in nodeMap then nodeMap[p] else ""
  }

  function Owners(nodeMap: map<nat, string>, ps: seq<nat>): (owners: seq<string>)
    ensures |owners| == |ps|
  {
    seq(|ps|, i requires 0 <= i < |ps| => OwnerAt(nodeMap, ps[i]))
  }

  function Chosen(owners: seq<string>, factor: nat): seq<string> {
    if 0 < factor < |Firsts(owners)| then Firsts(owners)[..factor] else Firsts(owners)
  }

  function PreferenceList(ring: seq<nat>, nodeMap: map<nat, string>, h: nat, factor: nat): seq<string> {
    Chosen(Owners(nodeMap, Clockwise(ring, h)), factor)
  }

  lemma {:induction false} KeepMembers(ns: seq<nat>, p: nat -> bool)
    ensures forall n :: n in Keep(ns, p) <==> n in ns && p(n)
    ensures |Keep(ns, p)| <= |ns|
  {
    if ns != [] {
      KeepMembers(ns[..|ns| - 1], p);
      assert ns == ns[..|ns| - 1] + [ns[|ns| - 1]];
    }
  }

  lemma {:induction false} KeepAscending(ns: seq<nat>, p: nat -> bool)
    requires Ascending(ns)
    ensures Ascending(Keep(ns, p))
  {
    if ns != [] {
      var front := ns[..|ns| - 1];
      KeepAscending(front, p);
      KeepMembers(front, p);
      assert forall i :: 0 <= i < |Keep(front, p)| ==> Keep(front, p)[i] in front;
    }
  }

  lemma {:induction false} KeepAll(ns: seq<nat>, p: nat -> bool)
    requires forall n :: n in ns ==> p(n)
    ensures Keep(ns, p) == ns
  {
    if ns != [] {
      KeepAll(ns[..|ns| - 1], p);
      assert ns[|ns| - 1] in ns;
    }
  }

  lemma {:induction false} KeepNone(ns: seq<nat>, p: nat -> bool)
    requires forall n :: n in ns ==> !p(n)
    ensures Keep(ns, p) == []
  {
    if ns != [] {
      KeepNone(ns[..|ns| - 1], p);
      assert ns[|ns| - 1] in ns;
    }
  }

  lemma {:induction false} KeepConcat(a: seq<nat>, b: seq<nat>, p: nat -> bool)
    ensures Keep(a + b, p) == Keep(a, p) + Keep(b, p)
  {
    if b == [] {
      assert a + b == a;
    } else {
      KeepConcat(a, b[..|b| - 1], p);
      assert (a + b)[..|a + b| - 1] == a + b[..|b| - 1];
    }
  }

  lemma {:induction false} KeepSwap(ns: seq<nat>, p: nat -> bool, q: nat -> bool)
    ensures Keep(Keep(ns, p), q) == Keep(Keep(ns, q), p)
  {
    if ns != [] {
      var front, last := ns[..|ns| - 1], ns[|ns| - 1];
      KeepSwap(front, p, q);
      assert [last][..0] == [];
      assert Keep([last], p) == (if p(last) then [last] else []);
      assert Keep([last], q) == (if q(last) then [last] else []);
      KeepConcat(Keep(front, p), Keep([last], p), q);
      KeepConcat(Keep(front, q), Keep([last], q), p);
    }
  }

  // Walking from the first position at or after h, around the sorted ring.
  lemma WalkFrom(ring: seq<nat>, h: nat, index: nat)
    requires Ascending(ring) && index <= |ring|
    requires forall i :: 0 <= i < index ==> ring[i] < h
    requires forall i :: index <= i < |ring| ==> ring[i] >= h
    ensures Clockwise(ring, h) == ring[index..] + ring[..index]
  {
    var low, high := ring[..index], ring[index..];
    assert ring == low + high;
    KeepsOne(low, high, AtOrAfter(h));
    KeepsOne(high, low, Before(h));
  }

  lemma KeepsOne(a: seq<nat>, b: seq<nat>, p: nat -> bool)
    requires (forall n :: n in a ==> !p(n)) && forall n :: n in b ==> p(n)
    ensures Keep(a + b, p) == b && Keep(b + a, p) == b
  {
    KeepNone(a, p);
    KeepAll(b, p);
    KeepConcat(a, b, p);
    KeepConcat(b, a, p);
  }

  method Search(ring: seq<nat>, h: nat) returns (index: nat)
    requires Ascending(ring)
    ensures index <= |ring|
    ensures forall i :: 0 <= i < index ==> ring[i] < h
    ensures forall i :: index <= i < |ring| ==> ring[i] >= h
  {
    var lo, hi := 0, |ring|;
    while lo < hi
      invariant lo <= hi <= |ring|
      invariant forall i :: 0 <= i < lo ==> ring[i] < h
      invariant forall i :: hi <= i < |ring| ==> ring[i] >= h
    {
      var mid := (lo + hi) / 2;
      if ring[mid] < h { lo := mid + 1; } else { hi := mid; }
    }
    index := lo;
  }

  // ---------------------------------------------------------------- building and asking a ring

  class HashRing {
    const hash: string -> nat
    const vnodes: nat
    var ring: seq<nat>
    var nodeMap: map<nat, string>

    ghost predicate Holds(members: set<string>)
      reads this
    {
      IsRing(ring, nodeMap, Claims(hash, vnodes, members))
    }

    constructor (hash: string -> nat, vnodes: nat)
      ensures this.hash == hash && this.vnodes == vnodes && Holds({})
    {
      this.hash, this.vnodes, ring, nodeMap := hash, vnodes, [], map[];
    }

    // Claims the node's positions; those newly claimed join the ring, which is then unsorted.
    method Place(id: string, ghost members: set<string>)
      requires Owns(nodeMap, Claims(hash, vnodes, members)) && Distinct(ring) && forall p :: p in ring <==> p in nodeMap
      modifies this
      ensures Owns(nodeMap, Claims(hash, vnodes, members + {id})) && Distinct(ring)
      ensures forall p :: p in ring <==> p in nodeMap
    {
      ghost var before := Claims(hash, vnodes, members);
      for i := 0 to vnodes
        invariant Owns(nodeMap, before + Claims(hash, i, {id})) && Distinct(ring)
        invariant forall p :: p in ring <==> p in nodeMap
      {
        var pos := Position(hash, id, i);
        ClaimKeepsLeast(nodeMap, before + Claims(hash, i, {id}), Claim(pos, id));
        OneMoreClaim(hash, before, id, i);
        if pos in nodeMap {
          if Keys.Less(id, nodeMap[pos]) {
            nodeMap := nodeMap[pos := id];
          }
        } else {
          nodeMap := nodeMap[pos := id];
          ring := ring + [pos];
        }
      }
      ClaimsOfMore(hash, vnodes, members, id);
    }

    method SortRing()
      requires Distinct(ring)
      modifies this`ring
      ensures Ascending(ring) && |ring| == |old(ring)| && forall p :: p in ring <==> p in old(ring)
    {
      var sorted := Sorted(set p | p in ring);
      SameLength(ring, sorted);
      ring := sorted;
    }

    method AddNode(id: string, ghost members: set<string>)
      requires Holds(members)
      modifies this
      ensures Holds(members + {id})
    {
      Place(id, members);
      SortRing();
    }

    /** The first `factor` distinct owners clockwise from the key's hash, or all of them when
        there are fewer (or when factor is 0). */
    method GetPreferenceList(key: string, factor: nat) returns (list: seq<string>)
      requires Ascending(ring) && forall p :: p in ring ==> p in nodeMap
      ensures list == PreferenceList(ring, nodeMap, hash(key), factor)
    {
      if |ring| == 0 {
        return [];
      }
      var found := Search(ring, hash(key));
      list := WalkRing(ring, nodeMap, hash(key), found, factor);
    }
  }

  // Around the whole ring at most once, from the position found (or the first one, past the end).
  method WalkRing(ring: seq<nat>, nodeMap: map<nat, string>, h: nat, found: nat, factor: nat) returns (list: seq<string>)
    requires Ascending(ring) && ring != [] && (forall p :: p in ring ==> p in nodeMap) && found <= |ring|
    requires (forall i :: 0 <= i < found ==> ring[i] < h) && forall i :: found <= i < |ring| ==> ring[i] >= h
    ensures list == PreferenceList(ring, nodeMap, h, factor)
  {
    WalkFrom(ring, h, found);
    ghost var walk := Owners(nodeMap, Clockwise(ring, h));
    var index := if found >= |ring| then 0 else found;
    list := [];
    var seen: set<string> := {};
    assert walk[..0] == [];
    for i := 0 to |ring|
      invariant list == Firsts(walk[..i]) && (factor > 0 ==> |list| < factor)
      invariant seen == Keys.Elements(walk[..i])
    {
      WalkStep(ring, nodeMap, h, found, index, i);
      var at := (index + i) % |ring|;
      assert ring[at] in ring;
      var id := nodeMap[ring[at]];
      assert id == walk[i];
      FirstsOnWalk(walk, i);
      if id !in seen {
        list := list + [id];
        if |list| == factor {
          ChosenEarly(walk, i + 1, factor);
          return;
        }
      }
      seen := seen + {id};
    }
    assert walk[..|ring|] == walk;
  }

  lemma FirstsOnWalk(ids: seq<string>, i: nat)
    requires i < |ids|
    ensures Firsts(ids[..i + 1]) == if ids[i] in Keys.Elements(ids[..i]) then Firsts(ids[..i]) else Firsts(ids[..i]) + [ids[i]]
    ensures Keys.Elements(ids[..i + 1]) == Keys.Elements(ids[..i]) + {ids[i]}
  {
    assert ids[..i + 1] == ids[..i] + [ids[i]];
    FirstsStep(ids[..i], ids[i]);
  }

  // Once enough owners are met, the rest of the walk does not matter.
  lemma ChosenEarly(ids: seq<string>, n: nat, factor: nat)
    requires n <= |ids| && 0 < factor == |Firsts(ids[..n])|
    ensures Chosen(ids, factor) == Firsts(ids[..n])
  {
    assert ids == ids[..n] + ids[n..];
    FirstsPrefix(ids[..n], ids[n..]);
  }

  lemma OneMoreClaim(hash: string -> nat, before: set<Claim>, id: string, i: nat)
    ensures before + Claims(hash, i + 1, {id}) == before + Claims(hash, i, {id}) + {Claim(Position(hash, id, i), id)}
  {
  }

  lemma ClaimsOfMore(hash: string -> nat, vnodes: nat, members: set<string>, id: string)
    ensures Claims(hash, vnodes, members + {id}) == Claims(hash, vnodes, members) + Claims(hash, vnodes, {id})
  {
  }

  // Builds a ring from a list of ids; an empty or repeated id is an error.
  method NewHashRingFromMembers(hash: string -> nat, vnodes: nat, ids: seq<string>) returns (r: Option<HashRing>)
    ensures r.Some? <==> "" !in ids && forall i, j :: 0 <= i < j < |ids| ==> ids[i] != ids[j]
    ensures r.Some? ==> fresh(r.value) && r.value.hash == hash && r.value.vnodes == vnodes
                        && r.value.Holds(Keys.Elements(ids))
  {
    var seen: set<string> := {};
    for i := 0 to |ids|
      invariant seen == Keys.Elements(ids[..i])
      invariant "" !in ids[..i] && forall a, b :: 0 <= a < b < i ==> ids[a] != ids[b]
    {
      if ids[i] == "" || ids[i] in seen { return None; }
      seen := seen + {ids[i]};
    }
    var hr := new HashRing(hash, vnodes);
    for i := 0 to |ids|
      invariant fresh(hr) && hr.hash == hash && hr.vnodes == vnodes
      invariant Owns(hr.nodeMap, Claims(hash, vnodes, Keys.Elements(ids[..i]))) && Distinct(hr.ring)
      invariant forall p :: p in hr.ring <==> p in hr.nodeMap
    {
      hr.Place(ids[i], Keys.Elements(ids[..i]));
      assert Keys.Elements(ids[..i + 1]) == Keys.Elements(ids[..i]) + {ids[i]};
    }
    assert ids[..|ids|] == ids;
    hr.SortRing();
    r := Some(hr);
  }

  lemma ModOnce(a: nat, n: nat)
    requires n > 0 && a < 2 * n
    ensures a % n == if a < n then a else a - n
  {
    if a >= n { assert a == 1 * n + (a - n); }
  }

  lemma WalkStep(ring: seq<nat>, nodeMap: map<nat, string>, h: nat, found: nat, index: nat, i: nat)
    requires found <= |ring| && i < |ring| && Clockwise(ring, h) == ring[found..] + ring[..found]
    requires index == if found == |ring| then 0 else found
    ensures Owners(nodeMap, Clockwise(ring, h))[i] == OwnerAt(nodeMap, ring[(index + i) % |ring|])
  {
    ModOnce(index + i, |ring|);
  }

  lemma {:induction false} SameLength(a: seq<nat>, b: seq<nat>)
    requires Distinct(a) && Distinct(b) && forall n :: n in a <==> n in b
    ensures |a| == |b|
  {
    if a == [] {
      HeadOrEmpty(b);
    } else {
      assert a[0] in b;
      var i :| 0 <= i < |b| && b[i] == a[0];
      var rest := b[..i] + b[i + 1..];
      forall n ensures n in a[1..] <==> n in rest {
        if n in a[1..] {
          assert n in a && n != a[0];
          var j :| 0 <= j < |b| && b[j] == n;
          assert n == if j < i then rest[j] else rest[j - 1];
        }
        if n in rest {
          var j :| 0 <= j < |rest| && rest[j] == n;
          assert n == b[if j < i then j else j + 1];
          assert n in a && n != a[0];
        }
      }
      SameLength(a[1..], rest);
    }
  }

  // ---------------------------------------------------------------- purity and locality

  /** Purity: two rings of one member set are equal, however they were built. */
  lemma RingIsFunctionOfMembers(r: seq<nat>, m: map<nat, string>, r': seq<nat>, m': map<nat, string>, claims: set<Claim>)
    requires IsRing(r, m, claims) && IsRing(r', m', claims)
    ensures r == r' && m == m'
  {
    OwnersAreUnique(m, m', claims);
    AscendingUnique(r, r');
  }

  ghost function ClaimsWithout(claims: set<Claim>, id: string): set<Claim> {
    set c | c in claims && c.id != id
  }

  lemma ClaimsAfterLeaving(hash: string -> nat, vnodes: nat, members: set<string>, id: string)
    ensures Claims(hash, vnodes, members - {id}) == ClaimsWithout(Claims(hash, vnodes, members), id)
  {
    var all, left := Claims(hash, vnodes, members), Claims(hash, vnodes, members - {id});
    forall c | c in ClaimsWithout(all, id) ensures c in left {
      var m, i :| m in members && 0 <= i < vnodes && c == Claim(Position(hash, m, i), m);
      assert m in members - {id};
    }
  }

  // A position another node owns stays its own when id leaves, and no position appears.
  lemma OthersKeepPositions(m: map<nat, string>, m': map<nat, string>, claims: set<Claim>, id: string)
    requires Owns(m, claims) && Owns(m', ClaimsWithout(claims, id))
    ensures forall p :: p in m' ==> p in m
    ensures forall p :: p in m && m[p] != id ==> p in m' && m'[p] == m[p]
  {
    forall p | p in m' ensures p in m {
      assert Claim(p, m'[p]) in claims;
    }
    forall p | p in m && m[p] != id ensures p in m' && m'[p] == m[p] {
      assert Claim(p, m[p]) in ClaimsWithout(claims, id);
      assert Claim(p, m'[p]) in claims;
      Keys.LessIrreflexive(m[p]);
      if Keys.Less(m[p], m'[p]) && Keys.Less(m'[p], m[p]) { Keys.LessTransitive(m[p], m'[p], m[p]); }
    }
  }

  // The smaller ring's walk is the larger one's with the vanished positions skipped.
  lemma WalkSkips(r: seq<nat>, m: map<nat, string>, r': seq<nat>, m': map<nat, string>, h: nat)
    requires Ascending(r) && Ascending(r') && (forall p :: p in r <==> p in m) && (forall p :: p in r' <==> p in m')
    requires forall p :: p in m' ==> p in m
    ensures Clockwise(r', h) == Keep(Clockwise(r, h), On(m'))
  {
    var stays, above, below := On(m'), AtOrAfter(h), Before(h);
    KeepAscending(r, stays);
    KeepMembers(r, stays);
    AscendingUnique(r', Keep(r, stays));
    KeepSwap(r, stays, above);
    KeepSwap(r, stays, below);
    KeepConcat(Keep(r, above), Keep(r, below), stays);
  }

  lemma PrefixOf(a: seq<nat>, b: seq<nat>)
    ensures (a + b)[..|a|] == a
  {
  }

  lemma KeepBegins(w: seq<nat>, p: nat -> bool, n: nat)
    requires n <= |w| && forall i :: 0 <= i < n ==> p(w[i])
    ensures n <= |Keep(w, p)| && Keep(w, p)[..n] == w[..n] && (n == |w| ==> Keep(w, p) == w)
  {
    var a, b := w[..n], w[n..];
    assert w == a + b;
    KeepAll(a, p);
    KeepConcat(a, b, p);
    PrefixOf(a, Keep(b, p));
    if n == |w| { NothingBeside(b, a); NothingBeside(Keep(b, p), a); }
  }

  // A part of the walk no vanished position is in begins the new walk too.
  lemma SharedBeginning(w: seq<nat>, m: map<nat, string>, m': map<nat, string>, id: string, n: nat)
    requires n <= |w| && forall i :: 0 <= i < n ==> w[i] in m && m[w[i]] != id
    requires forall p :: p in m && m[p] != id ==> p in m' && m'[p] == m[p]
    ensures var w' := Keep(w, On(m'));
            n <= |w'| && Owners(m', w')[..n] == Owners(m, w)[..n] && (n == |w| ==> w' == w)
  {
    KeepBegins(w, On(m'), n);
    var w' := Keep(w, On(m'));
    forall i | 0 <= i < n ensures Owners(m', w')[i] == Owners(m, w)[i] {
      assert w'[..n][i] == w[..n][i];
    }
  }

  // How much of the walk a list needs: none of it belongs to an id that is not on the list.
  lemma ListNeeds(owners: seq<string>, factor: nat, id: string) returns (n: nat)
    requires factor > 0 && id !in Chosen(owners, factor)
    ensures n <= |owners| && id !in owners[..n]
    ensures if factor <= |Firsts(owners)| then Firsts(owners[..n]) == Firsts(owners)[..factor] else n == |owners|
  {
    var firsts := Firsts(owners);
    if factor <= |firsts| {
      n := FirstsReached(owners, factor);
      assert factor == |firsts| ==> firsts[..factor] == firsts;
    } else {
      n := |owners|;
      assert owners[..n] == owners;
    }
    FirstsFacts(owners[..n]);
  }

  /** Locality: a member that is not on a key's preference list can leave, and the list stays
      the same, element for element, even where the leaver's positions go to others. Read the
      other way: a new member that does not join the list does not change it. */
  lemma LeavingKeepsOtherLists(hash: string -> nat, vnodes: nat, members: set<string>, id: string, h: nat, factor: nat,
                               r: seq<nat>, m: map<nat, string>, r': seq<nat>, m': map<nat, string>)
    requires IsRing(r, m, Claims(hash, vnodes, members)) && IsRing(r', m', Claims(hash, vnodes, members - {id}))
    requires factor > 0 && id !in PreferenceList(r, m, h, factor)
    ensures PreferenceList(r', m', h, factor) == PreferenceList(r, m, h, factor)
  {
    var w, w' := Clockwise(r, h), Clockwise(r', h);
    var o, o' := Owners(m, w), Owners(m', w');
    ClaimsAfterLeaving(hash, vnodes, members, id);
    OthersKeepPositions(m, m', Claims(hash, vnodes, members), id);
    WalkSkips(r, m, r', m', h);
    var n := ListNeeds(o, factor, id);
    forall i | 0 <= i < n ensures w[i] in m && m[w[i]] != id {
      WalkIsOnRing(r, h, w[i]);
      assert o[..n][i] == OwnerAt(m, w[i]);
    }
    SharedBeginning(w, m, m', id, n);
    SameChoice(o, o', n, factor);
  }

  lemma SameChoice(o: seq<string>, o': seq<string>, n: nat, factor: nat)
    requires factor > 0 && n <= |o| && n <= |o'| && o[..n] == o'[..n]
    requires if factor <= |Firsts(o)| then Firsts(o[..n]) == Firsts(o)[..factor] else n == |o| == |o'|
    ensures Chosen(o', factor) == Chosen(o, factor)
  {
    if factor <= |Firsts(o)| {
      ChosenEarly(o, n, factor);
      ChosenEarly(o', n, factor);
    } else {
      assert o'[..n] == o' && o[..n] == o;
    }
  }

  lemma WalkIsOnRing(ring: seq<nat>, h: nat, p: nat)
    requires p in Clockwise(ring, h)
    ensures p in ring
  {
    KeepMembers(ring, AtOrAfter(h));
    KeepMembers(ring, Before(h));
  }

  lemma WalkIsEmpty(ring: seq<nat>, h: nat)
    ensures Clockwise(ring, h) == [] <==> ring == []
  {
    KeepMembers(ring, AtOrAfter(h));
    KeepMembers(ring, Before(h));
    if ring != [] {
      assert ring[0] in ring;
      assert ring[0] in Keep(ring, AtOrAfter(h)) || ring[0] in Keep(ring, Before(h));
    }
  }

  /** A preference list has no repeats and only owners, and as many as asked for when the ring
      has that many. Asked for none, on a ring with any node, it is longer than asked: it then
      holds every owner. */
  lemma ListIsDistinctOwners(ring: seq<nat>, nodeMap: map<nat, string>, h: nat, factor: nat)
    ensures var list, owners := PreferenceList(ring, nodeMap, h, factor), Owners(nodeMap, Clockwise(ring, h));
            && (forall i, j :: 0 <= i < j < |list| ==> list[i] != list[j])
            && (forall id :: id in list ==> id in owners)
            && (|list| <= factor <==> factor > 0 || ring == [])
            && (|list| < factor || factor == 0 ==> forall id :: id in owners ==> id in list)
  {
    var owners := Owners(nodeMap, Clockwise(ring, h));
    FirstsFacts(owners);
    WalkIsEmpty(ring, h);
    if ring != [] { assert owners[0] in Firsts(owners); }
  }

  // ---------------------------------------------------------------- the nearest owners

  // Going round from h upwards, p is met before q.
  predicate Nearer(h: nat, p: nat, q: nat) {
    (p >= h && q < h) || ((p >= h <==> q >= h) && p < q)
  }

  lemma WalkIsInOrder(ring: seq<nat>, h: nat, i: nat, j: nat)
    requires Ascending(ring) && i < j < |Clockwise(ring, h)|
    ensures Nearer(h, Clockwise(ring, h)[i], Clockwise(ring, h)[j])
  {
    var high, low := Keep(ring, AtOrAfter(h)), Keep(ring, Before(h));
    KeepAscending(ring, AtOrAfter(h));
    KeepAscending(ring, Before(h));
    KeepMembers(ring, AtOrAfter(h));
    KeepMembers(ring, Before(h));
    if i < |high| { assert high[i] in high; } else { assert low[i - |high|] in low; }
    if j < |high| { assert high[j] in high; } else { assert low[j - |high|] in low; }
  }

  lemma WalkMeetsAll(ring: seq<nat>, h: nat, p: nat)
    requires p in ring
    ensures p in Clockwise(ring, h)
  {
    KeepMembers(ring, AtOrAfter(h));
    KeepMembers(ring, Before(h));
    assert p in Keep(ring, AtOrAfter(h)) || p in Keep(ring, Before(h));
  }

  // Where the i-th first occurrence is.
  lemma {:induction false} FirstPlace(s: seq<string>, i: nat) returns (k: nat)
    requires i < |Firsts(s)|
    ensures k < |s| && s[k] == Firsts(s)[i] && Firsts(s[..k]) == Firsts(s)[..i]
  {
    var front := s[..|s| - 1];
    if i < |Firsts(front)| {
      k := FirstPlace(front, i);
      assert front[..k] == s[..k];
    } else {
      k := |s| - 1;
    }
  }

  /** Who is on a preference list, without reference to how it is walked: the i-th is the owner of
      a position such that every position nearer to the key, going round upwards, belongs to one
      listed before. */
  lemma ListIsNearest(ring: seq<nat>, nodeMap: map<nat, string>, h: nat, factor: nat, i: nat)
    requires Ascending(ring) && (forall p :: p in ring <==> p in nodeMap)
    requires i < |PreferenceList(ring, nodeMap, h, factor)|
    ensures var list := PreferenceList(ring, nodeMap, h, factor);
            exists p :: p in nodeMap && nodeMap[p] == list[i]
              && forall q :: q in nodeMap && Nearer(h, q, p) ==> nodeMap[q] in list[..i]
  {
    var list, walk := PreferenceList(ring, nodeMap, h, factor), Clockwise(ring, h);
    var owners := Owners(nodeMap, walk);
    var k := FirstPlace(owners, i);
    var p := walk[k];
    WalkIsOnRing(ring, h, p);
    FirstsFacts(owners[..k]);
    assert list[..i] == Firsts(owners[..k]);
    forall q | q in nodeMap && Nearer(h, q, p) ensures nodeMap[q] in list[..i] {
      WalkMeetsAll(ring, h, q);
      var j :| 0 <= j < |walk| && walk[j] == q;
      if k < j { WalkIsInOrder(ring, h, k, j); }
      assert owners[..k][j] == nodeMap[q];
    }
  }
}
