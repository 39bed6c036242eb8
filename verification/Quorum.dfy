/**
 Quorum decisions of a coordinator: how a write and a read decide from results that arrive in
 any order, and what a write's decision does to its local copy and to the replicas it missed.
 */
module Quorum {
  import opened Wrappers
  import opened Sequences
  import opened Versions
  import Compaction

  // How a replica answered: a timeout or any other error is Failed.
  datatype Reply = Ok | Unavailable | Failed

  datatype Result = Result(peer: string, reply: Reply)

  // A write that is not stored was undone, or could not be; or the caller gave up; or this
  // node's own read or write failed and nothing was sent.
  datatype Decision = Stored | RolledBack | RollbackFailed | Canceled | NotRead | NotWritten

  function Acks(results: seq<Result>): nat {
    if results == [] then 0 else Acks(results[..|results| - 1]) + (if results[|results| - 1].reply.Ok? then 1 else 0)
  }

  // The replicas that were unreachable, in arrival order.
  function Missed(results: seq<Result>): seq<string> {
    if results == [] then []
    else
      var last := results[|results| - 1];
      Missed(results[..|results| - 1]) + (if last.reply.Unavailable? then [last.peer] else [])
  }

  lemma {:induction false} AcksConcat(a: seq<Result>, b: seq<Result>)
    ensures Acks(a + b) == Acks(a) + Acks(b) && Missed(a + b) == Missed(a) + Missed(b)
    ensures Acks(b) <= |b|
  {
    if b == [] {
      assert a + b == a;
    } else {
      AcksConcat(a, b[..|b| - 1]);
      assert (a + b)[..|a + b| - 1] == a + b[..|b| - 1];
    }
  }

  // ---------------------------------------------------------------- what they say

  // The i-th result is such a reply.
  function Replied(results: seq<Result>, reply: Reply): nat -> bool {
    (i: nat) => i < |results| && results[i].reply == reply
  }

  // The results that came with such a reply, by place.
  ghost function Places(results: seq<Result>, reply: Reply): set<nat> {
    set i: nat | i < |results| && results[i].reply == reply
  }

  // The peers are those of the results with such a reply: one for each, in the order they came.
  ghost predicate InOrder(results: seq<Result>, reply: Reply, peers: seq<string>) {
    exists at :: ListsPeers(results, reply, at, peers)
  }

  ghost predicate ListsPeers(results: seq<Result>, reply: Reply, at: seq<nat>, peers: seq<string>) {
    && Enumerates(at, |results|, Replied(results, reply)) && |at| == |peers|
    && forall k :: 0 <= k < |at| ==> at[k] < |results| && peers[k] == results[at[k]].peer
  }

  lemma {:induction false} AcksArePlaces(results: seq<Result>)
    ensures Acks(results) == |Places(results, Ok)|
  {
    if results == [] {
      assert Places(results, Ok) == {};
    } else {
      var n := |results| - 1;
      var front := results[..n];
      AcksArePlaces(front);
      assert Places(results, Ok) == Places(front, Ok) + (if results[n].reply.Ok? then {n} else {});
      assert n !in Places(front, Ok);
    }
  }

  lemma {:induction false} MissedPlaces(results: seq<Result>) returns (at: seq<nat>)
    ensures ListsPeers(results, Unavailable, at, Missed(results))
  {
    if results == [] {
      at := [];
    } else {
      var n := |results| - 1;
      var before := MissedPlaces(results[..n]);
      SamePlaces(results, n, before);
      at := MissedNext(results, n, before, Missed(results[..n]));
    }
  }

  lemma MissedNext(results: seq<Result>, n: nat, before: seq<nat>, peers: seq<string>) returns (at: seq<nat>)
    requires |results| == n + 1 && Enumerates(before, n, Replied(results, Unavailable)) && |before| == |peers|
    requires forall k :: 0 <= k < |before| ==> before[k] < n && peers[k] == results[before[k]].peer
    ensures ListsPeers(results, Unavailable, at, peers + (if results[n].reply.Unavailable? then [results[n].peer] else []))
  {
    EnumeratesMore(before, n, Replied(results, Unavailable));
    at := if results[n].reply.Unavailable? then before + [n] else before;
  }

  lemma SamePlaces(results: seq<Result>, n: nat, at: seq<nat>)
    requires n <= |results| && Enumerates(at, n, Replied(results[..n], Unavailable))
    ensures Enumerates(at, n, Replied(results, Unavailable))
  {
    assert forall i: nat :: i < n ==> results[..n][i] == results[i];
  }

  ghost predicate AreUnavailable(results: seq<Result>, peers: seq<string>) {
    InOrder(results, Unavailable, peers) && forall p :: p in peers <==> Result(p, Unavailable) in results
  }

  /** Who is missed, without reference to how it is counted: the peers of the results that were
      Unavailable, one for each, in the order they came; so no peer whose results are all others. */
  lemma MissedAreUnavailable(results: seq<Result>)
    ensures AreUnavailable(results, Missed(results))
  {
    var at := MissedPlaces(results);
    PeersOfPlaces(results, Unavailable, at, Missed(results));
  }

  lemma PeersOfPlaces(results: seq<Result>, reply: Reply, at: seq<nat>, peers: seq<string>)
    requires ListsPeers(results, reply, at, peers)
    ensures forall p :: p in peers <==> Result(p, reply) in results
  {
    forall p | p in peers ensures Result(p, reply) in results {
      var k :| 0 <= k < |peers| && peers[k] == p;
      assert Replied(results, reply)(at[k]) && results[at[k]] == Result(p, reply);
    }
    forall p | Result(p, reply) in results ensures p in peers {
      var i: nat :| i < |results| && results[i] == Result(p, reply);
      assert Replied(results, reply)(i);
      var k :| 0 <= k < |at| && at[k] == i;
      assert peers[k] == p;
    }
  }

  // ---------------------------------------------------------------- writing

  // Waits for the remaining results, then names the replicas to hint, if the write stands. Once
  // the node is closing, no drain starts.
  method DrainReplication(remaining: seq<Result>, unavailable: seq<string>, keep: bool, closing: bool) returns (hints: seq<string>)
    ensures hints == if keep && !closing then unavailable + Missed(remaining) else []
    ensures keep && !closing ==> unavailable <= hints && AreUnavailable(remaining, hints[|unavailable|..])
  {
    assert AreUnavailable(remaining, Missed(remaining)) by { MissedAreUnavailable(remaining); }
    if closing { return []; }
    var all := unavailable;
    for i := 0 to |remaining|
      invariant all == unavailable + Missed(remaining[..i])
    {
      assert remaining[..i + 1][..i] == remaining[..i];
      if remaining[i].reply.Unavailable? {
        all := all + [remaining[i].peer];
      }
    }
    assert remaining[..|remaining|] == remaining;
    hints := if keep then all else [];
    assert all[|unavailable|..] == Missed(remaining);
  }

  // What this node's own store does with a write: the read before it, the write itself, and
  // the versions put back should it be undone.
  datatype LocalStore = LocalStore(canRead: bool, canWrite: bool, canRestore: bool)

  /** The decision loop over the peers' results, in the order they arrive; the local write is
      one success. `canceledAt` is where the caller gave up, if it did. The write stands if and
      only if it and the peers' acks reach w (or the caller gave up first); exactly the
      unreachable peers are hinted when it stands (unless the node is closing), and none when
      it is undone, whether their result came before the decision or after. */
  method PutAsReplica(local: LocalStore, results: seq<Result>, w: nat, canceledAt: Option<nat>, closing: bool)
    returns (d: Decision, hints: seq<string>)
    ensures (d == NotRead <==> !local.canRead) && (d == NotWritten <==> local.canRead && !local.canWrite)
    ensures local.canRead && local.canWrite && canceledAt.None? ==>
              d == if 1 + Acks(results) >= w then Stored else if local.canRestore then RolledBack else RollbackFailed
    ensures d == Canceled <==> local.canRead && local.canWrite && canceledAt.Some? && Undecided(results, w, canceledAt.value)
    ensures d == Stored ==> 1 + Acks(results) >= w
    ensures d == RolledBack || d == RollbackFailed ==> 1 + Acks(results) < w && (d == RolledBack <==> local.canRestore)
    ensures hints == if (d == Stored || d == Canceled) && !closing then Missed(results) else []
    ensures Acks(results) == |Places(results, Ok)|
    ensures (d == Stored || d == Canceled) && !closing ==> AreUnavailable(results, hints)
  {
    assert AreUnavailable(results, Missed(results)) by { MissedAreUnavailable(results); }
    assert Acks(results) == |Places(results, Ok)| by { AcksArePlaces(results); }
    if !local.canRead { return NotRead, []; }
    if !local.canWrite { return NotWritten, []; }
    var successes, unavailable, received, canceled := AwaitAcks(results, w, canceledAt);
    Split(results, received);
    if !canceled && canceledAt.Some? { LaterIsDecided(results, w, received, canceledAt.value); }
    hints := DrainReplication(results[received..], unavailable, successes >= w || canceled, closing);
    d := if successes >= w then Stored else if canceled then Canceled
         else if local.canRestore then RolledBack else RollbackFailed;
    assert AreUnavailable(results, Missed(results)) by { MissedAreUnavailable(results); }
    AcksArePlaces(results);
  }

  // The decision loop: the acks it counted, this node's own among them, and the peers it found
  // unreachable, among the results it took; the rest are left to drain.
  method AwaitAcks(results: seq<Result>, w: nat, canceledAt: Option<nat>)
    returns (successes: nat, unavailable: seq<string>, received: nat, canceled: bool)
    ensures received <= |results| && successes == 1 + Acks(results[..received]) && unavailable == Missed(results[..received])
    ensures successes < w && !canceled && received < |results| ==> received > 0 && successes + (|results| - received) < w
    ensures canceled ==> canceledAt == Some(received) && Undecided(results, w, received)
    ensures canceledAt.Some? && !canceled ==> received <= canceledAt.value
  {
    var total, failures := |results| + 1, 0;
    successes, unavailable, received, canceled := 1, [], 0, false;
    assert results[..0] == [];
    if successes >= w { return; }
    while received < |results|
      invariant received <= |results| && successes == 1 + Acks(results[..received]) < w
      invariant unavailable == Missed(results[..received])
      invariant total - failures == successes + (|results| - received) && (received == 0 || total - failures >= w)
      invariant !canceled && (canceledAt.Some? ==> received <= canceledAt.value)
    {
      if canceledAt == Some(received) {
        canceled := true;
        return;
      }
      var res := results[received];
      NextResult(results, received);
      received := received + 1;
      if res.reply.Ok? {
        successes := successes + 1;
      } else {
        failures := failures + 1;
        if res.reply.Unavailable? {
          unavailable := unavailable + [res.peer];
        }
      }
      if successes >= w || total - failures < w { return; }
    }
  }

  // After the first n of the results the write neither has enough acks nor too many failures.
  // Before any came, only the former is asked.
  predicate Undecided(results: seq<Result>, w: nat, n: nat) {
    && n < |results| && 1 + Acks(results[..n]) < w
    && (n == 0 || 1 + Acks(results[..n]) + (|results| - n) >= w)
  }

  // Once decided, it stays so.
  lemma LaterIsDecided(results: seq<Result>, w: nat, m: nat, n: nat)
    requires m <= |results| && m <= n
    requires 1 + Acks(results[..m]) >= w || m == |results| || (m > 0 && 1 + Acks(results[..m]) + (|results| - m) < w)
    ensures !Undecided(results, w, n)
  {
    if n < |results| {
      assert results[..n] == results[..m] + results[m..n];
      AcksConcat(results[..m], results[m..n]);
    }
  }

  lemma NextResult(results: seq<Result>, i: nat)
    requires i < |results|
    ensures Acks(results[..i + 1]) == Acks(results[..i]) + (if results[i].reply.Ok? then 1 else 0)
    ensures Missed(results[..i + 1]) ==
            if results[i].reply.Unavailable? then Missed(results[..i]) + [results[i].peer] else Missed(results[..i])
  {
    assert results[..i + 1][..i] == results[..i];
    NothingBeside([], Missed(results[..i]));
  }

  lemma Split(results: seq<Result>, n: nat)
    requires n <= |results|
    ensures Acks(results) == Acks(results[..n]) + Acks(results[n..]) && Acks(results[n..]) <= |results| - n
    ensures Missed(results) == Missed(results[..n]) + Missed(results[n..])
  {
    assert results == results[..n] + results[n..];
    AcksConcat(results[..n], results[n..]);
  }

  // Taking one result out, from anywhere.
  lemma TakeOut(results: seq<Result>, i: nat)
    requires i < |results|
    ensures var rest, x := results[..i] + results[i + 1..], results[i];
            && multiset(results) == multiset(rest) + multiset{x}
            && Acks(results) == Acks(rest) + (if x.reply.Ok? then 1 else 0)
            && multiset(Missed(results)) == multiset(Missed(rest)) + multiset(Missed([x]))
  {
    var before, x, after := results[..i], results[i], results[i + 1..];
    assert results == before + [x] + after;
    AcksConcat(before, [x]);
    AcksConcat(before + [x], after);
    AcksConcat(before, after);
    assert [x][..0] == [];
  }

  lemma Cancel(p: multiset<Result>, q: multiset<Result>, x: Result)
    requires p + multiset{x} == q + multiset{x}
    ensures p == q
  {
    assert p == p + multiset{x} - multiset{x};
    assert q == q + multiset{x} - multiset{x};
  }

  lemma RestIsPermuted(a: seq<Result>, i: nat, b: seq<Result>, j: nat, a': seq<Result>, b': seq<Result>)
    requires i < |a| && j < |b| && a[i] == b[j] && multiset(a) == multiset(b)
    requires a' == a[..i] + a[i + 1..] && b' == b[..j] + b[j + 1..]
    ensures multiset(a') == multiset(b')
  {
    TakeOut(a, i);
    TakeOut(b, j);
    Cancel(multiset(a'), multiset(b'), a[i]);
  }

  lemma PutBothBack(a: seq<Result>, i: nat, b: seq<Result>, j: nat, a': seq<Result>, b': seq<Result>)
    requires i < |a| && j < |b| && a[i] == b[j] && a' == a[..i] + a[i + 1..] && b' == b[..j] + b[j + 1..]
    requires Acks(a') == Acks(b') && multiset(Missed(a')) == multiset(Missed(b'))
    ensures Acks(a) == Acks(b) && multiset(Missed(a)) == multiset(Missed(b))
  {
    TakenOut(a, i, a');
    TakenOut(b, j, b');
  }

  lemma TakenOut(results: seq<Result>, i: nat, rest: seq<Result>)
    requires i < |results| && rest == results[..i] + results[i + 1..]
    ensures Acks(results) == Acks(rest) + (if results[i].reply.Ok? then 1 else 0)
    ensures multiset(Missed(results)) == multiset(Missed(rest)) + multiset(Missed([results[i]]))
  {
    TakeOut(results, i);
  }

  lemma {:induction false} AcksArePermuted(a: seq<Result>, b: seq<Result>)
    requires multiset(a) == multiset(b)
    ensures Acks(a) == Acks(b) && multiset(Missed(a)) == multiset(Missed(b))
    decreases |a|
  {
    if a == [] {
      assert |b| == |multiset(b)| == |multiset(a)|;
    } else {
      assert a[0] in multiset(b);
      var j :| 0 <= j < |b| && b[j] == a[0];
      var a', b' := a[..0] + a[1..], b[..j] + b[j + 1..];
      RestIsPermuted(a, 0, b, j, a', b');
      AcksArePermuted(a', b');
      PutBothBack(a, 0, b, j, a', b');
    }
  }

  /** The decision does not depend on the order results arrive in: for the same replies, the
      same outcome and the same replicas hinted, once each. */
  lemma DecisionIgnoresOrder(a: seq<Result>, b: seq<Result>, w: nat)
    requires multiset(a) == multiset(b)
    ensures 1 + Acks(a) >= w <==> 1 + Acks(b) >= w
    ensures multiset(Missed(a)) == multiset(Missed(b))
  {
    AcksArePermuted(a, b);
  }

  // ---------------------------------------------------------------- forwarding

  // What trying one replica gives.
  datatype Attempt = Dead | NoConnection | Accepted | Unreachable | NotReplica | OtherError

  // The replica may have applied the write.
  predicate MayHaveApplied(a: Attempt) {
    a.Accepted? || a.OtherError?
  }

  /** A write is handed to replicas in order, going on only while it was certainly not applied:
      it is versioned at most once, and refused as unavailable only if nobody applied it. */
  method ForwardPut(attempts: seq<Attempt>) returns (tried: nat, outcome: Attempt)
    ensures tried <= |attempts|
    ensures forall i :: 0 <= i < tried - 1 ==> !MayHaveApplied(attempts[i])
    ensures outcome.Unreachable? ==> tried == |attempts| && forall i :: 0 <= i < |attempts| ==> !MayHaveApplied(attempts[i])
    ensures !outcome.Unreachable? ==> MayHaveApplied(outcome) && 0 < tried && attempts[tried - 1] == outcome
  {
    tried := 0;
    while tried < |attempts|
      invariant tried <= |attempts| && forall i :: 0 <= i < tried ==> !MayHaveApplied(attempts[i])
    {
      var a := attempts[tried];
      tried := tried + 1;
      if a == Dead || a == NoConnection { continue; }
      if a == Accepted { return tried, Accepted; }
      if a != Unreachable && a != NotReplica { return tried, OtherError; }
    }
    outcome := Unreachable;
  }

  // ---------------------------------------------------------------- reading

  // The answers that came, in order.
  function Answers(results: seq<Option<seq<Item>>>): seq<seq<Item>> {
    if results == [] then []
    else
      var last := results[|results| - 1];
      Answers(results[..|results| - 1]) + (if last.Some? then [last.value] else [])
  }

  // Merged in that order, after this node's own set if it is a replica.
  function Gathered(local: seq<Item>, answers: seq<seq<Item>>): seq<Item> {
    if answers == [] then local else Merge(Gathered(local, answers[..|answers| - 1]), answers[|answers| - 1])
  }

  lemma {:induction false} GatheredCovers(local: seq<Item>, answers: seq<seq<Item>>, y: Item)
    requires Covered(y, local) || exists i :: 0 <= i < |answers| && Covered(y, answers[i])
    ensures Covered(y, Gathered(local, answers))
  {
    if answers != [] {
      var n := |answers| - 1;
      var front, last := Gathered(local, answers[..n]), answers[n];
      MergeCovers(front, last, y);
      if Covered(y, local) {
        GatheredCovers(local, answers[..n], y);
      } else {
        var i :| 0 <= i < |answers| && Covered(y, answers[i]);
        if i < n {
          assert Covered(y, answers[..n][i]);
          GatheredCovers(local, answers[..n], y);
        }
      }
      if Covered(y, front) {
        var x :| x in front && Covers(x, y);
        assert x in front + last;
      } else {
        var x :| x in last && Covers(x, y);
        assert x in front + last;
      }
    }
  }

  // The i-th result is an answer.
  function Came(results: seq<Option<seq<Item>>>): nat -> bool {
    (i: nat) => i < |results| && results[i].Some?
  }

  // The answers are those of the first n results that came, in order.
  ghost predicate FirstAnswers(results: seq<Option<seq<Item>>>, n: nat, answers: seq<seq<Item>>) {
    n <= |results| && exists at :: ListsAnswers(results, n, at, answers)
  }

  ghost predicate ListsAnswers(results: seq<Option<seq<Item>>>, n: nat, at: seq<nat>, answers: seq<seq<Item>>) {
    && Enumerates(at, n, Came(results)) && |at| == |answers|
    && forall k :: 0 <= k < |at| ==> at[k] < |results| && results[at[k]] == Some(answers[k])
  }

  lemma {:induction false} AnswersPlaces(results: seq<Option<seq<Item>>>, n: nat) returns (at: seq<nat>)
    requires n <= |results|
    ensures ListsAnswers(results, n, at, Answers(results[..n]))
  {
    if n == 0 {
      at := [];
    } else {
      var before := AnswersPlaces(results, n - 1);
      NextAnswer(results, n - 1);
      at := AnswerAt(results, n - 1, before, Answers(results[..n - 1]));
    }
  }

  lemma AnswerAt(results: seq<Option<seq<Item>>>, n: nat, before: seq<nat>, answers: seq<seq<Item>>) returns (at: seq<nat>)
    requires n < |results| && ListsAnswers(results, n, before, answers)
    ensures ListsAnswers(results, n + 1, at, if results[n].Some? then answers + [results[n].value] else answers)
  {
    EnumeratesMore(before, n, Came(results));
    at := if results[n].Some? then before + [n] else before;
  }

  // Gathering the answers one by one is one merge of them all.
  lemma {:induction false} GatheredIsMerge(local: seq<Item>, answers: seq<seq<Item>>)
    ensures Gathered(local, answers) == Merge(local, Compaction.Concat(answers))
  {
    if answers != [] {
      var n := |answers| - 1;
      GatheredIsMerge(local, answers[..n]);
      MergeConcat(local, Compaction.Concat(answers[..n]), answers[n]);
    }
  }

  /** What is gathered: from a sibling set, a sibling set, of versions that were there or
      answered, with exactly the maximal clocks of them all. */
  lemma GatheredIsMaximal(local: seq<Item>, answers: seq<seq<Item>>)
    requires Antichain(local)
    ensures var r, all := Gathered(local, answers), local + Compaction.Concat(answers);
            Antichain(r) && Subset(r, all) && ClockSet(r) == MaximalClocks(all)
  {
    var more := Compaction.Concat(answers);
    GatheredIsMerge(local, answers);
    MergeKeepsAntichain(local, more);
    MergeMembers(local, more);
    MergeHoldsMaximal(local, more);
  }

  lemma {:induction false} AnswersConcat(a: seq<Option<seq<Item>>>, b: seq<Option<seq<Item>>>)
    ensures Answers(a + b) == Answers(a) + Answers(b) && |Answers(b)| <= |b|
  {
    if b == [] {
      assert a + b == a;
    } else {
      AnswersConcat(a, b[..|b| - 1]);
      assert (a + b)[..|a + b| - 1] == a + b[..|b| - 1];
    }
  }

  // After the first n of the results the read neither has enough answers, counting this node's
  // own, nor too many failures. Before any came, only the former is asked.
  predicate StillReading(own: nat, results: seq<Option<seq<Item>>>, r: nat, n: nat) {
    && n < |results| && own + |Answers(results[..n])| < r
    && (n == 0 || Waiting(own + |Answers(results[..n])|, |results| - n, r))
  }

  // So many answers, with so many results to come, can still be enough.
  predicate Waiting(count: nat, left: nat, r: nat) {
    count + left >= r
  }

  // Once decided, it stays so.
  lemma LaterIsRead(own: nat, results: seq<Option<seq<Item>>>, r: nat, m: nat, n: nat)
    requires m <= |results| && m <= n
    requires own + |Answers(results[..m])| >= r || m == |results| || (m > 0 && !Waiting(own + |Answers(results[..m])|, |results| - m, r))
    ensures !StillReading(own, results, r, n)
  {
    if n < |results| {
      assert results[..n] == results[..m] + results[m..n];
      AnswersConcat(results[..m], results[m..n]);
    }
  }

  lemma NextAnswer(results: seq<Option<seq<Item>>>, i: nat)
    requires i < |results|
    ensures var before, now := Answers(results[..i]), Answers(results[..i + 1]);
            && now == (if results[i].Some? then before + [results[i].value] else before)
            && now <= Answers(results) && |Answers(results)| <= |now| + |results| - (i + 1)
  {
    assert results[..i + 1][..i] == results[..i];
    AnswersConcat(results[..i + 1], results[i + 1..]);
    assert results == results[..i + 1] + results[i + 1..];
  }

  lemma GatherNext(local: seq<Item>, answers: seq<seq<Item>>, more: seq<Item>)
    ensures Gathered(local, answers + [more]) == Merge(Gathered(local, answers), more)
  {
    assert (answers + [more])[..|answers|] == answers;
  }

  // This node's own answer, if it has one.
  function Own(local: Option<seq<Item>>): seq<Item> {
    if local.Some? then local.value else []
  }

  function Mine(local: Option<seq<Item>>): nat {
    if local.Some? then 1 else 0
  }

  // The decision loop: how many results it heard, how many answers it then had, counting its own,
  // and their merge.
  method Gather(isReplica: bool, local: Option<seq<Item>>, results: seq<Option<seq<Item>>>, r: nat, canceledAt: Option<nat>)
    returns (merged: seq<Item>, responses: nat, canceled: bool, heard: nat)
    requires local.Some? ==> isReplica
    ensures heard <= |results| && responses == Mine(local) + |Answers(results[..heard])|
    ensures merged == Gathered(Own(local), Answers(results[..heard]))
    ensures responses <= r || heard == 0
    ensures responses < r && !canceled && heard < |results| ==> heard > 0 && responses + (|results| - heard) < r
    ensures canceled ==> canceledAt == Some(heard) && heard < |results| && responses < r
    ensures canceled ==> heard == 0 || responses + (|results| - heard) >= r
    ensures canceledAt.Some? && !canceled ==> heard <= canceledAt.value
  {
    var total, failures := |results|, 0;
    merged, responses, canceled, heard := [], 0, false, 0;
    if isReplica {
      total := total + 1;
      if local.None? { failures := 1; } else { merged, responses := local.value, 1; }
    }
    assert Answers(results[..0]) == [];
    if responses >= r { return; }
    while heard < |results|
      invariant heard <= |results| && responses == Mine(local) + |Answers(results[..heard])| < r
      invariant merged == Gathered(Own(local), Answers(results[..heard]))
      invariant total - failures == responses + (|results| - heard) && (heard == 0 || total - failures >= r)
      invariant !canceled && (canceledAt.Some? ==> heard <= canceledAt.value)
    {
      if canceledAt == Some(heard) {
        canceled := true;
        return;
      }
      merged, responses, failures := TakeResult(local, results, heard, merged, responses, failures);
      heard := heard + 1;
      if responses >= r || total - failures < r { return; }
    }
  }

  method TakeResult(local: Option<seq<Item>>, results: seq<Option<seq<Item>>>, i: nat, merged: seq<Item>, responses: nat, failures: int)
    returns (merged': seq<Item>, responses': nat, failures': int)
    requires i < |results| && responses == Mine(local) + |Answers(results[..i])|
    requires merged == Gathered(Own(local), Answers(results[..i]))
    ensures responses' == Mine(local) + |Answers(results[..i + 1])| && merged' == Gathered(Own(local), Answers(results[..i + 1]))
    ensures responses <= responses' && responses' + failures' == responses + failures + 1 && failures <= failures'
  {
    NextAnswer(results, i);
    if results[i].None? {
      return merged, responses, failures + 1;
    }
    GatherNext(Own(local), Answers(results[..i]), results[i].value);
    return Merge(merged, results[i].value), responses + 1, failures;
  }

  /** Unless the caller gives up while it is undecided, a read succeeds if and only if this node's
      own answer and its peers' reach r, whatever the order, and returns the merge of the first r.
      `local` is this node's own set: None when it is no replica or its own read failed,
      `isReplica` telling which. */
  method Get(isReplica: bool, local: Option<seq<Item>>, results: seq<Option<seq<Item>>>, r: nat, canceledAt: Option<nat>)
    returns (merged: Option<seq<Item>>, canceled: bool, ghost heard: nat)
    requires local.Some? ==> isReplica
    ensures canceled <==> canceledAt.Some? && StillReading(Mine(local), results, r, canceledAt.value)
    ensures canceled ==> merged.None?
    ensures !canceled ==> (merged.Some? <==> Mine(local) + |Answers(results)| >= r)
    ensures merged.Some? ==> heard <= |results|
    ensures merged.Some? ==> Mine(local) + |Answers(results[..heard])| == r || heard == 0
    ensures merged.Some? ==> merged.value == Gathered(Own(local), Answers(results[..heard]))
    ensures merged.Some? ==> IsRead(local, results, heard, merged.value)
  {
    var all, responses, n;
    all, responses, canceled, n := Gather(isReplica, local, results, r, canceledAt);
    heard := n;
    HeardOfAll(results, heard);
    merged := if responses >= r then Some(all) else None;
    if merged.Some? { ReadIsExact(local, results, heard); }
    if !canceled && canceledAt.Some? { LaterIsRead(Mine(local), results, r, heard, canceledAt.value); }
  }

  lemma HeardOfAll(results: seq<Option<seq<Item>>>, n: nat)
    requires n <= |results|
    ensures |Answers(results[..n])| <= |Answers(results)| <= |Answers(results[..n])| + (|results| - n)
    ensures n == |results| ==> Answers(results[..n]) == Answers(results)
  {
    AnswersConcat(results[..n], results[n..]);
    assert results == results[..n] + results[n..];
  }

  // r is this node's own set and the answers merged in order: if that was a sibling set, then so
  // is r, of versions there or answered, and its clocks are the maximal ones of them all.
  ghost predicate IsMergeOf(own: seq<Item>, answers: seq<seq<Item>>, r: seq<Item>) {
    var all := own + Compaction.Concat(answers);
    && r == Merge(own, Compaction.Concat(answers))
    && (Antichain(own) ==> Antichain(r) && Subset(r, all) && ClockSet(r) == MaximalClocks(all))
  }

  // The answers used are exactly those among the first n results, in order, and r is their merge
  // with this node's own set.
  ghost predicate IsRead(local: Option<seq<Item>>, results: seq<Option<seq<Item>>>, n: nat, r: seq<Item>) {
    exists used :: FirstAnswers(results, n, used) && IsMergeOf(Own(local), used, r)
  }

  lemma ReadIsExact(local: Option<seq<Item>>, results: seq<Option<seq<Item>>>, n: nat)
    requires n <= |results|
    ensures IsRead(local, results, n, Gathered(Own(local), Answers(results[..n])))
  {
    var used, own := Answers(results[..n]), Own(local);
    var at := AnswersPlaces(results, n);
    assert FirstAnswers(results, n, used);
    GatheredIsMerge(own, used);
    if Antichain(own) { GatheredIsMaximal(own, used); }
    assert IsMergeOf(own, used, Gathered(own, used));
  }
}
