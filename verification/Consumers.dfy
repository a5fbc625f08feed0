/** The market data consumer: gap detection on the incremental stream and recovery from snapshot cycles. */
module Consumers {
  import opened Types
  import opened Snapshots

  type Queued = map<nat, Update>

  datatype State = State(next: nat, inRecovery: bool, snapshot: Queued, incremental: Queued, forwarded: seq<Update>)

  /** Messages that carry book data, as opposed to the marks of a cycle. */
  predicate IsData(u: Update) {
    u.kind != SNAPSHOT_START && u.kind != SNAPSHOT_END
  }

  function Data(us: seq<Update>): seq<Update> {
    if us == [] then [] else (if IsData(us[0]) then [us[0]] else []) + Data(us[1..])
  }

  /** The first number from n on that is not queued. */
  function FirstMissing(q: Queued, n: nat): (e: nat)
    ensures e >= n
    ensures e !in q
    ensures forall k: nat :: n <= k < e ==> k in q
    decreases |q|
  {
    if n in q then
      assert |q.Keys| == |(q - {n}).Keys| + 1 by { assert (q - {n}).Keys == q.Keys - {n}; }
      var e := FirstMissing(q - {n}, n + 1);
      assert e !in q - {n};
      QueuedUpTo(q, n, e);
      e
    else n
  }

  lemma QueuedUpTo(q: Queued, n: nat, e: nat)
    requires n in q && forall k: nat :: n + 1 <= k < e ==> k in q - {n}
    ensures forall k: nat :: n <= k < e ==> k in q
  {
    forall k: nat | n <= k < e
      ensures k in q
    {
      assert k > n ==> k in q - {n};
    }
  }

  /** The queued messages numbered from lo up to hi. */
  function Span(q: Queued, lo: nat, hi: nat): seq<Update>
    requires lo <= hi && forall k: nat :: lo <= k < hi ==> k in q
    decreases hi - lo
  {
    if lo == hi then [] else [q[lo]] + Span(q, lo + 1, hi)
  }

  /** The keys are exactly 0, 1, ... without a gap. */
  ghost predicate Contiguous(q: Queued) {
    forall k: nat :: k in q <==> k < |q|
  }

  /** Nothing is queued beyond the first missing number. */
  ghost predicate NoGap(q: Queued, n: nat) {
    forall k: nat :: k in q ==> k < FirstMissing(q, n)
  }

  ghost predicate StartsWithStart(q: Queued) {
    exists k: nat :: k in q && (forall j: nat :: j in q ==> k <= j) && q[k].kind == SNAPSHOT_START
  }

  /** The queued snapshot messages are a gapless sequence that starts with START and stops with END. */
  ghost predicate Complete(q: Queued) {
    |q| > 0 && Contiguous(q) && StartsWithStart(q) && |q| - 1 in q && q[|q| - 1].kind == SNAPSHOT_END
  }

  /** checkSnapshotSync: what becomes of the queues. */
  ghost function Sync(s: State): State {
    if s.snapshot == map[] then s
    else if !StartsWithStart(s.snapshot) || !Contiguous(s.snapshot) then s.(snapshot := map[])
    else if !Complete(s.snapshot) then s
    else Recover(s, s.snapshot[|s.snapshot| - 1].id + 1, Data(Span(s.snapshot, 0, |s.snapshot|)))
  }

  /**
   * The end of checkSnapshotSync for a complete snapshot: the queued incrementals from the given number must follow on.
   */
  ghost function Recover(s: State, from: nat, events: seq<Update>): State {
    var e := FirstMissing(s.incremental, from);
    if NoGap(s.incremental, from) then
      State(e, false, map[], map[], s.forwarded + events + Data(Span(s.incremental, from, e)))
    else
      s.(next := e, snapshot := map[])
  }

  /** queueMessage: a snapshot number seen twice restarts the snapshot queue. */
  ghost function Enqueue(s: State, isSnapshot: bool, m: Message): State {
    if isSnapshot then
      var q := if m.seqNum in s.snapshot then map[] else s.snapshot;
      s.(snapshot := q[m.seqNum := m.update])
    else
      s.(incremental := s.incremental[m.seqNum := m.update])
  }

  /** The body of the receive loop for one message. */
  ghost function Receive(s: State, isSnapshot: bool, m: Message): State {
    if s.inRecovery then Sync(Enqueue(s, isSnapshot, m))
    else if m.seqNum != s.next then
      Sync(Enqueue(s.(inRecovery := true, snapshot := map[], incremental := map[]), isSnapshot, m))
    else if !isSnapshot then s.(next := s.next + 1, forwarded := s.forwarded + [m.update])
    else s
  }

  ghost function ReceiveAll(s: State, isSnapshot: bool, ms: seq<Message>): State {
    if ms == [] then s
    else Receive(ReceiveAll(s, isSnapshot, ms[..|ms| - 1]), isSnapshot, ms[|ms| - 1])
  }

  /** recvCallback: a buffer from the snapshot socket is dropped as a whole outside recovery. */
  ghost function Callback(s: State, isSnapshot: bool, ms: seq<Message>): State {
    if isSnapshot && !s.inRecovery then s else ReceiveAll(s, isSnapshot, ms)
  }

  function UpdatesOf(ms: seq<Message>): (us: seq<Update>)
    ensures |us| == |ms| && forall i :: 0 <= i < |ms| ==> us[i] == ms[i].update
  {
    seq(|ms|, i requires 0 <= i < |ms| => ms[i].update)
  }

  /** Outside recovery incremental messages with the numbers expected are all forwarded, and nothing else happens. */
  lemma {:induction false} ExpectedAreForwarded(s: State, ms: seq<Message>)
    requires !s.inRecovery && forall i :: 0 <= i < |ms| ==> ms[i].seqNum == s.next + i
    ensures ReceiveAll(s, false, ms) == s.(next := s.next + |ms|, forwarded := s.forwarded + UpdatesOf(ms))
  {
    if ms == [] {
      assert s.forwarded + UpdatesOf(ms) == s.forwarded;
    } else {
      var init, m := ms[..|ms| - 1], ms[|ms| - 1];
      ExpectedAreForwarded(s, init);
      assert UpdatesOf(ms) == UpdatesOf(init) + [m.update];
      assert s.forwarded + UpdatesOf(ms) == (s.forwarded + UpdatesOf(init)) + [m.update];
    }
  }

  // ----- the object

  lemma {:induction false} HasMinimum(s: set<nat>)
    requires s != {}
    ensures exists k :: k in s && forall j :: j in s ==> k <= j
  {
    var x :| x in s;
    if s != {x} {
      HasMinimum(s - {x});
      var k :| k in s - {x} && forall j :: j in s - {x} ==> k <= j;
      assert forall j :: j in s ==> j == x || j in s - {x};
      assert if x <= k then x in s && forall j :: j in s ==> x <= j else k in s && forall j :: j in s ==> k <= j;
    } else {
      assert x in s && forall j :: j in s ==> x <= j;
    }
  }

  ghost predicate Increasing(ks: seq<nat>) {
    forall i, j :: 0 <= i < j < |ks| ==> ks[i] < ks[j]
  }

  lemma SmallestFirst(k: nat, rest: seq<nat>, keys: set<nat>)
    requires Increasing(rest) && k in keys && (forall j :: j in keys ==> k <= j)
    requires forall j: nat :: j in rest <==> j in keys - {k}
    ensures Increasing([k] + rest) && forall j: nat :: j in [k] + rest <==> j in keys
  {
    forall i | 0 <= i < |rest|
      ensures k < rest[i]
    {
      assert rest[i] in rest;
    }
  }

  /** The keys of a queue in the order in which it is traversed. */
  method SortedKeys(keys: set<nat>) returns (ks: seq<nat>)
    ensures Increasing(ks) && |ks| == |keys|
    ensures forall k: nat :: k in ks <==> k in keys
    decreases keys
  {
    if keys == {} {
      return [];
    }
    HasMinimum(keys);
    var k :| k in keys && forall j :: j in keys ==> k <= j;
    var rest := SortedKeys(keys - {k});
    SmallestFirst(k, rest, keys);
    ks := [k] + rest;
  }

  lemma SpanTake(q: Queued, lo: nat, hi: nat)
    requires lo <= hi && (forall k: nat :: lo <= k < hi ==> k in q) && hi in q
    ensures Span(q, lo, hi + 1) == Span(q, lo, hi) + [q[hi]]
    decreases hi - lo
  {
    if lo < hi {
      SpanTake(q, lo + 1, hi);
    }
  }

  lemma {:induction false} DataConcat(a: seq<Update>, b: seq<Update>)
    ensures Data(a + b) == Data(a) + Data(b)
  {
    if a == [] {
      assert a + b == b;
    } else {
      var head := if IsData(a[0]) then [a[0]] else [];
      assert (a + b)[1..] == a[1..] + b && (a + b)[0] == a[0];
      DataConcat(a[1..], b);
      assert head + (Data(a[1..]) + Data(b)) == (head + Data(a[1..])) + Data(b);
    }
  }

  lemma DataOne(u: Update)
    ensures Data([u]) == if IsData(u) then [u] else []
  {
    assert [u][1..] == [];
  }

  class MarketDataConsumer {
    var nextExpIncSeqNum: nat
    var inRecovery: bool
    var snapshotQueuedMsgs: Queued
    var incrementalQueuedMsgs: Queued
    var incomingMdUpdates: seq<Update>

    ghost function Now(): State
      reads this
    {
      State(nextExpIncSeqNum, inRecovery, snapshotQueuedMsgs, incrementalQueuedMsgs, incomingMdUpdates)
    }

    constructor ()
      ensures Now() == State(1, false, map[], map[], [])
    {
      nextExpIncSeqNum, inRecovery := 1, false;
      snapshotQueuedMsgs, incrementalQueuedMsgs, incomingMdUpdates := map[], map[], [];
    }

    method StartSnapshotSync()
      modifies this`snapshotQueuedMsgs, this`incrementalQueuedMsgs
      ensures Now() == old(Now()).(snapshot := map[], incremental := map[])
    {
      snapshotQueuedMsgs, incrementalQueuedMsgs := map[], map[];
    }

    /** The snapshot part of checkSnapshotSync: the queue's data, or a gap. */
    method CollectSnapshot(ks: seq<nat>) returns (complete: bool, events: seq<Update>)
      requires Increasing(ks) && |ks| == |snapshotQueuedMsgs|
      requires forall k: nat :: k in ks <==> k in snapshotQueuedMsgs
      ensures complete <==> Contiguous(snapshotQueuedMsgs)
      ensures complete ==> events == Data(Span(snapshotQueuedMsgs, 0, |snapshotQueuedMsgs|))
    {
      events := [];
      var nextSnapshotSeq := 0;
      for i := 0 to |ks|
        invariant nextSnapshotSeq == i
        invariant forall j :: 0 <= j < i ==> ks[j] == j
        invariant forall j :: 0 <= j < i ==> j in snapshotQueuedMsgs
        invariant events == Data(Span(snapshotQueuedMsgs, 0, i))
      {
        assert ks[i] in ks;
        if ks[i] != nextSnapshotSeq {
          NotAKey(ks, i);
          return false, events;
        }
        var u := snapshotQueuedMsgs[ks[i]];
        SpanTake(snapshotQueuedMsgs, 0, i);
        DataConcat(Span(snapshotQueuedMsgs, 0, i), [u]);
        DataOne(u);
        if IsData(u) {
          events := events + [u];
        }
        nextSnapshotSeq := nextSnapshotSeq + 1;
      }
      forall k: nat | k < |snapshotQueuedMsgs|
        ensures k in snapshotQueuedMsgs
      {
        assert ks[k] == k;
      }
      return true, events;
    }

    /** The incremental part of checkSnapshotSync: advances the expected number over what is queued, or finds a gap. */
    method CollectIncrementals(ks: seq<nat>) returns (complete: bool, events: seq<Update>)
      requires Increasing(ks)
      requires forall k: nat :: k in ks <==> k in incrementalQueuedMsgs
      modifies this`nextExpIncSeqNum
      ensures nextExpIncSeqNum == FirstMissing(incrementalQueuedMsgs, old(nextExpIncSeqNum))
      ensures complete <==> NoGap(incrementalQueuedMsgs, old(nextExpIncSeqNum))
      ensures complete ==> events == Data(Span(incrementalQueuedMsgs, old(nextExpIncSeqNum), nextExpIncSeqNum))
    {
      events := [];
      ghost var from := nextExpIncSeqNum;
      ghost var q := incrementalQueuedMsgs;
      for i := 0 to |ks|
        invariant nextExpIncSeqNum >= from && forall k: nat :: from <= k < nextExpIncSeqNum ==> k in q
        invariant forall j :: 0 <= j < i ==> ks[j] < nextExpIncSeqNum
        invariant events == Data(Span(q, from, nextExpIncSeqNum))
        invariant nextExpIncSeqNum in q ==> exists j :: i <= j < |ks| && ks[j] == nextExpIncSeqNum
      {
        assert ks[i] in ks;
        if ks[i] < nextExpIncSeqNum {
          continue;
        }
        if ks[i] != nextExpIncSeqNum {
          assert nextExpIncSeqNum !in q;
          MissingIs(q, from, nextExpIncSeqNum);
          return false, events;
        }
        var u := incrementalQueuedMsgs[ks[i]];
        SpanTake(q, from, nextExpIncSeqNum);
        DataConcat(Span(q, from, nextExpIncSeqNum), [u]);
        DataOne(u);
        if IsData(u) {
          events := events + [u];
        }
        nextExpIncSeqNum := nextExpIncSeqNum + 1;
        if nextExpIncSeqNum in q {
          assert nextExpIncSeqNum in ks;
        }
      }
      MissingIs(q, from, nextExpIncSeqNum);
      return true, events;
    }

    /** checkSnapshotSync. */
    method CheckSnapshotSync()
      requires inRecovery
      modifies this
      ensures Now() == Sync(old(Now()))
    {
      hide Data, Span, FirstMissing, Recover, Contiguous, StartsWithStart, NoGap, Increasing;
      if snapshotQueuedMsgs == map[] {
        return;
      }
      var ks := SortedKeys(snapshotQueuedMsgs.Keys);
      assert |snapshotQueuedMsgs.Keys| == |snapshotQueuedMsgs| && ks[0] in ks;
      FirstKey(snapshotQueuedMsgs, ks);
      if snapshotQueuedMsgs[ks[0]].kind != SNAPSHOT_START {
        snapshotQueuedMsgs := map[];
        return;
      }
      var haveCompleteSnapshot, finalEvents := CollectSnapshot(ks);
      if !haveCompleteSnapshot {
        snapshotQueuedMsgs := map[];
        return;
      }
      LastKey(snapshotQueuedMsgs, ks);
      var last := snapshotQueuedMsgs[ks[|ks| - 1]];
      if last.kind != SNAPSHOT_END {
        return;
      }
      CommitSnapshot(last.id + 1, finalEvents);
    }

    /** The end of checkSnapshotSync. */
    method CommitSnapshot(from: nat, finalEvents: seq<Update>)
      requires inRecovery
      modifies this
      ensures Now() == Recover(old(Now()), from, finalEvents)
    {
      hide Data, FirstMissing, NoGap;
      nextExpIncSeqNum := from;
      var ks := SortedKeys(incrementalQueuedMsgs.Keys);
      var haveCompleteIncremental, incEvents := CollectIncrementals(ks);
      if !haveCompleteIncremental {
        snapshotQueuedMsgs := map[];
        return;
      }
      incomingMdUpdates := incomingMdUpdates + finalEvents + incEvents;
      snapshotQueuedMsgs, incrementalQueuedMsgs := map[], map[];
      inRecovery := false;
    }

    /** queueMessage. */
    method QueueMessage(isSnapshot: bool, request: Message)
      requires inRecovery
      modifies this
      ensures Now() == Sync(Enqueue(old(Now()), isSnapshot, request))
    {
      if isSnapshot {
        if request.seqNum in snapshotQueuedMsgs {
          snapshotQueuedMsgs := map[];
        }
        snapshotQueuedMsgs := snapshotQueuedMsgs[request.seqNum := request.update];
      } else {
        incrementalQueuedMsgs := incrementalQueuedMsgs[request.seqNum := request.update];
      }
      CheckSnapshotSync();
    }

    /** recvCallback, given the whole messages in the socket's buffer. */
    method RecvCallback(isSnapshot: bool, requests: seq<Message>)
      modifies this
      ensures Now() == Callback(old(Now()), isSnapshot, requests)
      ensures !old(inRecovery) && !isSnapshot
              && (forall i :: 0 <= i < |requests| ==> requests[i].seqNum == old(nextExpIncSeqNum) + i) ==>
                && !inRecovery && nextExpIncSeqNum == old(nextExpIncSeqNum) + |requests|
                && incomingMdUpdates == old(incomingMdUpdates) + UpdatesOf(requests)
    {
      if isSnapshot && !inRecovery {
        return;
      }
      ghost var s := Now();
      for i := 0 to |requests|
        invariant Now() == ReceiveAll(s, isSnapshot, requests[..i])
      {
        hide Sync;
        assert requests[..i + 1][..i] == requests[..i];
        var request := requests[i];
        var alreadyInRecovery := inRecovery;
        inRecovery := alreadyInRecovery || request.seqNum != nextExpIncSeqNum;
        if inRecovery {
          if !alreadyInRecovery {
            StartSnapshotSync();
          }
          QueueMessage(isSnapshot, request);
        } else if !isSnapshot {
          nextExpIncSeqNum := nextExpIncSeqNum + 1;
          incomingMdUpdates := incomingMdUpdates + [request.update];
        }
      }
      assert requests[..|requests|] == requests;
      if !s.inRecovery && !isSnapshot && forall i :: 0 <= i < |requests| ==> requests[i].seqNum == s.next + i {
        ExpectedAreForwarded(s, requests);
      }
    }
  }

  lemma MissingIs(q: Queued, n: nat, e: nat)
    requires e >= n && e !in q && forall k: nat :: n <= k < e ==> k in q
    ensures FirstMissing(q, n) == e
  {
  }

  /** After 0, 1, ..., i - 1 comes something beyond i, so i is missing. */
  lemma NotAKey(ks: seq<nat>, i: nat)
    requires Increasing(ks) && i < |ks| && ks[i] != i && forall j :: 0 <= j < i ==> ks[j] == j
    ensures i !in ks
  {
    assert i > 0 ==> ks[i - 1] < ks[i];
    forall j | 0 <= j < |ks|
      ensures ks[j] != i
    {
      assert j > i ==> ks[i] < ks[j];
    }
  }

  /** The first key decides how the queue starts. */
  lemma FirstKey(q: Queued, ks: seq<nat>)
    requires Increasing(ks) && ks != [] && (forall k: nat :: k in ks <==> k in q)
    ensures ks[0] in q
    ensures StartsWithStart(q) <==> q[ks[0]].kind == SNAPSHOT_START
  {
    assert ks[0] in ks;
    forall j: nat | j in q
      ensures ks[0] <= j
    {
      assert j in ks;
    }
  }

  /** The last key of a gapless queue is one less than its size. */
  lemma LastKey(q: Queued, ks: seq<nat>)
    requires Contiguous(q) && q != map[] && |ks| == |q| && (forall k: nat :: k in ks <==> k in q)
    requires Increasing(ks)
    ensures |q| > 0 && ks[|ks| - 1] == |q| - 1 && |q| - 1 in q
  {
    assert |q| - 1 in ks;
    var i :| 0 <= i < |ks| && ks[i] == |q| - 1;
    assert ks[|ks| - 1] in ks;
  }
}
