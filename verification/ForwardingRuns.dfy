/** Whole runs of the market data consumer from the side of progress: what it forwards, and when it recovers at all. */
module ForwardingRuns {
  import opened Types
  import opened Snapshots
  import opened Consumers
  import opened Recoveries
  import opened RecoveryRuns

  /** Incremental messages n, n + 1, ... without a gap. */
  ghost predicate InOrder(es: seq<Event>, n: nat) {
    forall i :: 0 <= i < |es| ==> es[i] == Inc(n + i)
  }

  /** How many messages at the front are the next ones expected. */
  ghost function Ahead(es: seq<Event>, n: nat): (j: nat)
    ensures j <= |es| && InOrder(es[..j], n)
    ensures j < |es| ==> es[j] != Inc(n + j)
    ensures j == |es| <==> InOrder(es, n)
  {
    if es == [] then 0
    else
      var j := Ahead(es[..|es| - 1], n);
      if j == |es| - 1 && es[j] == Inc(n + j) then
        assert es[..|es|] == es;
        |es|
      else
        assert j < |es| - 1 ==> es[..|es| - 1][j] == es[j];
        assert es[..|es| - 1][..j] == es[..j];
        j
  }

  /** One more message behind those that are expected is forwarded; nothing else changes. */
  lemma NextIsForwarded(f: Feed, t: Track)
    requires FeedOk(f) && !t.s.inRecovery && 1 <= t.s.next <= |f.stream|
    ensures Arrive(f, t, Inc(t.s.next))
         == t.(s := t.s.(next := t.s.next + 1, forwarded := t.s.forwarded + [f.stream[t.s.next - 1]]))
  {
  }

  lemma OthersAreQueued(f: Feed, t: Track, n: nat)
    requires FeedOk(f) && Inv(f, t) && !t.s.inRecovery && EventOk(f, Inc(n)) && n != t.s.next
    ensures Arrive(f, t, Inc(n)) == t.(s := t.s.(inRecovery := true, incremental := map[n := f.stream[n - 1]]))
  {
    InvQueue(f, t);
    hide FeedOk, SnapshotQueue, Sync;
    SyncIdle(f, Enqueue(t.s.(inRecovery := true, snapshot := map[], incremental := map[]), false,
        Message(n, f.stream[n - 1])), t.src, t.c, t.i);
  }

  /** The state after a buffer of incremental messages that meets the consumer outside recovery. */
  ghost predicate Passed(f: Feed, t: Track, es: seq<Event>, j: nat, u: Track)
    requires FeedOk(f) && j <= |es| && forall i :: 0 <= i < |es| ==> EventOk(f, es[i])
  {
    && 1 <= t.s.next && t.s.next + j <= |f.stream| + 1
    && u == t.(s := State(t.s.next + j, j < |es|, map[], QueuedAfter(f, map[], es[j..]),
                          t.s.forwarded + f.stream[t.s.next - 1..t.s.next - 1 + j]))
  }

  lemma PassedQueued(f: Feed, t: Track, es: seq<Event>, j: nat, u: Track)
    requires FeedOk(f) && es != [] && forall i :: 0 <= i < |es| ==> EventOk(f, es[i])
    requires es[|es| - 1].Inc? && j < |es| - 1 && Passed(f, t, es[..|es| - 1], j, u) && Inv(f, u)
    ensures Passed(f, t, es, j, Arrive(f, u, es[|es| - 1]))
  {
    hide FeedOk, Inv, Arrive;
    assert es[j..][..|es[j..]| - 1] == es[..|es| - 1][j..];
    IncIsQueued(f, u, es[|es| - 1].n);
  }

  lemma PassedNext(f: Feed, t: Track, es: seq<Event>, u: Track)
    requires FeedOk(f) && es != [] && forall i :: 0 <= i < |es| ==> EventOk(f, es[i])
    requires Passed(f, t, es[..|es| - 1], |es| - 1, u) && es[|es| - 1] == Inc(u.s.next)
    ensures Passed(f, t, es, |es|, Arrive(f, u, es[|es| - 1]))
  {
    assert EventOk(f, es[|es| - 1]);
    hide FeedOk, Arrive;
    NextIsForwarded(f, u);
    assert es[|es|..] == [] && es[..|es| - 1][|es| - 1..] == [];
    var n, k := t.s.next - 1, |es|;
    assert f.stream[n..n + k] == f.stream[n..n + (k - 1)] + [f.stream[n + (k - 1)]];
  }

  lemma PassedBreak(f: Feed, t: Track, es: seq<Event>, u: Track)
    requires FeedOk(f) && es != [] && forall i :: 0 <= i < |es| ==> EventOk(f, es[i])
    requires Passed(f, t, es[..|es| - 1], |es| - 1, u) && Inv(f, u)
    requires es[|es| - 1].Inc? && es[|es| - 1].n != u.s.next
    ensures Passed(f, t, es, |es| - 1, Arrive(f, u, es[|es| - 1]))
  {
    var e := es[|es| - 1];
    assert EventOk(f, e);
    OneQueued(f, e.n);
    hide FeedOk, Inv, Arrive, QueuedAfter;
    OthersAreQueued(f, u, e.n);
    assert es[|es| - 1..] == [e];
  }

  lemma OneQueued(f: Feed, n: nat)
    requires FeedOk(f) && EventOk(f, Inc(n))
    ensures QueuedAfter(f, map[], [Inc(n)]) == map[n := f.stream[n - 1]]
  {
    hide FeedOk;
    assert [Inc(n)][..0] == [];
  }

  lemma PassedStep(f: Feed, t: Track, es: seq<Event>, u: Track)
    requires FeedOk(f) && es != [] && forall i :: 0 <= i < |es| ==> es[i].Inc? && EventOk(f, es[i])
    requires Passed(f, t, es[..|es| - 1], Ahead(es[..|es| - 1], t.s.next), u) && Inv(f, u)
    ensures Passed(f, t, es, Ahead(es, t.s.next), Arrive(f, u, es[|es| - 1]))
  {
    var j := Ahead(es[..|es| - 1], t.s.next);
    assert u.s.next == t.s.next + j;
    hide FeedOk, Inv, Arrive, Passed, InOrder, EventOk;
    if j < |es| - 1 {
      PassedQueued(f, t, es, j, u);
    } else if es[|es| - 1].n == u.s.next {
      PassedNext(f, t, es, u);
    } else {
      PassedBreak(f, t, es, u);
    }
  }

  /**
   * Outside recovery a buffer of incremental messages is forwarded up to the first that is not the next one expected;
   * this one and all behind it are queued, and the consumer is in recovery exactly when there is one.
   */
  lemma {:induction false} BufferPasses(f: Feed, t: Track, es: seq<Event>)
    requires FeedOk(f) && Inv(f, t) && !t.s.inRecovery && Deliveries(f, t, es)
    requires forall i :: 0 <= i < |es| ==> es[i].Inc? && EventOk(f, es[i])
    ensures Passed(f, t, es, Ahead(es, t.s.next), Deliver(f, t, es))
  {
    if es == [] {
      NothingPassed(f, t);
    } else {
      hide FeedOk, Inv, Arrive, Passed, InOrder, Ahead, EventOk, Deliverable;
      BufferPasses(f, t, es[..|es| - 1]);
      DeliverKeeps(f, t, es[..|es| - 1]);
      PassedStep(f, t, es, Deliver(f, t, es[..|es| - 1]));
    }
  }

  lemma NothingPassed(f: Feed, t: Track)
    requires FeedOk(f) && Inv(f, t) && !t.s.inRecovery
    ensures Passed(f, t, [], 0, t)
  {
    assert f.stream[t.s.next - 1..t.s.next - 1] == [];
    hide FeedOk;
    assert t.s.snapshot == map[] && t.s.incremental == map[] && 1 <= t.s.next <= |f.stream| + 1;
    var empty: seq<Event> := [];
    assert empty[0..] == [];
  }

  // ----- turns and runs

  lemma TurnPasses(f: Feed, t: Track, b: Batch)
    requires FeedOk(f) && Inv(f, t) && !t.s.inRecovery && BatchOk(f, t, b) && !b.snapshot
    ensures Passed(f, t, b.events, Ahead(b.events, t.s.next), Turn(f, t, b))
  {
    hide FeedOk, Inv, EventOk, Passed, Ahead;
    BufferPasses(f, t, b.events);
  }

  /** Exactly the next m updates of the stream have been forwarded, and nothing is queued. */
  ghost predicate Grown(f: Feed, s: State, m: nat, u: State) {
    && 1 <= s.next && s.next + m <= |f.stream| + 1
    && u == State(s.next + m, false, map[], map[], s.forwarded + f.stream[s.next - 1..s.next - 1 + m])
  }

  /**
   * From a state outside recovery with next expected number n, incremental messages n, n + 1, ..., k - 1 in order leave
   * the consumer outside recovery with next number k, and exactly these updates of the stream are forwarded.
   */
  lemma TurnForwards(f: Feed, t: Track, b: Batch)
    requires FeedOk(f) && Inv(f, t) && !t.s.inRecovery && BatchOk(f, t, b) && !b.snapshot
    requires InOrder(b.events, t.s.next)
    ensures Turn(f, t, b) == t.(s := Turn(f, t, b).s) && Grown(f, t.s, |b.events|, Turn(f, t, b).s)
  {
    var u := Turn(f, t, b);
    TurnPasses(f, t, b);
    assert Ahead(b.events, t.s.next) == |b.events|;
    hide FeedOk, Inv, BatchOk, EventOk, InOrder, Passed, Ahead, QueuedAfter, Turn;
    PassedMeans(f, t, b.events, |b.events|, u);
  }

  /**
   * A turn outside recovery leads into recovery if and only if an incremental message is not the next one expected. The
   * messages before the first such one are forwarded, it and those behind it are queued.
   */
  lemma TurnBreaksIff(f: Feed, t: Track, b: Batch)
    requires FeedOk(f) && Inv(f, t) && !t.s.inRecovery && BatchOk(f, t, b)
    ensures Turn(f, t, b).s.inRecovery <==> !b.snapshot && !InOrder(b.events, t.s.next)
    ensures b.snapshot ==> Turn(f, t, b) == t
    ensures !b.snapshot ==>
      var n, j := t.s.next, Ahead(b.events, t.s.next);
      && 1 <= n && n + j <= |f.stream| + 1
      && Turn(f, t, b).s.next == n + j && Turn(f, t, b).s.snapshot == map[]
      && Turn(f, t, b).s.forwarded == t.s.forwarded + f.stream[n - 1..n - 1 + j]
      && Turn(f, t, b).s.incremental == QueuedAfter(f, map[], b.events[j..])
  {
    if !b.snapshot {
      TurnPasses(f, t, b);
      hide FeedOk, Inv, EventOk, InOrder, Passed, Ahead, QueuedAfter, Turn;
      PassedMeans(f, t, b.events, Ahead(b.events, t.s.next), Turn(f, t, b));
    }
  }

  lemma PassedMeans(f: Feed, t: Track, es: seq<Event>, j: nat, u: Track)
    requires FeedOk(f) && j <= |es| && (forall i :: 0 <= i < |es| ==> EventOk(f, es[i])) && Passed(f, t, es, j, u)
    ensures 1 <= t.s.next && t.s.next + j <= |f.stream| + 1
    ensures u == t.(s := State(t.s.next + j, j < |es|, map[], QueuedAfter(f, map[], es[j..]),
                               t.s.forwarded + f.stream[t.s.next - 1..t.s.next - 1 + j]))
    ensures j == |es| ==> u.s.incremental == map[]
  {
    hide FeedOk, EventOk;
    assert j == |es| ==> es[j..] == [];
  }

  /** The incremental messages of a run in the order of their arrival. */
  ghost function Incrementals(bs: seq<Batch>): seq<Event> {
    if bs == [] then []
    else Incrementals(bs[..|bs| - 1]) + if bs[|bs| - 1].snapshot then [] else bs[|bs| - 1].events
  }

  /** The consumer is outside recovery after every turn. */
  ghost predicate NeverRecovers(f: Feed, bs: seq<Batch>)
    requires FeedOk(f) && Runs(f, bs)
  {
    bs == [] || (NeverRecovers(f, bs[..|bs| - 1]) && !After(f, bs).s.inRecovery)
  }

  lemma InOrderConcat(a: seq<Event>, b: seq<Event>, n: nat)
    ensures InOrder(a + b, n) <==> InOrder(a, n) && InOrder(b, n + |a|)
  {
    assert forall i :: 0 <= i < |a| ==> (a + b)[i] == a[i];
    assert forall i :: 0 <= i < |b| ==> (a + b)[|a| + i] == b[i];
    if InOrder(a, n) && InOrder(b, n + |a|) {
      forall i | 0 <= i < |a + b|
        ensures (a + b)[i] == Inc(n + i)
      {
        assert i >= |a| ==> (a + b)[i] == b[i - |a|];
      }
    }
    if InOrder(a + b, n) {
      forall i | 0 <= i < |b|
        ensures b[i] == Inc(n + |a| + i)
      {
        assert (a + b)[|a| + i] == Inc(n + (|a| + i));
      }
    }
  }

  /** Exactly the first n updates of the stream have been forwarded, and the next one is expected. */
  ghost predicate Forwarded(f: Feed, s: State, n: nat) {
    n <= |f.stream| && s == State(n + 1, false, map[], map[], f.stream[..n])
  }

  lemma TurnFromStart(f: Feed, t: Track, b: Batch, n: nat)
    requires FeedOk(f) && Inv(f, t) && BatchOk(f, t, b)
    requires Forwarded(f, t.s, n)
    ensures var es := if b.snapshot then [] else b.events;
            && (Turn(f, t, b).s.inRecovery <==> !InOrder(es, n + 1))
            && (InOrder(es, n + 1) ==> Forwarded(f, Turn(f, t, b).s, n + |es|))
  {
    hide FeedOk, Inv, BatchOk, Turn, QueuedAfter;
    TurnBreaksIff(f, t, b);
    if !b.snapshot && InOrder(b.events, n + 1) {
      TurnForwards(f, t, b);
      assert f.stream[..n] + f.stream[n..n + |b.events|] == f.stream[..n + |b.events|];
    }
  }

  /**
   * A consumer that starts with the exchange never goes into recovery if and only if the incremental messages arrive as
   * 1, 2, 3, ... without loss, repetition or exchange; and then it has forwarded exactly these updates of the stream.
   */
  lemma {:induction false} NeverRecoversIff(f: Feed, bs: seq<Batch>)
    requires FeedOk(f) && Runs(f, bs)
    ensures NeverRecovers(f, bs) <==> InOrder(Incrementals(bs), 1)
    ensures NeverRecovers(f, bs) ==> Forwarded(f, After(f, bs).s, |Incrementals(bs)|)
  {
    if bs != [] {
      var init, b := bs[..|bs| - 1], bs[|bs| - 1];
      hide FeedOk, Inv, InOrder, BatchOk, Turn, Forwarded;
      NeverRecoversIff(f, init);
      InvAlways(f, init);
      InOrderConcat(Incrementals(init), if b.snapshot then [] else b.events, 1);
      if NeverRecovers(f, init) {
        TurnFromStart(f, After(f, init), b, |Incrementals(init)|);
      }
    }
  }

  /** In order from the number expected, a network that has the messages may always deliver them. */
  lemma {:induction false} InOrderMayArrive(f: Feed, t: Track, es: seq<Event>, n: nat)
    requires FeedOk(f) && InOrder(es, n) && 1 <= n && n + |es| <= |f.stream| + 1
    ensures Deliveries(f, t, es) && forall i :: 0 <= i < |es| ==> EventOk(f, es[i])
  {
    if es != [] {
      assert InOrder(es[..|es| - 1], n);
      InOrderMayArrive(f, t, es[..|es| - 1], n);
      assert es[|es| - 1] == Inc(n + (|es| - 1));
      hide FeedOk, InOrder;
    }
  }

  /**
   * After any run that leaves the consumer outside recovery, the updates that follow may arrive in order, as one buffer
   * of any size; they are all forwarded, and recovery is not entered.
   */
  lemma RunGoesOn(f: Feed, bs: seq<Batch>, es: seq<Event>)
    requires FeedOk(f) && Runs(f, bs) && !After(f, bs).s.inRecovery
    requires InOrder(es, After(f, bs).s.next) && After(f, bs).s.next + |es| <= |f.stream| + 1
    ensures Runs(f, bs + [Batch(false, es)])
    ensures Grown(f, After(f, bs).s, |es|, After(f, bs + [Batch(false, es)]).s)
  {
    var t, b := After(f, bs), Batch(false, es);
    hide *;
    InvAlways(f, bs);
    MayGoOn(f, t, es);
    OneMoreTurn(f, bs, b);
    TurnForwards(f, t, b);
  }

  lemma MayGoOn(f: Feed, t: Track, es: seq<Event>)
    requires FeedOk(f) && Inv(f, t) && !t.s.inRecovery && InOrder(es, t.s.next) && t.s.next + |es| <= |f.stream| + 1
    ensures BatchOk(f, t, Batch(false, es))
  {
    assert 1 <= t.s.next;
    hide FeedOk, Inv, EventOk, Deliveries;
    InOrderMayArrive(f, t, es, t.s.next);
  }

  lemma OneMoreTurn(f: Feed, bs: seq<Batch>, b: Batch)
    requires FeedOk(f) && Runs(f, bs) && BatchOk(f, After(f, bs), b)
    ensures Runs(f, bs + [b]) && After(f, bs + [b]) == Turn(f, After(f, bs), b)
  {
    assert (bs + [b])[..|bs|] == bs;
    hide FeedOk, BatchOk, Turn;
  }

  // ----- what one arrival forwards

  /**
   * What a completed snapshot queue q, taken after n updates, makes of the state s: recovery ends exactly when there is
   * no gap in the queued incrementals behind n. Then the data of the snapshot and exactly the updates of the stream
   * that follow n are forwarded, as far as they are queued. Otherwise only the snapshot is given up.
   */
  ghost predicate Outcome(f: Feed, s: State, q: Queued, n: nat, r: State) {
    && (forall k: nat :: k < |q| ==> k in q)
    && n + 1 <= r.next <= |f.stream| + 1
    && (forall k: nat :: n < k < r.next ==> k in s.incremental) && r.next !in s.incremental
    && (r.inRecovery <==> !NoGap(s.incremental, n + 1))
    && r == if r.inRecovery then s.(next := r.next, snapshot := map[])
            else State(r.next, false, map[], map[], s.forwarded + Data(Span(q, 0, |q|)) + f.stream[n..r.next - 1])
  }

  lemma RecoverForwards(f: Feed, s: State, n: nat, events: seq<Update>)
    requires FeedOk(f) && Genuine(f, s.incremental) && n <= |f.stream| && s.inRecovery
    ensures var r := Recover(s, n + 1, events);
            && n + 1 <= r.next <= |f.stream| + 1 && r.next == FirstMissing(s.incremental, n + 1)
            && (r.inRecovery <==> !NoGap(s.incremental, n + 1))
            && r == if r.inRecovery then s.(next := r.next, snapshot := map[])
                    else State(r.next, false, map[], map[], s.forwarded + events + f.stream[n..r.next - 1])
  {
    hide FeedOk, Genuine, Data, Span, NoGap, FirstMissing;
    SpanForwarded(f, s.incremental, n);
    if NoGap(s.incremental, n + 1) {
      RecoverIs(s, n + 1, events);
    }
  }

  /** What has been forwarded continues before with exactly the updates of the stream after the first n. */
  ghost predicate Caught(f: Feed, before: seq<Update>, n: nat, r: State) {
    n + 1 <= r.next <= |f.stream| + 1 && r.forwarded == before + f.stream[n..r.next - 1]
  }

  lemma RecoverCatches(f: Feed, s: State, n: nat, events: seq<Update>, r: State)
    requires FeedOk(f) && Genuine(f, s.incremental) && n <= |f.stream| && s.inRecovery
    requires r == Recover(s, n + 1, events) && !r.inRecovery
    ensures Caught(f, s.forwarded + events, n, r)
  {
    hide FeedOk, Genuine, Recover;
    RecoverForwards(f, s, n, events);
  }

  lemma OutcomeIs(f: Feed, s: State, q: Queued, n: nat)
    requires FeedOk(f) && Genuine(f, s.incremental) && n <= |f.stream| && s.inRecovery
    requires forall k: nat :: k < |q| ==> k in q
    ensures Outcome(f, s, q, n, Recover(s.(snapshot := q), n + 1, Data(Span(q, 0, |q|))))
  {
    hide FeedOk, Genuine, Data, Span, NoGap, Recover;
    RecoverForwards(f, s.(snapshot := q), n, Data(Span(q, 0, |q|)));
  }

  /** The message that is about to end a recovery completes this queue. */
  ghost predicate Completes(f: Feed, s: State, e: Event)
    requires FeedOk(f) && EventOk(f, e)
  {
    e.Snap? && e.i == |s.snapshot| && Complete(s.snapshot[e.i := MessageOf(f, e).update])
  }

  /** A snapshot message that does not complete the queue ends nothing and forwards nothing. */
  lemma SnapshotWaits(f: Feed, s: State, src: seq<nat>, c: nat, i: nat, e: Event)
    requires FeedOk(f) && SnapshotQueue(f, s.snapshot, src, c, i) && EventOk(f, e) && e.Snap?
    requires c < e.c || (c == e.c && i <= e.i)
    requires !Completes(f, s, e)
    ensures var r := Sync(Enqueue(s, true, MessageOf(f, e))); r == s.(snapshot := r.snapshot)
  {
    var m, q := MessageOf(f, e), s.snapshot;
    CycleBound(f, e.c);
    CycleShape(f, f.cycles[e.c]);
    assert Carries(f, e.c, e.i, m.update);
    hide FeedOk, CycleAt, Sourced, Span, Data, Carries;
    if e.i == 0 {
      StartArrives(f, s, src, c, i, m);
    } else if e.i != |q| {
      GapArrives(f, s, src, c, i, m);
    } else {
      NextArrives(f, q, src, c, i, e.c, m.update);
      hide SnapshotQueue, Contiguous, StartsWithStart, Complete, Recover;
      QueueStarts(f, q[e.i := m.update], src + [e.c], e.c, e.i + 1);
      SourcedShape(f, q[e.i := m.update], src + [e.c]);
    }
  }

  lemma EndCarries(f: Feed, c: nat, i: nat)
    requires FeedOk(f) && EventOk(f, Snap(c, i))
    ensures f.cycles[c] <= |f.stream|
    ensures MessageOf(f, Snap(c, i)).seqNum == i
    ensures MessageOf(f, Snap(c, i)).update.kind == SNAPSHOT_END ==> MessageOf(f, Snap(c, i)).update.id == f.cycles[c]
  {
    CycleBound(f, c);
    CycleShape(f, f.cycles[c]);
    hide CycleAt;
  }

  /** The message that completes the queue is the END, and its number is where the incrementals must follow on. */
  lemma CompletionSyncs(s: State, m: Message, q: Queued, n: nat)
    requires Contiguous(s.snapshot) && m.seqNum == |s.snapshot| && q == s.snapshot[m.seqNum := m.update] && Complete(q)
    requires m.update.kind == SNAPSHOT_END ==> m.update.id == n
    ensures forall k: nat :: k < |q| ==> k in q
    ensures Sync(Enqueue(s, true, m)) == Recover(s.(snapshot := q), n + 1, Data(Span(q, 0, |q|)))
  {
    assert m.seqNum !in s.snapshot;
    hide Span, Data, Recover, Sync, Complete, Contiguous, StartsWithStart, Enqueue;
    FreshQueued(s, m);
    CompletedAt(s.snapshot, m.seqNum, m.update);
    CompleteSyncs(s.(snapshot := q), m.seqNum, n + 1);
  }

  lemma CompletedAt(q: Queued, k: nat, u: Update)
    requires k == |q| && k !in q && Complete(q[k := u])
    ensures |q[k := u]| == k + 1 && q[k := u][k] == u && u.kind == SNAPSHOT_END
    ensures var q' := q[k := u]; forall j: nat :: j < |q'| ==> j in q'
  {
    hide StartsWithStart;
    QueueGrows(q, k, u);
    ContiguousKeys(q[k := u]);
  }

  lemma CompleteSyncs(s: State, last: nat, from: nat)
    requires Complete(s.snapshot) && |s.snapshot| == last + 1 && last in s.snapshot
    requires from == s.snapshot[last].id + 1 && forall j: nat :: j < |s.snapshot| ==> j in s.snapshot
    ensures Sync(s) == Recover(s, from, Data(Span(s.snapshot, 0, |s.snapshot|)))
  {
    hide Span, Data, Recover, Sync, Complete, Contiguous;
    SyncComplete(s);
  }

  lemma FreshQueued(s: State, m: Message)
    requires m.seqNum !in s.snapshot
    ensures Enqueue(s, true, m) == s.(snapshot := s.snapshot[m.seqNum := m.update])
  {
  }

  lemma ContiguousKeys(q: Queued)
    requires Complete(q)
    ensures Contiguous(q) && forall k: nat :: k < |q| ==> k in q
  {
  }

  /** An arrival outside recovery forwards the message if it is the next incremental one, and nothing otherwise. */
  lemma ArrivalOutside(f: Feed, t: Track, e: Event)
    requires FeedOk(f) && Inv(f, t) && Deliverable(f, t, e) && !t.s.inRecovery
    ensures var s, u := t.s, Arrive(f, t, e).s;
            && (u.inRecovery <==> MessageOf(f, e).seqNum != s.next)
            && (e == Inc(s.next) ==>
                  u == s.(next := s.next + 1, forwarded := s.forwarded + [f.stream[s.next - 1]]))
            && (e != Inc(s.next) ==> u.forwarded == s.forwarded && u.next == s.next)
  {
    var s, m := t.s, MessageOf(f, e);
    var began := s.(inRecovery := true, snapshot := map[], incremental := map[]);
    InvQueue(f, t);
    assert s.snapshot == map[];
    hide FeedOk, Inv, SnapshotQueue, Sync;
    if m.seqNum != s.next {
      match e
      case Inc(n) => OthersAreQueued(f, t, n);
      case Snap(c, i) =>
        NothingCompletes(f, began, e);
        SnapshotWaits(f, began, t.src, t.c, t.i, e);
    }
  }

  lemma NothingCompletes(f: Feed, s: State, e: Event)
    requires FeedOk(f) && EventOk(f, e) && s.snapshot == map[]
    ensures !Completes(f, s, e)
  {
    if e.Snap? && e.i == 0 {
      CycleBound(f, e.c);
      CycleShape(f, f.cycles[e.c]);
      SizeOne(0, MessageOf(f, e).update);
      hide FeedOk, CycleAt;
    }
  }

  /** The state after an arrival during recovery that completes nothing. */
  ghost predicate Waits(f: Feed, s: State, e: Event, u: State)
    requires FeedOk(f) && EventOk(f, e)
  {
    && u.inRecovery && u.next == s.next && u.forwarded == s.forwarded
    && u.incremental == if e.Inc? then s.incremental[e.n := f.stream[e.n - 1]] else s.incremental
  }

  lemma SnapshotInside(f: Feed, t: Track, e: Event)
    requires FeedOk(f) && Inv(f, t) && Deliverable(f, t, e) && t.s.inRecovery && e.Snap?
    ensures var r := Sync(Enqueue(t.s, true, MessageOf(f, e)));
            && Arrive(f, t, e).s == r
            && (!Completes(f, t.s, e) ==> r == t.s.(snapshot := r.snapshot))
  {
    InvQueue(f, t);
    hide FeedOk, Inv, SnapshotQueue, Sync, Complete, Contiguous;
    if !Completes(f, t.s, e) {
      SnapshotWaits(f, t.s, t.src, t.c, t.i, e);
    }
  }

  lemma CompletionInside(f: Feed, s: State, e: Event)
    requires FeedOk(f) && Genuine(f, s.incremental) && Contiguous(s.snapshot) && s.inRecovery
    requires EventOk(f, e) && Completes(f, s, e)
    ensures Outcome(f, s, s.snapshot[e.i := MessageOf(f, e).update], f.cycles[e.c],
                    Sync(Enqueue(s, true, MessageOf(f, e))))
  {
    var m, n := MessageOf(f, e), f.cycles[e.c];
    var q := s.snapshot[e.i := m.update];
    EndCarries(f, e.c, e.i);
    assert m.seqNum == e.i == |s.snapshot| && Complete(q);
    hide *;
    CompletionSyncs(s, m, q, n);
    OutcomeIs(f, s, q, n);
  }

  /**
   * An arrival during recovery. Unless it completes the snapshot queue, nothing is forwarded. If it does, what happens
   * is decided by the number of the cycle that END belongs to.
   */
  lemma ArrivalInside(f: Feed, t: Track, e: Event)
    requires FeedOk(f) && Inv(f, t) && Deliverable(f, t, e) && t.s.inRecovery
    ensures var s, u := t.s, Arrive(f, t, e).s;
            && (!Completes(f, s, e) ==> Waits(f, s, e, u))
            && (Completes(f, s, e) ==>
                  Outcome(f, s, s.snapshot[e.i := MessageOf(f, e).update], f.cycles[e.c], u))
  {
    InvQueue(f, t);
    assert Genuine(f, t.s.incremental) && Contiguous(t.s.snapshot);
    hide FeedOk, Inv, SnapshotQueue, Sync, Genuine, Recover, Complete, Contiguous, Outcome, Arrive, CycleAt;
    if e.Inc? {
      IncIsQueued(f, t, e.n);
    } else {
      SnapshotInside(f, t, e);
      if Completes(f, t.s, e) {
        CompletionInside(f, t.s, e);
      }
    }
  }

  lemma {:induction false} MidwayForwards(f: Feed, t: Track, es: seq<Event>, c: nat, k: nat)
    requires FeedOk(f) && Midway(f, t, c, 0, t.s.incremental) && c < |f.cycles|
    requires Lossless(f, es, c, k) && k < |CycleAt(f, f.cycles[c])|
    ensures Deliveries(f, t, es) && Deliver(f, t, es).s.forwarded == t.s.forwarded
  {
    hide FeedOk, CycleAt, Arrive, Inv, Holding;
    MidwayReached(f, t, es, c, k);
    if es != [] {
      var init, e := es[..|es| - 1], es[|es| - 1];
      var j := if e.Inc? then k else k - 1;
      MidwayForwards(f, t, init, c, j);
      MidwayReached(f, t, init, c, j);
      StillInside(f, Deliver(f, t, init), e);
    }
  }

  lemma StillInside(f: Feed, t: Track, e: Event)
    requires FeedOk(f) && Inv(f, t) && Deliverable(f, t, e) && t.s.inRecovery && Arrive(f, t, e).s.inRecovery
    ensures Arrive(f, t, e).s.forwarded == t.s.forwarded
  {
    hide FeedOk, Inv, Deliverable, Arrive, Completes, NoGap, Span, Data;
    ArrivalInside(f, t, e);
  }

  /** When one whole cycle ends a recovery, exactly its data and the updates of the stream behind it are forwarded. */
  lemma RecoveryForwards(f: Feed, t: Track, es: seq<Event>, c: nat, last: nat)
    requires FeedOk(f) && Inv(f, t) && t.s.inRecovery && c < |f.cycles|
    requires t.c < c || (t.c == c && t.i == 0)
    requires last + 1 == |CycleAt(f, f.cycles[c])| && Lossless(f, es, c, last)
    ensures Deliveries(f, t, es) && Deliver(f, t, es).s.forwarded == t.s.forwarded
    ensures var r, n := Arrive(f, Deliver(f, t, es), Snap(c, last)).s, f.cycles[c];
            !r.inRecovery ==> Caught(f, t.s.forwarded + Data(CycleAt(f, n)), n, r)
  {
    assert Midway(f, t, c, 0, t.s.incremental);
    hide *;
    MidwayForwards(f, t, es, c, last);
    MidwayReached(f, t, es, c, last);
    EndForwards(f, Deliver(f, t, es), c, last, QueuedAfter(f, t.s.incremental, es));
  }

  lemma EndForwards(f: Feed, t: Track, c: nat, k: nat, inc: Queued)
    requires FeedOk(f) && Midway(f, t, c, k, inc) && EventOk(f, Snap(c, k)) && k + 1 == |CycleAt(f, f.cycles[c])|
    ensures var r, n := Arrive(f, t, Snap(c, k)).s, f.cycles[c];
            !r.inRecovery ==> Caught(f, t.s.forwarded + Data(CycleAt(f, n)), n, r)
  {
    CycleBound(f, c);
    var n, u := f.cycles[c], CycleAt(f, f.cycles[c])[k];
    assert Genuine(f, t.s.incremental) && t.s.inRecovery;
    hide *;
    MidwayEnd(f, t, c, k, inc);
    var r := Arrive(f, t, Snap(c, k)).s;
    if !r.inRecovery {
      RecoverCatches(f, t.s.(snapshot := t.s.snapshot[k := u]), n, Data(CycleAt(f, n)), r);
    }
  }
}
