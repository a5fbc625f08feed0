/** Whole runs of the market data consumer: safety from the first message on, the end of a recovery, spliced cycles. */
module RecoveryRuns {
  import opened Types
  import opened PriceTime
  import opened Matching
  import opened Replication
  import opened Markets
  import opened Snapshots
  import opened Consumers
  import opened Recoveries

  /** The messages one callback finds in the buffer of one socket. */
  datatype Batch = Batch(snapshot: bool, events: seq<Event>)

  ghost function Messages(f: Feed, es: seq<Event>): (ms: seq<Message>)
    requires FeedOk(f) && forall i :: 0 <= i < |es| ==> EventOk(f, es[i])
    ensures |ms| == |es|
  {
    seq(|es|, i requires 0 <= i < |es| => MessageOf(f, es[i]))
  }

  /** The network may deliver es in this order: each message is one that was sent, snapshot messages do not overtake. */
  ghost predicate Deliveries(f: Feed, t: Track, es: seq<Event>)
    requires FeedOk(f)
    decreases |es|, 0
  {
    es == [] || (Deliveries(f, t, es[..|es| - 1]) && Deliverable(f, Deliver(f, t, es[..|es| - 1]), es[|es| - 1]))
  }

  ghost function Deliver(f: Feed, t: Track, es: seq<Event>): Track
    requires FeedOk(f) && Deliveries(f, t, es)
    decreases |es|, 1
  {
    if es == [] then t else Arrive(f, Deliver(f, t, es[..|es| - 1]), es[|es| - 1])
  }

  ghost predicate BatchOk(f: Feed, t: Track, b: Batch)
    requires FeedOk(f)
  {
    (forall i :: 0 <= i < |b.events| ==> b.events[i].Snap? == b.snapshot && EventOk(f, b.events[i]))
    && ((b.snapshot && !t.s.inRecovery) || Deliveries(f, t, b.events))
  }

  /** One callback. Snapshot messages found outside recovery are dropped, the other socket's are processed. */
  ghost function Turn(f: Feed, t: Track, b: Batch): Track
    requires FeedOk(f) && BatchOk(f, t, b)
  {
    if b.snapshot && !t.s.inRecovery then t else Deliver(f, t, b.events)
  }

  const Fresh: Track := Track(State(1, false, map[], map[], []), [], 0, 0, true)

  ghost predicate Runs(f: Feed, bs: seq<Batch>)
    requires FeedOk(f)
    decreases |bs|, 0
  {
    bs == [] || (Runs(f, bs[..|bs| - 1]) && BatchOk(f, After(f, bs[..|bs| - 1]), bs[|bs| - 1]))
  }

  ghost function After(f: Feed, bs: seq<Batch>): Track
    requires FeedOk(f) && Runs(f, bs)
    decreases |bs|, 1
  {
    if bs == [] then Fresh else Turn(f, After(f, bs[..|bs| - 1]), bs[|bs| - 1])
  }

  lemma {:induction false} DeliverKeeps(f: Feed, t: Track, es: seq<Event>)
    requires FeedOk(f) && Inv(f, t) && Deliveries(f, t, es)
    ensures Inv(f, Deliver(f, t, es))
  {
    if es != [] {
      hide FeedOk, Inv, Deliverable, Arrive;
      DeliverKeeps(f, t, es[..|es| - 1]);
      ArrivalKeeps(f, Deliver(f, t, es[..|es| - 1]), es[|es| - 1]);
    }
  }

  lemma {:induction false} InvAlways(f: Feed, bs: seq<Batch>)
    requires FeedOk(f) && Runs(f, bs)
    ensures Inv(f, After(f, bs))
  {
    if bs == [] {
      FreshInv(f);
    } else {
      hide FeedOk, Inv;
      InvAlways(f, bs[..|bs| - 1]);
      var t, b := After(f, bs[..|bs| - 1]), bs[|bs| - 1];
      if !(b.snapshot && !t.s.inRecovery) {
        DeliverKeeps(f, t, b.events);
      }
    }
  }

  lemma FreshInv(f: Feed)
    requires FeedOk(f)
    ensures Inv(f, Fresh)
  {
    NothingSourced(f);
    assert f.stream[..0] == [];
  }

  /**
   * In every run, whatever is lost, duplicated or reordered among the incrementals and whatever is lost among the
   * snapshot messages: outside recovery both queues are empty and, if the cycle accepted last carried equal numbers
   * in START and END (or none was accepted yet), everything forwarded so far, replayed, gives the books of the
   * exchange after update next - 1. During recovery the snapshot queue is empty, or has exactly the keys 0, 1, ...
   * with START first and END not last.
   */
  lemma ConsumerIsFaithful(f: Feed, bs: seq<Batch>)
    requires FeedOk(f) && Runs(f, bs)
    ensures var t := After(f, bs);
            && (!t.s.inRecovery ==>
                  t.s.snapshot == map[] && t.s.incremental == map[] && 1 <= t.s.next <= |f.stream| + 1)
            && (!t.s.inRecovery && t.agreed ==>
                  SameMarket(PlayAll(Opening(f.tickers), t.s.forwarded),
                      PlayAll(Opening(f.tickers), f.stream[..t.s.next - 1])))
            && (t.s.snapshot != map[] ==>
                  && Contiguous(t.s.snapshot) && 0 in t.s.snapshot && t.s.snapshot[0].kind == SNAPSHOT_START
                  && |t.s.snapshot| - 1 in t.s.snapshot && t.s.snapshot[|t.s.snapshot| - 1].kind != SNAPSHOT_END)
  {
    InvAlways(f, bs);
    var t := After(f, bs);
    hide FeedOk, PlayAll, SameMarket, Runs, After;
    if t.s.snapshot != map[] {
      QueueStarts(f, t.s.snapshot, t.src, t.c, t.i);
    }
  }

  /**
   * From the requests of the exchange's clients to the abstract replay of what a participant's consumer forwards: when
   * it is outside recovery, its last cycle was whole and nothing more is under way, the replayed books, in which CLEAR
   * empties a book, show exactly the resting orders of the exchange, whatever was missed before.
   */
  lemma ParticipantSeesTheExchange(f: Feed, rs: seq<(nat, Request)>, bs: seq<Batch>)
    requires VenueAdmits(OpeningVenue(f.tickers), rs) && f.stream == RunVenue(OpeningVenue(f.tickers), rs).1
    requires FeedOk(f) && Runs(f, bs)
    requires var t := After(f, bs); !t.s.inRecovery && t.agreed && t.s.next == |f.stream| + 1
    ensures var (w, m) := (RunVenue(OpeningVenue(f.tickers), rs).0,
            PlayAll(Opening(f.tickers), After(f, bs).s.forwarded));
            && |m| == |w|
            && forall t :: 0 <= t < |w| ==> m[t].bids == Project(w[t].bids) && m[t].asks == Project(w[t].asks)
  {
    var v := OpeningVenue(f.tickers);
    OpeningMirrored(f.tickers);
    StreamReproducesVenue(v, rs, Opening(f.tickers));
    ConsumerIsFaithful(f, bs);
    assert f.stream[..|f.stream|] == f.stream;
  }

  function OpeningVenue(tickers: nat): (v: Venue)
    ensures |v| == tickers && forall t :: 0 <= t < tickers ==> v[t] == Book(t, [], [], 1)
  {
    seq(tickers, t requires t >= 0 => Book(t, [], [], 1))
  }

  lemma OpeningMirrored(tickers: nat)
    ensures GoodVenue(OpeningVenue(tickers)) && MirrorsVenue(Opening(tickers), OpeningVenue(tickers))
  {
  }

  // ----- the run is the run of the object

  lemma {:induction false} DeliverIsReceiveAll(f: Feed, t: Track, snapshot: bool, es: seq<Event>)
    requires FeedOk(f) && Deliveries(f, t, es)
    requires forall i :: 0 <= i < |es| ==> es[i].Snap? == snapshot && EventOk(f, es[i])
    ensures Deliver(f, t, es).s == ReceiveAll(t.s, snapshot, Messages(f, es))
  {
    hide FeedOk, EventOk, MessageOf, Receive, Deliverable;
    if es != [] {
      DeliverIsReceiveAll(f, t, snapshot, es[..|es| - 1]);
      assert Messages(f, es)[..|es| - 1] == Messages(f, es[..|es| - 1]);
    }
  }

  /** The states of a run are those of the consumer object: each turn does what the callback does with the messages. */
  lemma TurnIsCallback(f: Feed, t: Track, b: Batch)
    requires FeedOk(f) && BatchOk(f, t, b)
    ensures Turn(f, t, b).s == Callback(t.s, b.snapshot, Messages(f, b.events))
  {
    if !(b.snapshot && !t.s.inRecovery) {
      DeliverIsReceiveAll(f, t, b.snapshot, b.events);
    }
  }

  // ----- the end of a recovery

  /** es carries the first k messages of cycle c, each once and in order, among any incrementals. */
  ghost predicate Lossless(f: Feed, es: seq<Event>, c: nat, k: nat)
    requires FeedOk(f)
  {
    if es == [] then k == 0
    else
      var e := es[|es| - 1];
      EventOk(f, e) && match e
      case Inc(_) => Lossless(f, es[..|es| - 1], c, k)
      case Snap(c', i) => c' == c && i + 1 == k && Lossless(f, es[..|es| - 1], c, k - 1)
  }

  /** The incrementals queued once those of es have arrived. */
  ghost function QueuedAfter(f: Feed, q: Queued, es: seq<Event>): Queued
    requires FeedOk(f) && forall i :: 0 <= i < |es| ==> EventOk(f, es[i])
  {
    if es == [] then q
    else
      var before := QueuedAfter(f, q, es[..|es| - 1]);
      var e := es[|es| - 1];
      assert EventOk(f, e);
      match e
      case Inc(n) => before[n := f.stream[n - 1]]
      case Snap(_, _) => before
  }

  /** The queue holds the first k messages of cycle c. */
  ghost predicate Holding(f: Feed, q: Queued, c: nat, k: nat)
    requires FeedOk(f)
  {
    c < |f.cycles| && Begins(q, CycleAt(f, f.cycles[c]), k)
  }

  /** The queue holds the first k of the given messages. */
  ghost predicate Begins(q: Queued, us: seq<Update>, k: nat) {
    k <= |us| && |q| == k && forall j: nat :: j < k ==> j in q && q[j] == us[j]
  }

  lemma BeginsNext(q: Queued, us: seq<Update>, k: nat)
    requires Begins(q, us, k) && k < |us| && k !in q
    ensures Begins(q[k := us[k]], us, k + 1)
  {
    assert q[k := us[k]].Keys == q.Keys + {k};
    assert |q[k := us[k]].Keys| == |q.Keys| + 1;
  }

  /** The state of a recovery after the first k messages of cycle c and the given incrementals have arrived. */
  ghost predicate Midway(f: Feed, t: Track, c: nat, k: nat, inc: Queued)
    requires FeedOk(f)
  {
    && Inv(f, t) && t.s.inRecovery && t.s.incremental == inc
    && (if k == 0 then t.c < c || (t.c == c && t.i == 0) else t.c == c && t.i == k && Holding(f, t.s.snapshot, c, k))
  }

  /** During recovery an incremental is queued, and nothing else happens. */
  lemma IncIsQueued(f: Feed, t: Track, n: nat)
    requires FeedOk(f) && Inv(f, t) && t.s.inRecovery && EventOk(f, Inc(n))
    ensures Arrive(f, t, Inc(n)) == t.(s := t.s.(incremental := t.s.incremental[n := f.stream[n - 1]]))
  {
    hide FeedOk, SnapshotQueue, Sync, Inv;
    InvQueue(f, t);
    var s := Enqueue(t.s, false, MessageOf(f, Inc(n)));
    assert s == t.s.(incremental := t.s.incremental[n := f.stream[n - 1]]);
    SyncIdle(f, s, t.src, t.c, t.i);
  }

  lemma MidwayInc(f: Feed, t: Track, c: nat, k: nat, inc: Queued, n: nat)
    requires FeedOk(f) && Midway(f, t, c, k, inc) && EventOk(f, Inc(n))
    ensures Midway(f, Arrive(f, t, Inc(n)), c, k, inc[n := f.stream[n - 1]])
  {
    hide FeedOk, Inv, Holding, Arrive;
    IncrementalKeeps(f, t, n);
    IncIsQueued(f, t, n);
  }

  lemma MidwayIsDeliverable(f: Feed, t: Track, c: nat, k: nat, inc: Queued)
    requires FeedOk(f) && Midway(f, t, c, k, inc) && EventOk(f, Snap(c, k))
    ensures Deliverable(f, t, Snap(c, k))
  {
    hide FeedOk, Inv, Holding;
  }

  lemma KindOf(f: Feed, c: nat, k: nat)
    requires FeedOk(f) && EventOk(f, Snap(c, k))
    ensures var n := f.cycles[c];
            var u := CycleAt(f, n)[k];
            && (u.kind == SNAPSHOT_START <==> k == 0)
            && (u.kind == SNAPSHOT_END <==> k == |CycleAt(f, n)| - 1)
            && |CycleAt(f, n)| >= 2 && (k == 0 || k == |CycleAt(f, n)| - 1 ==> u.id == n)
  {
    CycleShape(f, f.cycles[c]);
    hide FeedOk, CycleAt, Data;
  }

  lemma HoldingNext(f: Feed, q: Queued, c: nat, k: nat, u: Update)
    requires FeedOk(f) && Holding(f, q, c, k) && EventOk(f, Snap(c, k)) && u == CycleAt(f, f.cycles[c])[k] && k !in q
    ensures Holding(f, q[k := u], c, k + 1)
  {
    CycleBound(f, c);
    hide FeedOk, CycleAt, Begins;
    BeginsNext(q, CycleAt(f, f.cycles[c]), k);
  }

  lemma HoldingStart(f: Feed, c: nat, u: Update)
    requires FeedOk(f) && EventOk(f, Snap(c, 0)) && u == CycleAt(f, f.cycles[c])[0]
    ensures Holding(f, map[0 := u], c, 1)
  {
    hide FeedOk, CycleAt;
    SizeOne(0, u);
  }

  /** The next message of the cycle, when it is not the last. */
  lemma MidwayNext(f: Feed, t: Track, c: nat, k: nat, inc: Queued)
    requires FeedOk(f) && Midway(f, t, c, k, inc) && EventOk(f, Snap(c, k)) && k + 1 < |CycleAt(f, f.cycles[c])|
    ensures Midway(f, Arrive(f, t, Snap(c, k)), c, k + 1, inc)
  {
    MidwayIsDeliverable(f, t, c, k, inc);
    ArrivalKeeps(f, t, Snap(c, k));
    KindOf(f, c, k);
    var m := MessageOf(f, Snap(c, k));
    InvQueue(f, t);
    if k == 0 {
      StartArrives(f, t.s, t.src, t.c, t.i, m);
      HoldingStart(f, c, m.update);
    } else {
      NextQueued(f, t, c, k, m);
      HoldingNext(f, t.s.snapshot, c, k, m.update);
    }
    hide FeedOk, Inv, CycleAt, Holding, Sync, Recover, SnapshotQueue;
  }

  lemma InvQueue(f: Feed, t: Track)
    requires FeedOk(f) && Inv(f, t)
    ensures SnapshotQueue(f, t.s.snapshot, t.src, t.c, t.i)
  {
    hide FeedOk, SnapshotQueue;
  }

  /** A message that continues the queue without being the last leaves it waiting for more. */
  lemma NextQueued(f: Feed, t: Track, c: nat, k: nat, m: Message)
    requires FeedOk(f) && SnapshotQueue(f, t.s.snapshot, t.src, t.c, t.i) && k > 0 && |t.s.snapshot| == k
    requires t.c == c && t.i == k && EventOk(f, Snap(c, k)) && m == MessageOf(f, Snap(c, k))
    requires m.update.kind != SNAPSHOT_END
    ensures k !in t.s.snapshot
    ensures Sync(Enqueue(t.s, true, m)) == t.s.(snapshot := t.s.snapshot[k := m.update])
  {
    var q := t.s.snapshot;
    assert Carries(f, c, k, m.update);
    NextArrives(f, q, t.src, t.c, t.i, c, m.update);
    QueueStarts(f, q[k := m.update], t.src + [c], c, k + 1);
    SourcedShape(f, q[k := m.update], t.src + [c]);
    hide FeedOk, SnapshotQueue, Sourced, Contiguous, StartsWithStart, Complete, Recover, Data, Span, CycleAt;
    assert Enqueue(t.s, true, m).snapshot == q[k := m.update];
  }

  lemma {:induction false} MidwayReached(f: Feed, t: Track, es: seq<Event>, c: nat, k: nat)
    requires FeedOk(f) && Midway(f, t, c, 0, t.s.incremental) && c < |f.cycles|
    requires Lossless(f, es, c, k) && k < |CycleAt(f, f.cycles[c])|
    ensures Deliveries(f, t, es) && (forall i :: 0 <= i < |es| ==> EventOk(f, es[i]))
    ensures Midway(f, Deliver(f, t, es), c, k, QueuedAfter(f, t.s.incremental, es))
  {
    hide FeedOk, Midway, CycleAt, Arrive;
    if es != [] {
      var init := es[..|es| - 1];
      match es[|es| - 1]
      case Inc(n) =>
        MidwayReached(f, t, init, c, k);
        MidwayInc(f, Deliver(f, t, init), c, k, QueuedAfter(f, t.s.incremental, init), n);
      case Snap(_, i) =>
        MidwayReached(f, t, init, c, k - 1);
        var t' := Deliver(f, t, init);
        MidwayIsDeliverable(f, t', c, k - 1, QueuedAfter(f, t.s.incremental, init));
        MidwayNext(f, t', c, k - 1, QueuedAfter(f, t.s.incremental, init));
    }
  }

  /** The last message of the cycle. */
  lemma MidwayEnd(f: Feed, t: Track, c: nat, k: nat, inc: Queued)
    requires FeedOk(f) && Midway(f, t, c, k, inc) && EventOk(f, Snap(c, k)) && k + 1 == |CycleAt(f, f.cycles[c])|
    ensures var n := f.cycles[c];
            Arrive(f, t, Snap(c, k)).s == Recover(t.s.(snapshot := t.s.snapshot[k := CycleAt(f, n)[k]]), n + 1,
                Data(CycleAt(f, n)))
    ensures Arrive(f, t, Snap(c, k)).s.inRecovery || Arrive(f, t, Snap(c, k)).agreed
  {
    var n, q := f.cycles[c], t.s.snapshot;
    var m := MessageOf(f, Snap(c, k));
    var q' := q[k := m.update];
    InvQueue(f, t);
    KindOf(f, c, k);
    KindOf(f, c, 0);
    assert Carries(f, c, k, m.update);
    NextArrives(f, q, t.src, t.c, t.i, c, m.update);
    HoldingNext(f, q, c, k, m.update);
    SyncComplete(t.s.(snapshot := q'));
    HoldingAll(f, q', c);
    FirstHeld(f, q, c, k);
    hide FeedOk, SnapshotQueue, Sourced, Contiguous, StartsWithStart, Complete, Recover, Data, Span, CycleAt, Sync, Inv,
        Holding;
    assert Enqueue(t.s, true, m) == t.s.(snapshot := q');
  }

  lemma HoldingAll(f: Feed, q: Queued, c: nat)
    requires FeedOk(f) && c < |f.cycles| && Holding(f, q, c, |CycleAt(f, f.cycles[c])|)
    ensures |q| == |CycleAt(f, f.cycles[c])|
    ensures |q| > 0 ==> |q| - 1 in q && q[|q| - 1] == CycleAt(f, f.cycles[c])[|q| - 1]
    ensures forall k: nat :: k < |q| ==> k in q
    ensures Span(q, 0, |q|) == CycleAt(f, f.cycles[c])
  {
    CycleBound(f, c);
    hide FeedOk, CycleAt;
    SpanIs(q, CycleAt(f, f.cycles[c]), 0);
  }

  lemma FirstHeld(f: Feed, q: Queued, c: nat, k: nat)
    requires FeedOk(f) && Holding(f, q, c, k) && k > 0
    ensures 0 in q && q[0] == CycleAt(f, f.cycles[c])[0]
  {
    hide FeedOk, CycleAt;
  }

  /**
   * Progress: from any state of a recovery, one cycle that arrives whole ends the recovery exactly when nothing is
   * missing among the incrementals queued by then that follow its number. The next expected number is then one past
   * the larger of that number and the highest queued one.
   */
  lemma RecoveryEnds(f: Feed, t: Track, es: seq<Event>, c: nat)
    requires FeedOk(f) && Inv(f, t) && t.s.inRecovery && c < |f.cycles|
    requires t.c < c || (t.c == c && t.i == 0)
    requires Lossless(f, es, c, |CycleAt(f, f.cycles[c])| - 1)
    ensures (forall i :: 0 <= i < |es| ==> EventOk(f, es[i])) && Deliveries(f, t, es)
    ensures var end := Snap(c, |CycleAt(f, f.cycles[c])| - 1);
            && Deliverable(f, Deliver(f, t, es), end)
            && var r, n, q := Arrive(f, Deliver(f, t, es), end), f.cycles[c], QueuedAfter(f, t.s.incremental, es);
               && (!r.s.inRecovery <==> forall k: nat :: k in q ==> k <= n || (forall j: nat :: n < j < k ==> j in q))
               && (!r.s.inRecovery ==>
                     && r.agreed && r.s.next > n && (forall k: nat :: k in q ==> k < r.s.next)
                     && (r.s.next == n + 1 || r.s.next - 1 in q))
  {
    var n, last := f.cycles[c], |CycleAt(f, f.cycles[c])| - 1;
    CycleHasTwo(f, c);
    MidwayReached(f, t, es, c, last);
    var t', q := Deliver(f, t, es), QueuedAfter(f, t.s.incremental, es);
    MidwayIsDeliverable(f, t', c, last, q);
    MidwayEnd(f, t', c, last, q);
    NoGapIff(q, n + 1);
    assert t'.s.incremental == q && t'.s.inRecovery;
    hide FeedOk, CycleAt, Inv, Data, Span, Midway, Deliver, QueuedAfter, Lossless, Arrive, Deliverable, NoGap,
        FirstMissing;
    RecoverNext(t'.s.(snapshot := t'.s.snapshot[last := CycleAt(f, n)[last]]), n + 1, Data(CycleAt(f, n)));
  }

  lemma CycleHasTwo(f: Feed, c: nat)
    requires FeedOk(f) && c < |f.cycles|
    ensures |CycleAt(f, f.cycles[c])| >= 2
  {
    CycleShape(f, f.cycles[c]);
  }

  lemma RecoverNext(s: State, from: nat, events: seq<Update>)
    requires s.inRecovery
    ensures var r := Recover(s, from, events);
            && (!r.inRecovery <==> NoGap(s.incremental, from))
            && (!r.inRecovery ==>
                  && r.next >= from && (forall k: nat :: k in s.incremental ==> k < r.next)
                  && (r.next == from || r.next - 1 in s.incremental))
  {
    hide Data, Span;
  }

  lemma NoGapIff(q: Queued, from: nat)
    ensures NoGap(q, from) <==> forall k: nat :: k in q ==> k < from || (forall j: nat :: from <= j < k ==> j in q)
  {
    var e := FirstMissing(q, from);
    if forall k: nat :: k in q ==> k < from || (forall j: nat :: from <= j < k ==> j in q) {
      forall k: nat | k in q
        ensures k < e
      {
      }
    }
  }

  // ----- spliced cycles

  /**
   * A queue that completes was one whole cycle exactly when its START and END carry the same number. The consumer
   * does not compare the two.
   */
  lemma WholeCycleIff(f: Feed, q: Queued, src: seq<nat>)
    requires FeedOk(f) && Sourced(f, q, src) && Complete(q) && |q| >= 2 && 0 in q
    ensures |q| - 1 in q
    ensures (exists c: nat :: c < |f.cycles| && Span(q, 0, |q|) == CycleAt(f, f.cycles[c])) <==>
            q[0].id == q[|q| - 1].id
  {
    CompleteEnds(q);
    SourcedShape(f, q, src);
    if q[0].id == q[|q| - 1].id {
      CompleteIsCycle(f, q, src);
    }
    hide FeedOk, CycleAt, Sourced, Complete;
    forall c: nat | c < |f.cycles| && Span(q, 0, |q|) == CycleAt(f, f.cycles[c])
      ensures q[0].id == q[|q| - 1].id
    {
      CycleBound(f, c);
      WholeHasOneNumber(f, q, f.cycles[c]);
    }
  }

  /**
   * For the right data equal numbers are not necessary: it is enough that everything after START came from cycles taken
   * at the number of END.
   */
  lemma StartDoesNotMatter(f: Feed, q: Queued, src: seq<nat>)
    requires FeedOk(f) && Sourced(f, q, src) && Complete(q) && |src| == |q| >= 2 && 0 in q
    requires src[1] < |f.cycles| && src[|src| - 1] < |f.cycles| && f.cycles[src[1]] == f.cycles[src[|src| - 1]]
    ensures f.cycles[src[1]] <= |f.stream|
    ensures Data(Span(q, 0, |q|)) == Data(CycleAt(f, f.cycles[src[1]]))
  {
    var n := f.cycles[src[1]];
    CycleBound(f, src[1]);
    CompleteEnds(q);
    SourcedShape(f, q, src);
    OneCycle(f, q, src, 0);
    OneCycle(f, q, src, |q| - 1);
    CycleShape(f, f.cycles[src[0]]);
    CycleShape(f, n);
    hide FeedOk, CycleAt, Complete, Contiguous;
    forall j: nat | 1 <= j < |q|
      ensures j in q && j < |CycleAt(f, n)| && q[j] == CycleAt(f, n)[j]
    {
      LaterCycle(f, q, src, j);
    }
    hide Sourced;
    EndIsLast(f, n, |q| - 1);
    SpanAfterStart(q, CycleAt(f, n));
  }

  lemma LaterCycle(f: Feed, q: Queued, src: seq<nat>, j: nat)
    requires FeedOk(f) && Sourced(f, q, src) && 1 <= j < |src|
    requires src[1] < |f.cycles| && src[|src| - 1] < |f.cycles|
    requires f.cycles[src[1]] == f.cycles[src[|src| - 1]] <= |f.stream|
    ensures j in q && j < |CycleAt(f, f.cycles[src[1]])| && q[j] == CycleAt(f, f.cycles[src[1]])[j]
  {
    hide CycleAt, Contiguous;
    assert FromCycle(f, q, j, src[j]);
    assert src[1] <= src[j] <= src[|src| - 1];
    assert f.cycles[src[1]] <= f.cycles[src[j]] <= f.cycles[src[|src| - 1]];
  }

  lemma SpanAfterStart(q: Queued, us: seq<Update>)
    requires |us| >= 2 && 0 in q && !IsData(q[0]) && !IsData(us[0])
    requires forall j: nat :: 1 <= j < |us| ==> j in q && q[j] == us[j]
    ensures Data(Span(q, 0, |us|)) == Data(us)
  {
    SpanIs(q, us, 1);
    assert us == [us[0]] + us[1..];
    assert Span(q, 0, |us|) == [q[0]] + us[1..];
    hide Span, Data;
    DataConcat([q[0]], us[1..]);
    DataConcat([us[0]], us[1..]);
    DataOne(q[0]);
    DataOne(us[0]);
  }

  lemma WholeHasOneNumber(f: Feed, q: Queued, n: nat)
    requires n <= |f.stream| && (forall k: nat :: k < |q| ==> k in q) && Span(q, 0, |q|) == CycleAt(f, n)
    ensures |q| > 0 && q[0].id == q[|q| - 1].id
  {
    SpanLength(q, 0, |q|);
    CycleShape(f, n);
    hide CycleAt, Span, Data;
    SpanAt(q, 0, |q|, 0);
    SpanAt(q, 0, |q|, |q| - 1);
  }

  lemma {:induction false} SpanAt(q: Queued, lo: nat, hi: nat, k: nat)
    requires lo <= k < hi && forall j: nat :: lo <= j < hi ==> j in q
    ensures |Span(q, lo, hi)| == hi - lo && Span(q, lo, hi)[k - lo] == q[k]
    decreases hi - lo
  {
    if lo < k {
      SpanAt(q, lo + 1, hi, k);
    } else {
      SpanLength(q, lo, hi);
    }
  }

  lemma {:induction false} SpanLength(q: Queued, lo: nat, hi: nat)
    requires lo <= hi && forall j: nat :: lo <= j < hi ==> j in q
    ensures |Span(q, lo, hi)| == hi - lo
    decreases hi - lo
  {
    if lo < hi {
      SpanLength(q, lo + 1, hi);
    }
  }

  const OneAdded: Update := Update(ADD, 1, 0, Buy, 100, 5, 1)
  const OneGone: Update := Update(CANCEL, 1, 0, Buy, 100, 5, 1)
  const TwoAdded: Update := Update(ADD, 2, 0, Buy, 101, 7, 1)

  /** Order 1 comes and goes, order 2 comes; cycles are taken after the first and after the last update. */
  const SpliceFeed: Feed := Feed(1, 3, [OneAdded, OneGone, TwoAdded], [1, 3])

  function BidsOnly(orders: seq<Public>, nextId: nat): Market {
    [Pub(orders, [], nextId)]
  }

  lemma SpliceBooks()
    ensures Stream(Opening(1), SpliceFeed.stream)
    ensures PlayAll(Opening(1), SpliceFeed.stream) == BidsOnly([Entry(2, OrderOf(TwoAdded))], 3)
  {
    var one := [Entry(1, OrderOf(OneAdded))];
    assert Insert<nat>([], one[0]) == one;
    assert Insert<nat>([], Entry(2, OrderOf(TwoAdded))) == [Entry(2, OrderOf(TwoAdded))];
    assert one[1..] == [];
    assert Without(one, 1) == [];
    assert Opening(1) == BidsOnly([], 1);
    assert Play(BidsOnly([], 1), OneAdded) == BidsOnly(one, 2);
    assert IndexOf(one, 1) == 0 && Holds(one, 1, 100);
    assert Play(BidsOnly(one, 2), OneGone) == BidsOnly([], 2);
    assert Play(BidsOnly([], 2), TwoAdded) == BidsOnly([Entry(2, OrderOf(TwoAdded))], 3);
    assert FitsMarket(BidsOnly([], 1), OneAdded) && FitsMarket(BidsOnly(one, 2), OneGone)
        && FitsMarket(BidsOnly([], 2), TwoAdded);
    hide Play, FitsMarket, BidsOnly, PlayAll, Stream;
    assert SpliceFeed.stream == [OneAdded] + [OneGone, TwoAdded] && [OneGone, TwoAdded] == [OneGone] + [TwoAdded];
    PlayCons(BidsOnly([], 1), OneAdded, [OneGone, TwoAdded]);
    PlayCons(BidsOnly(one, 2), OneGone, [TwoAdded]);
    PlayCons(BidsOnly([], 2), TwoAdded, []);
  }

  lemma PlayCons(m: Market, u: Update, us: seq<Update>)
    ensures PlayAll(m, [u] + us) == PlayAll(Play(m, u), us)
    ensures Stream(m, [u] + us) <==> FitsMarket(m, u) && Stream(Play(m, u), us)
    ensures us == [] ==> PlayAll(Play(m, u), us) == Play(m, u) && Stream(Play(m, u), us)
  {
    assert ([u] + us)[1..] == us;
  }

  /** Whatever was there before, the spliced messages leave order 1 alone in the book. */
  lemma SpliceLeaves(forwarded: seq<Update>)
    ensures var m := PlayAll(Opening(1), forwarded + [ClearOf(0), OneAdded] + []);
            |m| == 1 && m[0].bids == [Entry(1, OrderOf(OneAdded))]
  {
    var m := PlayAll(Opening(1), forwarded);
    var id := m[0].nextId;
    assert forwarded + [ClearOf(0), OneAdded] + [] == forwarded + ([ClearOf(0)] + [OneAdded]);
    assert Insert<nat>([], Entry(1, OrderOf(OneAdded))) == [Entry(1, OrderOf(OneAdded))];
    assert m[0 := Pub([], [], id)] == BidsOnly([], id);
    assert Play(m, ClearOf(0)) == BidsOnly([], id);
    assert Play(BidsOnly([], id), OneAdded) == BidsOnly([Entry(1, OrderOf(OneAdded))], 2);
    PlayConcat(Opening(1), forwarded, [ClearOf(0)] + [OneAdded]);
    PlayCons(m, ClearOf(0), [OneAdded]);
    PlayCons(BidsOnly([], id), OneAdded, []);
    assert [OneAdded] + [] == [OneAdded];
  }

  lemma AscendingThree(orders: LiveOrders)
    ensures Ascending(orders, 3) == (if 0 in orders then [orders[0]] else [])
            + (if 1 in orders then [orders[1]] else [])
                                    + (if 2 in orders then [orders[2]] else [])
  {
    assert Ascending(orders, 2) == Ascending(orders, 1) + if 1 in orders then [orders[1]] else [];
    assert Ascending(orders, 1) == if 0 in orders then [orders[0]] else [];
  }

  lemma SpliceNoted()
    ensures Noted(1, SpliceFeed.stream[..1]) == [map[1 := OneAdded]]
    ensures Noted(1, SpliceFeed.stream[..3]) == [map[2 := TwoAdded]]
  {
    var us := SpliceFeed.stream;
    assert us[..1][..0] == [] && us[..2][..1] == us[..1] && us[..3][..2] == us[..2];
    assert Noted(1, []) == [map[]];
    assert Noted(1, us[..1]) == [map[1 := OneAdded]];
    assert Noted(1, us[..2]) == [map[]];
    assert Noted(1, us[..3]) == [map[2 := TwoAdded]];
  }

  lemma SpliceCycles()
    ensures CycleAt(SpliceFeed, 1) == [Boundary(SNAPSHOT_START, 1), ClearOf(0), OneAdded, Boundary(SNAPSHOT_END, 1)]
    ensures CycleAt(SpliceFeed, 3) == [Boundary(SNAPSHOT_START, 3), ClearOf(0), TwoAdded, Boundary(SNAPSHOT_END, 3)]
  {
    SpliceNoted();
    AscendingThree(map[1 := OneAdded]);
    AscendingThree(map[2 := TwoAdded]);
    hide Noted, Ascending;
    var one, two: seq<LiveOrders> := [map[1 := OneAdded]], [map[2 := TwoAdded]];
    assert Payload(one, 0, 3) == [] && Payload(two, 0, 3) == [];
    assert Payload(one, 1, 3) == [ClearOf(0), OneAdded];
    assert Payload(two, 1, 3) == [ClearOf(0), TwoAdded];
  }

  lemma SpliceFeedOk()
    ensures FeedOk(SpliceFeed)
  {
    SpliceBooks();
    hide Stream;
  }

  /** The first three messages of the cycle at 1, and the last of the cycle at 3. */
  const SpliceSnapshots: seq<Event> := [Snap(0, 0), Snap(0, 1), Snap(0, 2)]

  const GapSeen: Track := Track(State(1, true, map[], map[2 := OneGone], []), [], 0, 0, true)

  lemma GapArises()
    requires FeedOk(SpliceFeed)
    ensures Deliveries(SpliceFeed, Fresh, [Inc(2)]) && Deliver(SpliceFeed, Fresh, [Inc(2)]) == GapSeen
  {
    var f := SpliceFeed;
    assert [Inc(2)][..0] == [];
    assert EventOk(f, Inc(2)) && MessageOf(f, Inc(2)) == Message(2, OneGone);
    assert Arrive(f, Fresh, Inc(2)) == GapSeen;
    assert Deliver(f, Fresh, []) == Fresh;
  }

  lemma LosslessNext(f: Feed, es: seq<Event>, c: nat, k: nat, q: Queued)
    requires FeedOk(f) && Lossless(f, es, c, k) && EventOk(f, Snap(c, k))
             && forall i :: 0 <= i < |es| ==> EventOk(f, es[i])
    ensures Lossless(f, es + [Snap(c, k)], c, k + 1)
    ensures forall i :: 0 <= i < |es + [Snap(c, k)]| ==> EventOk(f, (es + [Snap(c, k)])[i])
    ensures QueuedAfter(f, q, es + [Snap(c, k)]) == QueuedAfter(f, q, es)
  {
    hide FeedOk, EventOk;
    assert (es + [Snap(c, k)])[..|es|] == es;
  }

  lemma SpliceEvents()
    requires FeedOk(SpliceFeed)
    ensures EventOk(SpliceFeed, Snap(0, 0)) && EventOk(SpliceFeed, Snap(0, 1)) && EventOk(SpliceFeed, Snap(0, 2))
    ensures EventOk(SpliceFeed, Snap(1, 3))
    ensures EventOk(SpliceFeed, Inc(2)) && |CycleAt(SpliceFeed, 1)| == 4
    ensures Inv(SpliceFeed, GapSeen)
  {
    SpliceCycles();
    NothingSourced(SpliceFeed);
  }

  lemma SpliceDelivered()
    requires FeedOk(SpliceFeed)
    ensures Deliveries(SpliceFeed, GapSeen, SpliceSnapshots)
    ensures Midway(SpliceFeed, Deliver(SpliceFeed, GapSeen, SpliceSnapshots), 0, 3, map[2 := OneGone])
  {
    SpliceEvents();
    hide FeedOk, EventOk, CycleAt, Inv, Arrive;
    var f, es := SpliceFeed, SpliceSnapshots;
    var q: Queued := map[2 := OneGone];
    LosslessNext(f, [], 0, 0, q);
    LosslessNext(f, [] + [Snap(0, 0)], 0, 1, q);
    LosslessNext(f, [] + [Snap(0, 0)] + [Snap(0, 1)], 0, 2, q);
    hide Lossless, QueuedAfter;
    assert es == [] + [Snap(0, 0)] + [Snap(0, 1)] + [Snap(0, 2)];
    EmptyQueued(f, q);
    MidwayReached(f, GapSeen, es, 0, 3);
  }

  lemma EmptyQueued(f: Feed, q: Queued)
    requires FeedOk(f)
    ensures QueuedAfter(f, q, []) == q
  {
  }

  /** The spliced queue is gapless, and its data are those of the earlier cycle. */
  lemma SpliceSpan(q: Queued)
    requires Begins(q, CycleAt(SpliceFeed, 1), 3) && 3 !in q
    ensures var q' := q[3 := Boundary(SNAPSHOT_END, 3)];
            && |q'| == 4 && (forall k: nat :: k < 4 ==> k in q')
            && Data(Span(q', 0, 4)) == [ClearOf(0), OneAdded] && q'[3].id == 3
  {
    var us := [Boundary(SNAPSHOT_START, 1), ClearOf(0), OneAdded, Boundary(SNAPSHOT_END, 3)];
    var q' := q[3 := us[3]];
    SplicedIs(q, us);
    hide CycleAt, Begins, Span, Data;
    DataFour(us[0], us[1], us[2], us[3]);
    SpanIs(q', us, 0);
    assert us[0..] == us;
  }

  lemma SplicedIs(q: Queued, us: seq<Update>)
    requires Begins(q, CycleAt(SpliceFeed, 1), 3) && 3 !in q
    requires us == [Boundary(SNAPSHOT_START, 1), ClearOf(0), OneAdded, Boundary(SNAPSHOT_END, 3)]
    ensures var q' := q[3 := us[3]]; |q'| == 4 && forall k: nat :: k < 4 ==> k in q' && q'[k] == us[k]
  {
    SpliceCycles();
    QueueGrows(q, 3, us[3]);
    assert CycleAt(SpliceFeed, 1)[..3] == us[..3];
    hide CycleAt;
  }

  lemma SpliceQueue(s: State)
    requires Begins(s.snapshot, CycleAt(SpliceFeed, 1), 3) && 3 !in s.snapshot && s.incremental == map[2 := OneGone]
    requires Complete(s.snapshot[3 := Boundary(SNAPSHOT_END, 3)])
    ensures Sync(s.(snapshot := s.snapshot[3 := Boundary(SNAPSHOT_END, 3)]))
         == State(4, false, map[], map[], s.forwarded + [ClearOf(0), OneAdded] + [])
  {
    var s' := s.(snapshot := s.snapshot[3 := Boundary(SNAPSHOT_END, 3)]);
    SpliceSpan(s.snapshot);
    MissingIs(s.incremental, 4, 4);
    assert NoGap(s.incremental, 4);
    SpanNone(s.incremental, 4);
    hide Sync, Complete, CycleAt, Span, Recover, Data, NoGap, Begins;
    SyncComplete(s');
    RecoverIs(s', 4, [ClearOf(0), OneAdded]);
  }

  lemma SpanNone(q: Queued, n: nat)
    ensures Data(Span(q, n, n)) == []
  {
  }

  lemma DataFour(a: Update, b: Update, c: Update, d: Update)
    requires !IsData(a) && IsData(b) && IsData(c) && !IsData(d)
    ensures Data([a, b, c, d]) == [b, c]
  {
    DataConcat([a, b], [c, d]);
    DataConcat([a], [b]);
    DataConcat([c], [d]);
    DataOne(a);
    DataOne(b);
    DataOne(c);
    DataOne(d);
    assert [a, b, c, d] == [a, b] + [c, d] && [a, b] == [a] + [b] && [c, d] == [c] + [d];
  }

  lemma SpliceEnds(t: Track)
    requires FeedOk(SpliceFeed) && Midway(SpliceFeed, t, 0, 3, map[2 := OneGone])
    ensures Deliverable(SpliceFeed, t, Snap(1, 3))
    ensures var r := Arrive(SpliceFeed, t, Snap(1, 3));
            !r.s.inRecovery && r.s.next == 4 && !r.agreed
                && r.s.forwarded == t.s.forwarded + [ClearOf(0), OneAdded] + []
  {
    var f, q := SpliceFeed, t.s.snapshot;
    SpliceCycles();
    assert EventOk(f, Snap(1, 3));
    var m := MessageOf(f, Snap(1, 3));
    assert m == Message(3, Boundary(SNAPSHOT_END, 3));
    assert Carries(f, 1, 3, m.update);
    InvQueue(f, t);
    NextArrives(f, q, t.src, t.c, t.i, 1, m.update);
    SpliceQueue(t.s);
    FirstHeld(f, q, 0, 3);
    hide FeedOk, CycleAt, SnapshotQueue, Sourced, Carries, Complete, Sync, Inv, Data;
    assert Enqueue(t.s, true, m) == t.s.(snapshot := q[3 := m.update]);
  }

  /**
   * The counterexample: update 2 arrives first and starts recovery, then the first three messages of one cycle and,
   * all between being lost, the last of the next. The consumer leaves recovery expecting number 4 with order 1 in
   * its book, while after update 3 the exchange has order 2 only.
   */
  lemma SplicedCycleIsWrong()
    ensures FeedOk(SpliceFeed)
    ensures var bs := [Batch(false, [Inc(2)]), Batch(true, SpliceSnapshots + [Snap(1, 3)])];
            Runs(SpliceFeed, bs)
            && var t := After(SpliceFeed, bs);
               && !t.s.inRecovery && t.s.next == 4 && !t.agreed
               && !SameMarket(PlayAll(Opening(1), t.s.forwarded), PlayAll(Opening(1), SpliceFeed.stream[..3]))
  {
    SpliceFeedOk();
    var t := SpliceRun();
    SpliceLeaves(t.s.forwarded);
    SpliceBooks();
    assert SpliceFeed.stream[..3] == SpliceFeed.stream;
    hide FeedOk, PlayAll, Midway, Runs, After;
  }

  lemma SpliceRun() returns (t: Track)
    requires FeedOk(SpliceFeed)
    ensures var bs := [Batch(false, [Inc(2)]), Batch(true, SpliceSnapshots + [Snap(1, 3)])];
            Runs(SpliceFeed, bs)
            && var r := After(SpliceFeed, bs);
               !r.s.inRecovery && r.s.next == 4 && !r.agreed
                   && r.s.forwarded == t.s.forwarded + [ClearOf(0), OneAdded] + []
  {
    GapArises();
    SpliceDelivered();
    t := Deliver(SpliceFeed, GapSeen, SpliceSnapshots);
    SpliceEnds(t);
    hide FeedOk, EventOk, CycleAt, Arrive, Midway, Inv, Deliverable, After, Runs, Deliveries, Deliver;
    LastDelivered(SpliceFeed, GapSeen, SpliceSnapshots, Snap(1, 3));
    SpliceBatches();
    TwoTurns(SpliceFeed, Batch(false, [Inc(2)]), Batch(true, SpliceSnapshots + [Snap(1, 3)]), GapSeen);
  }

  lemma SpliceBatches()
    requires FeedOk(SpliceFeed) && Deliveries(SpliceFeed, Fresh, [Inc(2)])
    requires Deliveries(SpliceFeed, GapSeen, SpliceSnapshots + [Snap(1, 3)])
    ensures BatchOk(SpliceFeed, Fresh, Batch(false, [Inc(2)]))
    ensures BatchOk(SpliceFeed, GapSeen, Batch(true, SpliceSnapshots + [Snap(1, 3)]))
  {
    SpliceEvents();
    hide *;
    IncrementalBatch(SpliceFeed, Fresh, Inc(2));
    SnapshotBatch(SpliceFeed, GapSeen, SpliceSnapshots, Snap(1, 3));
  }

  lemma IncrementalBatch(f: Feed, t: Track, e: Event)
    requires FeedOk(f) && EventOk(f, e) && e.Inc? && Deliveries(f, t, [e])
    ensures BatchOk(f, t, Batch(false, [e]))
  {
    hide FeedOk, EventOk, Deliveries;
  }

  lemma SnapshotBatch(f: Feed, t: Track, es: seq<Event>, e: Event)
    requires FeedOk(f) && EventOk(f, e) && e.Snap? && Deliveries(f, t, es + [e])
    requires |es| == 3 && es[0].Snap? && es[1].Snap? && es[2].Snap?
    requires EventOk(f, es[0]) && EventOk(f, es[1]) && EventOk(f, es[2])
    ensures BatchOk(f, t, Batch(true, es + [e]))
  {
    hide FeedOk, EventOk, Deliveries;
  }

  lemma LastDelivered(f: Feed, t: Track, es: seq<Event>, e: Event)
    requires FeedOk(f) && Deliveries(f, t, es) && Deliverable(f, Deliver(f, t, es), e)
    ensures Deliveries(f, t, es + [e]) && Deliver(f, t, es + [e]) == Arrive(f, Deliver(f, t, es), e)
  {
    hide FeedOk, Deliverable, Arrive;
    assert (es + [e])[..|es|] == es;
  }

  lemma TwoTurns(f: Feed, first: Batch, second: Batch, mid: Track)
    requires FeedOk(f) && BatchOk(f, Fresh, first) && Turn(f, Fresh, first) == mid && BatchOk(f, mid, second)
    ensures Runs(f, [first, second]) && After(f, [first, second]) == Turn(f, mid, second)
  {
    hide FeedOk, BatchOk, Turn;
    assert [first, second][..1] == [first] && [first][..0] == [];
    assert Runs(f, []) && After(f, []) == Fresh;
    assert Runs(f, [first]) && After(f, [first]) == mid;
  }
}
