/**
 * The recovery protocol over a lossy network: incremental messages may be lost, duplicated or reordered, snapshot
 * messages may be lost. Whenever the consumer is not in recovery, what it forwarded replays to the exchange's books.
 */
module Recoveries {
  import opened Types
  import opened Markets
  import opened Snapshots
  import opened Consumers

  /** Everything the exchange publishes: the incremental stream, and at which updates snapshot cycles are taken. */
  datatype Feed = Feed(tickers: nat, maxIds: nat, stream: seq<Update>, cycles: seq<nat>)

  ghost predicate FeedOk(f: Feed) {
    && f.maxIds > 0 && Stream(Opening(f.tickers), f.stream)
    && (forall i :: 0 <= i < |f.stream| && f.stream[i].kind == ADD ==> f.stream[i].id < f.maxIds)
    && (forall c :: 0 <= c < |f.cycles| ==> f.cycles[c] <= |f.stream|)
    && (forall c, d :: 0 <= c < d < |f.cycles| ==> f.cycles[c] <= f.cycles[d])
  }

  /** The market after the first n updates. */
  function MarketAt(f: Feed, n: nat): Market
    requires n <= |f.stream|
  {
    PlayAll(Opening(f.tickers), f.stream[..n])
  }

  /** The messages of a cycle taken after n updates. */
  function CycleAt(f: Feed, n: nat): seq<Update>
    requires n <= |f.stream|
  {
    Cycle(Noted(f.tickers, f.stream[..n]), n, f.maxIds)
  }

  /** The arrival of incremental message n, or of message i of cycle c. */
  datatype Event = Inc(n: nat) | Snap(c: nat, i: nat)

  ghost predicate EventOk(f: Feed, e: Event)
    requires FeedOk(f)
  {
    match e
    case Inc(n) => 1 <= n <= |f.stream|
    case Snap(c, i) => c < |f.cycles| && i < |CycleAt(f, f.cycles[c])|
  }

  function MessageOf(f: Feed, e: Event): Message
    requires FeedOk(f) && EventOk(f, e)
  {
    match e
    case Inc(n) => Message(n, f.stream[n - 1])
    case Snap(c, i) => Message(i, CycleAt(f, f.cycles[c])[i])
  }

  // ----- the shape of a cycle

  lemma NoteKinds(orders: LiveOrders, u: Update)
    requires forall id :: id in orders ==> orders[id].kind == ADD
    ensures forall id :: id in Note(orders, u) ==> Note(orders, u)[id].kind == ADD
  {
  }

  ghost predicate OnlyAdds(book: seq<LiveOrders>) {
    forall t, id :: 0 <= t < |book| && id in book[t] ==> book[t][id].kind == ADD
  }

  lemma {:induction false} NotedKinds(tickers: nat, us: seq<Update>)
    ensures OnlyAdds(Noted(tickers, us))
  {
    if us != [] {
      NotedKinds(tickers, us[..|us| - 1]);
      var book, u := Noted(tickers, us[..|us| - 1]), us[|us| - 1];
      if u.ticker < tickers {
        NoteKinds(book[u.ticker], u);
      }
    }
  }

  lemma {:induction false} AscendingIsData(orders: LiveOrders, max: nat)
    requires forall id :: id in orders ==> orders[id].kind == ADD
    ensures forall i :: 0 <= i < |Ascending(orders, max)| ==> IsData(Ascending(orders, max)[i])
  {
    if max > 0 {
      AscendingIsData(orders, max - 1);
    }
  }

  lemma {:induction false} PayloadIsData(book: seq<LiveOrders>, n: nat, maxIds: nat)
    requires n <= |book| && OnlyAdds(book)
    ensures forall i :: 0 <= i < |Payload(book, n, maxIds)| ==> IsData(Payload(book, n, maxIds)[i])
  {
    if n > 0 {
      PayloadIsData(book, n - 1, maxIds);
      AscendingIsData(book[n - 1], maxIds);
    }
  }

  lemma {:induction false} AllData(us: seq<Update>)
    requires forall i :: 0 <= i < |us| ==> IsData(us[i])
    ensures Data(us) == us
  {
    if us != [] {
      AllData(us[1..]);
    }
  }

  /** A cycle starts with its only START and ends with its only END, both carrying the number of updates it reflects. */
  lemma CycleShape(f: Feed, n: nat)
    requires n <= |f.stream|
    ensures var c := CycleAt(f, n);
            && |c| >= 2
            && c[0].kind == SNAPSHOT_START && c[0].id == n
            && c[|c| - 1].kind == SNAPSHOT_END && c[|c| - 1].id == n
            && (forall i :: 0 < i < |c| - 1 ==> IsData(c[i]))
            && Data(c) == Payload(Noted(f.tickers, f.stream[..n]), f.tickers, f.maxIds)
  {
    var book := Noted(f.tickers, f.stream[..n]);
    var payload := Payload(book, f.tickers, f.maxIds);
    NotedKinds(f.tickers, f.stream[..n]);
    PayloadIsData(book, f.tickers, f.maxIds);
    var start, end := Boundary(SNAPSHOT_START, n), Boundary(SNAPSHOT_END, n);
    var c := CycleAt(f, n);
    assert forall i :: 0 < i < |c| - 1 ==> c[i] == payload[i - 1];
    DataConcat([start] + payload, [end]);
    DataConcat([start], payload);
    DataOne(start);
    DataOne(end);
    AllData(payload);
  }

  // ----- replaying from different starting points

  lemma {:induction false} PlaySame(m: Market, w: Market, us: seq<Update>)
    requires SameMarket(m, w)
    ensures SameMarket(PlayAll(m, us), PlayAll(w, us))
    decreases |us|
  {
    if us != [] {
      PlaySame(Play(m, us[0]), Play(w, us[0]), us[1..]);
    }
  }

  /** Forwarding the next stretch of the stream advances a faithful replay. */
  lemma Advance(f: Feed, forwarded: seq<Update>, n: nat, e: nat)
    requires n <= e <= |f.stream|
    requires SameMarket(PlayAll(Opening(f.tickers), forwarded), MarketAt(f, n))
    ensures SameMarket(PlayAll(Opening(f.tickers), forwarded + f.stream[n..e]), MarketAt(f, e))
  {
    PlayConcat(Opening(f.tickers), forwarded, f.stream[n..e]);
    assert f.stream[..e] == f.stream[..n] + f.stream[n..e];
    PlayConcat(Opening(f.tickers), f.stream[..n], f.stream[n..e]);
    PlaySame(PlayAll(Opening(f.tickers), forwarded), MarketAt(f, n), f.stream[n..e]);
  }

  /** Forwarding the payload of a cycle makes any replay faithful. */
  lemma Resynchronize(f: Feed, forwarded: seq<Update>, n: nat)
    requires FeedOk(f) && n <= |f.stream|
    ensures SameMarket(PlayAll(Opening(f.tickers), forwarded + Data(CycleAt(f, n))), MarketAt(f, n))
  {
    var us := f.stream[..n];
    assert f.stream == us + f.stream[n..];
    PlayConcat(Opening(f.tickers), us, f.stream[n..]);
    NotedCovers(f.tickers, us, f.maxIds);
    CycleShape(f, n);
    PlayConcat(Opening(f.tickers), forwarded, Data(CycleAt(f, n)));
    SnapshotRoundTrip(Noted(f.tickers, us), MarketAt(f, n), f.maxIds, PlayAll(Opening(f.tickers), forwarded));
  }

  lemma {:induction false} StreamIsData(m: Market, us: seq<Update>)
    requires Stream(m, us)
    ensures forall i :: 0 <= i < |us| ==> IsData(us[i])
    decreases |us|
  {
    if us != [] {
      StreamIsData(Play(m, us[0]), us[1..]);
    }
  }

  // ----- the invariant

  /** Queued incrementals are messages of the stream under their own numbers. */
  ghost predicate Genuine(f: Feed, q: Queued) {
    forall k :: k in q ==> 1 <= k <= |f.stream| && q[k] == f.stream[k - 1]
  }

  /** Queued snapshot message i came from message i of cycle c. */
  ghost predicate FromCycle(f: Feed, q: Queued, i: nat, c: nat)
    requires FeedOk(f)
  {
    c < |f.cycles| && i < |CycleAt(f, f.cycles[c])| && i in q && q[i] == CycleAt(f, f.cycles[c])[i]
  }

  ghost predicate NotDecreasing(src: seq<nat>) {
    forall j, k :: 0 <= j < k < |src| ==> src[j] <= src[k]
  }

  /** The queue has keys 0, 1, ...; message i came from cycle src[i], and the cycles do not go back. */
  ghost predicate Sourced(f: Feed, q: Queued, src: seq<nat>)
    requires FeedOk(f)
  {
    && |src| == |q| && Contiguous(q) && NotDecreasing(src)
    && (forall j: nat {:trigger FromCycle(f, q, j, src[j])} :: j < |src| ==> FromCycle(f, q, j, src[j]))
  }

  /**
   * The snapshot queue is empty or has keys 0, 1, ..., starting with START and not ending with END, and its
   * messages came from before the point (c, i) of the snapshot stream, in order.
   */
  ghost predicate SnapshotQueue(f: Feed, q: Queued, src: seq<nat>, c: nat, i: nat)
    requires FeedOk(f)
  {
    && Sourced(f, q, src)
    && (|src| > 0 ==> src[|src| - 1] < c || (src[|src| - 1] == c && |src| <= i))
    && (|src| > 0 ==> |q| - 1 in q && q[|q| - 1].kind != SNAPSHOT_END)
  }

  /** A consumer with what is known of its past: the sources of its queue, and how far the snapshot stream has come. */
  datatype Track = Track(s: State, src: seq<nat>, c: nat, i: nat, agreed: bool)

  ghost predicate Inv(f: Feed, t: Track)
    requires FeedOk(f)
  {
    && Genuine(f, t.s.incremental)
    && SnapshotQueue(f, t.s.snapshot, t.src, t.c, t.i)
    && (!t.s.inRecovery ==>
          && t.s.snapshot == map[] && t.s.incremental == map[]
          && 1 <= t.s.next <= |f.stream| + 1
          && (t.agreed ==> SameMarket(PlayAll(Opening(f.tickers), t.s.forwarded), MarketAt(f, t.s.next - 1))))
  }

  /** An arrival the network may deliver: snapshot messages do not overtake each other. */
  ghost predicate Deliverable(f: Feed, t: Track, e: Event)
    requires FeedOk(f)
  {
    EventOk(f, e) && (e.Snap? ==> t.c < e.c || (t.c == e.c && t.i <= e.i))
  }

  /** One arrival. agreed records whether the latest accepted cycle had equal numbers in START and END. */
  ghost function Arrive(f: Feed, t: Track, e: Event): Track
    requires FeedOk(f) && EventOk(f, e)
  {
    var m := MessageOf(f, e);
    var s := Receive(t.s, e.Snap?, m);
    match e
    case Inc(_) => t.(s := s)
    case Snap(c, i) =>
      Track(s,
            if s.snapshot == map[] then [] else if i == 0 then [c] else t.src + [c],
            c, i + 1,
            if t.s.inRecovery && !s.inRecovery then 0 in t.s.snapshot
                && t.s.snapshot[0].id == m.update.id else t.agreed)
  }

  lemma SizeOne(k: nat, u: Update)
    ensures |map[k := u]| == 1
  {
  }

  lemma QueueStarts(f: Feed, q: Queued, src: seq<nat>, c: nat, i: nat)
    requires FeedOk(f) && SnapshotQueue(f, q, src, c, i) && q != map[]
    ensures |src| > 0 && src[0] < |f.cycles| && 0 in q && q[0].kind == SNAPSHOT_START && q[0].id == f.cycles[src[0]]
    ensures StartsWithStart(q) && !Complete(q)
  {
    assert |src| > 0;
    assert FromCycle(f, q, 0, src[0]);
    CycleShape(f, f.cycles[src[0]]);
    assert 0 in q && (forall j: nat :: j in q ==> 0 <= j);
  }

  /** Arrivals that leave the snapshot queue alone do not end recovery. */
  lemma SyncIdle(f: Feed, s: State, src: seq<nat>, c: nat, i: nat)
    requires FeedOk(f) && SnapshotQueue(f, s.snapshot, src, c, i)
    ensures Sync(s) == s
  {
    if s.snapshot != map[] {
      QueueStarts(f, s.snapshot, src, c, i);
    }
  }

  lemma IncrementalKeeps(f: Feed, t: Track, n: nat)
    requires FeedOk(f) && Inv(f, t) && EventOk(f, Inc(n))
    ensures Inv(f, Arrive(f, t, Inc(n)))
  {
    hide FeedOk, SnapshotQueue, SameMarket, Sync, PlayAll;
    var u := f.stream[n - 1];
    if !t.s.inRecovery && n == t.s.next {
      if t.agreed {
        Advance(f, t.s.forwarded, n - 1, n);
        assert f.stream[n - 1..n] == [u];
      }
    } else {
      var s := if t.s.inRecovery then t.s else t.s.(inRecovery := true, snapshot := map[], incremental := map[]);
      SyncIdle(f, Enqueue(s, false, Message(n, u)), t.src, t.c, t.i);
    }
  }

  // ----- a snapshot message

  lemma OnlyStart(u: Update)
    requires u.kind == SNAPSHOT_START
    ensures var q: Queued := map[0 := u]; q != map[] && StartsWithStart(q) && Contiguous(q) && !Complete(q)
  {
    var q: Queued := map[0 := u];
    SizeOne(0, u);
    assert 0 in q && (forall j: nat :: j in q ==> 0 <= j);
  }

  /** START always leaves exactly itself in the queue. */
  lemma StartArrives(f: Feed, s: State, src: seq<nat>, c: nat, i: nat, m: Message)
    requires FeedOk(f) && SnapshotQueue(f, s.snapshot, src, c, i)
    requires m.seqNum == 0 && m.update.kind == SNAPSHOT_START
    ensures Sync(Enqueue(s, true, m)) == s.(snapshot := map[0 := m.update])
  {
    if s.snapshot != map[] {
      QueueStarts(f, s.snapshot, src, c, i);
    }
    OnlyStart(m.update);
    hide FeedOk, SnapshotQueue, Sourced, Contiguous, StartsWithStart, Complete, Recover, Data, Span;
    assert Enqueue(s, true, m).snapshot == map[0 := m.update];
  }

  /** A message that is not the next of the queue empties it. */
  lemma GapArrives(f: Feed, s: State, src: seq<nat>, c: nat, i: nat, m: Message)
    requires FeedOk(f) && SnapshotQueue(f, s.snapshot, src, c, i)
    requires m.seqNum > 0 && m.seqNum != |s.snapshot| && m.update.kind != SNAPSHOT_START
    ensures Sync(Enqueue(s, true, m)) == s.(snapshot := map[])
  {
    var q := Enqueue(s, true, m).snapshot;
    assert m.seqNum in q && q[m.seqNum] == m.update;
    if s.snapshot == map[] || m.seqNum in s.snapshot {
      assert q == map[m.seqNum := m.update];
      assert !StartsWithStart(q);
    } else {
      assert q.Keys == s.snapshot.Keys + {m.seqNum};
      assert |q.Keys| == |s.snapshot.Keys| + 1;
      assert |s.snapshot| !in q;
      assert !Contiguous(q);
    }
  }

  /** u is the message of cycle c at position i. */
  ghost predicate Carries(f: Feed, c: nat, i: nat, u: Update)
    requires FeedOk(f)
  {
    c < |f.cycles| && i < |CycleAt(f, f.cycles[c])| && u == CycleAt(f, f.cycles[c])[i]
  }

  /** The queue extended by its next message. */
  lemma NextArrives(f: Feed, q: Queued, src: seq<nat>, c: nat, i: nat, c': nat, u: Update)
    requires FeedOk(f) && SnapshotQueue(f, q, src, c, i) && q != map[]
    requires Carries(f, c', |q|, u) && (c < c' || (c == c' && i <= |q|))
    ensures |src| > 0 && |q| !in q
    ensures var q' := q[|q| := u];
            && Sourced(f, q', src + [c']) && StartsWithStart(q')
            && (u.kind != SNAPSHOT_END ==> SnapshotQueue(f, q', src + [c'], c', |q| + 1))
            && (u.kind == SNAPSHOT_END ==> Complete(q'))
  {
    QueueStarts(f, q, src, c, i);
    SourcedShape(f, q, src);
    QueueBound(f, q, src, c, i, c');
    hide FeedOk, Sourced, Carries;
    var q' := q[|q| := u];
    StillStarts(q, |q|, u);
    SourcedExtends(f, q, src, c', u);
    SourcedShape(f, q', src + [c']);
  }

  lemma QueueBound(f: Feed, q: Queued, src: seq<nat>, c: nat, i: nat, c': nat)
    requires FeedOk(f) && SnapshotQueue(f, q, src, c, i) && q != map[]
    requires c < c' || (c == c' && i <= |q|)
    ensures |src| > 0 && src[|src| - 1] <= c'
  {
  }

  lemma StillStarts(q: Queued, k: nat, u: Update)
    requires 0 in q && q[0].kind == SNAPSHOT_START && k > 0
    ensures StartsWithStart(q[k := u])
  {
    var q' := q[k := u];
    assert 0 in q' && (forall j: nat :: j in q' ==> 0 <= j) && q'[0] == q[0];
  }

  lemma SourcedShape(f: Feed, q: Queued, src: seq<nat>)
    requires FeedOk(f) && Sourced(f, q, src)
    ensures |src| == |q| && Contiguous(q) && |q| !in q
    ensures |q| > 0 ==> |q| - 1 in q
  {
  }

  lemma SourcedExtends(f: Feed, q: Queued, src: seq<nat>, c: nat, u: Update)
    requires FeedOk(f) && Sourced(f, q, src) && |src| > 0 && src[|src| - 1] <= c
    requires Carries(f, c, |q|, u)
    ensures Sourced(f, q[|q| := u], src + [c])
  {
    hide FeedOk, CycleAt;
    var n := |q|;
    var q', src' := q[n := u], src + [c];
    assert n !in q;
    assert q'.Keys == q.Keys + {n};
    assert |q'.Keys| == |q.Keys| + 1;
    forall j: nat | j < |src'|
      ensures FromCycle(f, q', j, src'[j])
    {
      assert j < |src| ==> FromCycle(f, q, j, src[j]);
    }
    forall j, k | 0 <= j < k < |src'|
      ensures src'[j] <= src'[k]
    {
      assert k == |src| && j < |src| - 1 ==> src[j] <= src[|src| - 1];
    }
  }

  /** When the first and the last cycle of a queue reflect the same update, so does every one in between. */
  lemma OneCycle(f: Feed, q: Queued, src: seq<nat>, j: nat)
    requires FeedOk(f) && Sourced(f, q, src) && j < |src|
    ensures j in q && src[0] < |f.cycles| && src[j] < |f.cycles| && src[|src| - 1] < |f.cycles|
    ensures f.cycles[src[0]] <= f.cycles[src[j]] <= f.cycles[src[|src| - 1]] <= |f.stream|
    ensures j < |CycleAt(f, f.cycles[src[j]])| && q[j] == CycleAt(f, f.cycles[src[j]])[j]
  {
    hide CycleAt, Contiguous;
    assert FromCycle(f, q, 0, src[0]) && FromCycle(f, q, j, src[j]) && FromCycle(f, q, |src| - 1, src[|src| - 1]);
    assert src[0] <= src[j] <= src[|src| - 1];
  }

  /** A complete queue whose START and END carry the same number is a whole cycle taken at that number. */
  lemma CompleteIsCycle(f: Feed, q: Queued, src: seq<nat>)
    requires FeedOk(f) && Sourced(f, q, src) && |src| >= 2
    requires |q| - 1 in q && q[|q| - 1].kind == SNAPSHOT_END && 0 in q && q[0].id == q[|q| - 1].id
    ensures src[0] < |f.cycles| && f.cycles[src[0]] == q[|q| - 1].id <= |f.stream|
    ensures Span(q, 0, |q|) == CycleAt(f, f.cycles[src[0]])
  {
    SourcedShape(f, q, src);
    SameNumber(f, q, src);
    var n := f.cycles[src[0]];
    hide FeedOk, CycleAt, Sourced;
    forall j: nat | j < |q|
      ensures j in q && j < |CycleAt(f, n)| && q[j] == CycleAt(f, n)[j]
    {
      OneCycle(f, q, src, j);
    }
    EndIsLast(f, n, |q| - 1);
    SpanIs(q, CycleAt(f, n), 0);
  }

  lemma SameNumber(f: Feed, q: Queued, src: seq<nat>)
    requires FeedOk(f) && Sourced(f, q, src) && |src| >= 2 && |src| == |q|
    requires |q| - 1 in q && q[|q| - 1].kind == SNAPSHOT_END && 0 in q && q[0].id == q[|q| - 1].id
    ensures src[0] < |f.cycles| && src[|src| - 1] < |f.cycles|
    ensures f.cycles[src[0]] == f.cycles[src[|src| - 1]] == q[|q| - 1].id <= |f.stream|
  {
    hide FeedOk, CycleAt, Sourced;
    OneCycle(f, q, src, 0);
    OneCycle(f, q, src, |q| - 1);
    CycleShape(f, f.cycles[src[0]]);
    CycleShape(f, f.cycles[src[|src| - 1]]);
  }

  lemma EndIsLast(f: Feed, n: nat, i: nat)
    requires n <= |f.stream| && 0 < i < |CycleAt(f, n)| && CycleAt(f, n)[i].kind == SNAPSHOT_END
    ensures i == |CycleAt(f, n)| - 1
  {
    CycleShape(f, n);
    hide CycleAt;
  }

  lemma {:induction false} SpanIs(q: Queued, us: seq<Update>, lo: nat)
    requires lo <= |us| && forall j: nat :: lo <= j < |us| ==> j in q && q[j] == us[j]
    ensures Span(q, lo, |us|) == us[lo..]
    decreases |us| - lo
  {
    if lo < |us| {
      SpanIs(q, us, lo + 1);
    }
  }

  lemma {:induction false} SpanOfStream(f: Feed, q: Queued, lo: nat, hi: nat)
    requires Genuine(f, q) && 1 <= lo <= hi && forall k: nat :: lo <= k < hi ==> k in q
    ensures hi <= |f.stream| + 1 || lo == hi
    ensures lo < hi ==> Span(q, lo, hi) == f.stream[lo - 1..hi - 1]
    decreases hi - lo
  {
    if lo < hi {
      assert lo in q && hi - 1 in q;
      SpanOfStream(f, q, lo + 1, hi);
      assert f.stream[lo - 1..hi - 1] == [f.stream[lo - 1]] + f.stream[lo..hi - 1];
    }
  }

  /** Ending recovery on a whole cycle makes the replay faithful again; on a spliced one only the numbers are right. */
  lemma RecoverKeeps(f: Feed, s: State, events: seq<Update>, last: nat, agreed: bool)
    requires FeedOk(f) && Genuine(f, s.incremental) && last <= |f.stream| && s.inRecovery
    requires NoGap(s.incremental, last + 1)
    requires agreed ==> events == Data(CycleAt(f, last))
    ensures var r := Recover(s, last + 1, events);
            && !r.inRecovery && r.snapshot == map[] && r.incremental == map[]
            && 1 <= r.next <= |f.stream| + 1
            && (agreed ==> SameMarket(PlayAll(Opening(f.tickers), r.forwarded), MarketAt(f, r.next - 1)))
  {
    hide FeedOk, Genuine, CycleAt, Span, FirstMissing, MarketAt, PlayAll, SameMarket, NoGap, Data, Opening, Recover;
    SpanForwarded(f, s.incremental, last);
    RecoverIs(s, last + 1, events);
    var e := FirstMissing(s.incremental, last + 1);
    var queued := Data(Span(s.incremental, last + 1, e));
    if agreed {
      BothForwarded(f, s.forwarded, events, queued, last, e - 1);
    }
  }

  lemma RecoverIs(s: State, from: nat, events: seq<Update>)
    requires NoGap(s.incremental, from)
    ensures var e := FirstMissing(s.incremental, from);
            Recover(s, from, events) == State(e, false, map[], map[],
                s.forwarded + events + Data(Span(s.incremental, from, e)))
  {
    hide FirstMissing, NoGap, Data, Span;
  }

  lemma BothForwarded(f: Feed, forwarded: seq<Update>, events: seq<Update>, queued: seq<Update>, last: nat, e: nat)
    requires FeedOk(f) && last <= e <= |f.stream|
    requires events == Data(CycleAt(f, last)) && queued == f.stream[last..e]
    ensures SameMarket(PlayAll(Opening(f.tickers), forwarded + events + queued), MarketAt(f, e))
  {
    hide FeedOk, CycleAt, MarketAt, PlayAll, SameMarket, Data, Opening;
    Resynchronize(f, forwarded, last);
    Advance(f, forwarded + events, last, e);
  }

  /** What is forwarded of the queued incrementals is the stretch of the stream that follows the snapshot. */
  lemma SpanForwarded(f: Feed, q: Queued, last: nat)
    requires FeedOk(f) && Genuine(f, q) && last <= |f.stream|
    ensures var e := FirstMissing(q, last + 1);
            && last + 1 <= e <= |f.stream| + 1
            && Data(Span(q, last + 1, e)) == f.stream[last..e - 1]
  {
    var e := FirstMissing(q, last + 1);
    SpanOfStream(f, q, last + 1, e);
    StreamIsData(Opening(f.tickers), f.stream);
    hide FeedOk, Genuine, FirstMissing;
    assert Span(q, last + 1, e) == f.stream[last..e - 1];
    AllData(f.stream[last..e - 1]);
  }

  /** A snapshot message that the network may deliver keeps the invariant. */
  lemma SnapshotKeeps(f: Feed, t: Track, c: nat, i: nat)
    requires FeedOk(f) && Inv(f, t) && Deliverable(f, t, Snap(c, i))
    ensures Inv(f, Arrive(f, t, Snap(c, i)))
  {
    var m := MessageOf(f, Snap(c, i));
    var s := if t.s.inRecovery then t.s else t.s.(inRecovery := true, snapshot := map[], incremental := map[]);
    CycleShape(f, f.cycles[c]);
    if t.s.inRecovery || i != t.s.next {
      SnapshotQueued(f, t, s, c, i, m);
    }
  }

  /** The same, from the state in which the message is queued. */
  lemma SnapshotQueued(f: Feed, t: Track, s: State, c: nat, i: nat, m: Message)
    requires FeedOk(f) && Inv(f, t) && Deliverable(f, t, Snap(c, i)) && m == MessageOf(f, Snap(c, i))
    requires s == if t.s.inRecovery then t.s else t.s.(inRecovery := true, snapshot := map[], incremental := map[])
    requires t.s.inRecovery || i != t.s.next
    ensures Inv(f, Arrive(f, t, Snap(c, i)))
  {
    CycleBound(f, c);
    CycleShape(f, f.cycles[c]);
    assert Carries(f, c, i, m.update);
    hide FeedOk, CycleAt, Sourced, SameMarket, PlayAll, Span, Data, Carries;
    var q := s.snapshot;
    if i == 0 {
      StartArrives(f, s, t.src, t.c, t.i, m);
      StartIsSourced(f, c, m.update);
    } else if i != |q| {
      GapArrives(f, s, t.src, t.c, t.i, m);
      NothingSourced(f);
    } else {
      AwaitedQueued(f, t, s, c, i, m);
    }
  }

  /** The message that the queue waits for, which may be the END of a cycle. */
  lemma AwaitedQueued(f: Feed, t: Track, s: State, c: nat, i: nat, m: Message)
    requires FeedOk(f) && Inv(f, t) && Deliverable(f, t, Snap(c, i)) && m == MessageOf(f, Snap(c, i))
    requires s == if t.s.inRecovery then t.s else t.s.(inRecovery := true, snapshot := map[], incremental := map[])
    requires (t.s.inRecovery || i != t.s.next) && 0 < i == |s.snapshot|
    ensures Inv(f, Arrive(f, t, Snap(c, i)))
  {
    var q := s.snapshot;
    CycleShape(f, f.cycles[c]);
    assert Carries(f, c, i, m.update);
    hide FeedOk, CycleAt, Sourced, SameMarket, PlayAll, Span, Data, Carries;
    NextArrives(f, q, t.src, t.c, t.i, c, m.update);
    QueueStarts(f, q, t.src, t.c, t.i);
    SourcedShape(f, q[i := m.update], t.src + [c]);
    if m.update.kind == SNAPSHOT_END {
      EndArrives(f, t, c, i, m);
    }
  }

  lemma StartIsSourced(f: Feed, c: nat, u: Update)
    requires FeedOk(f) && Carries(f, c, 0, u)
    ensures Sourced(f, map[0 := u], [c])
  {
    var q: Queued := map[0 := u];
    SizeOne(0, u);
    assert FromCycle(f, q, 0, [c][0]);
  }

  lemma NothingSourced(f: Feed)
    requires FeedOk(f)
    ensures Sourced(f, map[], [])
  {
  }

  /** The outcome of a completed snapshot queue whose START and END carry the given numbers. */
  ghost predicate Recovered(f: Feed, s: State, r: State, first: nat, last: nat) {
    && r.snapshot == map[]
    && (r.inRecovery ==> r.incremental == s.incremental)
    && (!r.inRecovery ==>
          && r.incremental == map[] && 1 <= r.next <= |f.stream| + 1
          && (first == last ==> SameMarket(PlayAll(Opening(f.tickers), r.forwarded), MarketAt(f, r.next - 1))))
  }

  lemma RecoverOutcome(f: Feed, s: State, events: seq<Update>, first: nat, last: nat)
    requires FeedOk(f) && Genuine(f, s.incremental) && s.inRecovery && last <= |f.stream|
    requires first == last ==> events == Data(CycleAt(f, last))
    ensures Recovered(f, s, Recover(s, last + 1, events), first, last)
  {
    hide FeedOk, CycleAt, SameMarket, PlayAll, Span, Data, FirstMissing, Genuine, NoGap, MarketAt;
    if NoGap(s.incremental, last + 1) {
      RecoverKeeps(f, s, events, last, first == last);
    }
  }

  /** What a complete queue leads to. */
  lemma CompleteKeeps(f: Feed, s: State, src: seq<nat>, last: Update)
    requires FeedOk(f) && Genuine(f, s.incremental) && s.inRecovery
    requires Sourced(f, s.snapshot, src) && Complete(s.snapshot) && |s.snapshot| >= 2 && 0 in s.snapshot
    requires |s.snapshot| - 1 in s.snapshot && s.snapshot[|s.snapshot| - 1] == last && last.id <= |f.stream|
    ensures Recovered(f, s, Sync(s), s.snapshot[0].id, last.id)
  {
    var q := s.snapshot;
    hide FeedOk, Sourced, Complete, Contiguous, Genuine, Sync;
    SourcedShape(f, q, src);
    SyncComplete(s);
    CompleteEnds(q);
    hide CycleAt, SameMarket, PlayAll, Span, Data, Recover;
    hide Recovered, StartsWithStart;
    if q[0].id == last.id {
      CompleteIsCycle(f, q, src);
    }
    RecoverOutcome(f, s, Data(Span(q, 0, |q|)), q[0].id, last.id);
  }

  lemma CompleteEnds(q: Queued)
    requires Complete(q)
    ensures |q| - 1 in q && q[|q| - 1].kind == SNAPSHOT_END
  {
  }

  lemma SyncComplete(s: State)
    requires Complete(s.snapshot)
    ensures Contiguous(s.snapshot) && |s.snapshot| > 0 && |s.snapshot| - 1 in s.snapshot
    ensures Sync(s) == Recover(s, s.snapshot[|s.snapshot| - 1].id + 1, Data(Span(s.snapshot, 0, |s.snapshot|)))
  {
    hide Data, Span, Recover, StartsWithStart;
  }

  /** END completes the queue: recovery ends, or the queue is emptied because of a gap in the incrementals. */
  lemma EndArrives(f: Feed, t: Track, c: nat, i: nat, m: Message)
    requires FeedOk(f) && Inv(f, t) && t.s.inRecovery && EventOk(f, Snap(c, i)) && m == MessageOf(f, Snap(c, i))
    requires i == |t.s.snapshot| > 0 && m.update.kind == SNAPSHOT_END
    requires Sourced(f, t.s.snapshot[i := m.update], t.src + [c]) && Complete(t.s.snapshot[i := m.update])
    requires i !in t.s.snapshot
    requires 0 in t.s.snapshot
    ensures Inv(f, Arrive(f, t, Snap(c, i)))
  {
    var q := t.s.snapshot[i := m.update];
    EndNumber(f, c, i);
    QueueGrows(t.s.snapshot, i, m.update);
    var s := t.s.(snapshot := q);
    var r := Sync(s);
    CompleteKeeps(f, s, t.src + [c], m.update);
    RecoveredInv(f, s, r, t.s.snapshot[0].id, m.update.id, c, i + 1);
    hide FeedOk, Inv, Sync, Sourced, Recovered, Complete, SnapshotQueue, Genuine, CycleAt;
    assert m.seqNum == i;
    assert Enqueue(t.s, true, m) == s;
    assert Receive(t.s, true, m) == r;
  }

  lemma RecoveredInv(f: Feed, s: State, r: State, first: nat, last: nat, c: nat, i: nat)
    requires FeedOk(f) && Genuine(f, s.incremental) && Recovered(f, s, r, first, last)
    ensures Inv(f, Track(r, [], c, i, first == last))
    ensures r.snapshot == map[]
    ensures r.inRecovery ==> forall agreed :: Inv(f, Track(r, [], c, i, agreed))
  {
    EmptyQueue(f, c, i);
    hide FeedOk, Genuine, SameMarket, MarketAt, PlayAll, SnapshotQueue;
  }

  lemma QueueGrows(q: Queued, k: nat, u: Update)
    requires k !in q && |q| == k
    ensures |q[k := u]| == k + 1 && q[k := u][k] == u && forall j :: j in q ==> j in q[k := u] && q[k := u][j] == q[j]
  {
    assert q[k := u].Keys == q.Keys + {k};
    assert |q[k := u].Keys| == |q.Keys| + 1;
  }

  lemma EmptyQueue(f: Feed, c: nat, i: nat)
    requires FeedOk(f)
    ensures SnapshotQueue(f, map[], [], c, i)
  {
  }

  lemma EndNumber(f: Feed, c: nat, i: nat)
    requires FeedOk(f) && EventOk(f, Snap(c, i)) && MessageOf(f, Snap(c, i)).update.kind == SNAPSHOT_END
    ensures MessageOf(f, Snap(c, i)).update.id <= |f.stream|
  {
    CycleShape(f, f.cycles[c]);
  }

  lemma CycleBound(f: Feed, c: nat)
    requires FeedOk(f) && c < |f.cycles|
    ensures f.cycles[c] <= |f.stream|
  {
  }

  /** Every arrival keeps the invariant. */
  lemma ArrivalKeeps(f: Feed, t: Track, e: Event)
    requires FeedOk(f) && Inv(f, t) && Deliverable(f, t, e)
    ensures Inv(f, Arrive(f, t, e))
  {
    match e
    case Inc(n) => IncrementalKeeps(f, t, n);
    case Snap(c, i) => SnapshotKeeps(f, t, c, i);
  }
}
