/** The snapshot synthesizer: it folds the incremental stream into the live orders and publishes them in cycles. */
module Snapshots {
  import opened Types
  import opened PriceTime
  import opened Replication
  import opened Markets

  /** A sequence-numbered message of the incremental or the snapshot stream. */
  datatype Message = Message(seqNum: nat, update: Update)

  /** The live orders of one ticker, by market order id, each as the ADD message that would create it. */
  type LiveOrders = map<nat, Update>

  function Note(orders: LiveOrders, u: Update): LiveOrders {
    match u.kind
    case ADD => orders[u.id := u]
    case MODIFY => if u.id in orders then orders[u.id := orders[u.id].(qty := u.qty, price := u.price)] else orders
    case CANCEL => orders - {u.id}
    case _ => orders
  }

  ghost predicate Listed(orders: LiveOrders, id: nat, p: Pub) {
    && id in orders && orders[id].kind == ADD && orders[id].id == id && orders[id].side != NoSide
    && Entry(id, OrderOf(orders[id])) in p.On(orders[id].side)
  }

  ghost predicate Recorded(orders: LiveOrders, e: Public) {
    e.key in orders && OrderOf(orders[e.key]) == e.order
  }

  /** orders lists exactly the orders of p. */
  ghost predicate Lists(orders: LiveOrders, p: Pub, ticker: nat) {
    && (forall id {:trigger Listed(orders, id, p)} :: id in orders ==> Listed(orders, id, p))
    && (forall id :: id in orders ==> orders[id].ticker == ticker)
    && (forall e {:trigger Recorded(orders, e)} :: e in p.bids || e in p.asks ==> Recorded(orders, e))
  }

  lemma NoteAdd(orders: LiveOrders, p: Pub, ticker: nat, u: Update)
    requires GoodPub(p) && Lists(orders, p, ticker) && u.kind == ADD && Fits(p, u) && u.ticker == ticker
    ensures Lists(Note(orders, u), Apply(p, u), ticker) && u.id !in orders
  {
    hide Insert, Wf, NextPriority;
    var q, noted := Apply(p, u), Note(orders, u);
    InsertMembers(p.On(u.side), Entry(u.id, OrderOf(u)));
    IdsBelow(orders, p, ticker, u.id);
    forall id | id in noted
      ensures Listed(noted, id, q)
    {
      assert id != u.id ==> Listed(orders, id, p);
    }
    forall e | e in q.bids || e in q.asks
      ensures Recorded(noted, e)
    {
      assert e == Entry(u.id, OrderOf(u)) || (e in p.bids || e in p.asks);
      assert e != Entry(u.id, OrderOf(u)) ==> Recorded(orders, e);
      assert e in p.bids || e in p.asks ==> e.key != u.id by {
        assert e in p.bids || e in p.asks ==> Recorded(orders, e);
      }
    }
  }

  /** Ids at or above the watermark are not listed. */
  lemma IdsBelow(orders: LiveOrders, p: Pub, ticker: nat, id: nat)
    requires GoodPub(p) && Lists(orders, p, ticker) && id >= p.nextId
    ensures id !in orders
  {
    assert id in orders ==> Listed(orders, id, p);
  }

  lemma NoteCancel(orders: LiveOrders, p: Pub, ticker: nat, u: Update)
    requires GoodPub(p) && Lists(orders, p, ticker) && u.kind == CANCEL && Fits(p, u)
    ensures Lists(Note(orders, u), Apply(p, u), ticker)
  {
    hide Without, Wf;
    var q, noted := Apply(p, u), Note(orders, u);
    forall id | id in noted
      ensures Listed(noted, id, q)
    {
      assert Listed(orders, id, p);
      WithoutMembers(p.On(orders[id].side), u.id, Entry(id, OrderOf(orders[id])));
    }
    forall e | e in q.bids || e in q.asks
      ensures Recorded(noted, e)
    {
      WithoutMembers(p.bids, u.id, e);
      WithoutMembers(p.asks, u.id, e);
      assert Recorded(orders, e);
    }
  }

  lemma WithQtyMembers(s: seq<Public>, id: nat, qty: nat, e: Public)
    ensures e in s ==> (if e.key == id then e.(order := e.order.(qty := qty)) else e) in WithQty(s, id, qty)
    ensures e in WithQty(s, id, qty) ==>
      exists x :: x in s && e == (if x.key == id then x.(order := x.order.(qty := qty)) else x)
  {
    var t := WithQty(s, id, qty);
    if e in s {
      var i :| 0 <= i < |s| && s[i] == e;
      assert t[i] in t;
    }
    if e in t {
      var i :| 0 <= i < |t| && t[i] == e;
      assert s[i] in s;
    }
  }

  lemma ModifiedListed(orders: LiveOrders, p: Pub, u: Update, id: nat)
    requires Listed(orders, id, p) && u.kind == MODIFY && u.id in orders && orders[u.id].price == u.price
    ensures Listed(Note(orders, u), id, Apply(p, u))
  {
    hide WithQty;
    WithQtyMembers(p.On(orders[id].side), u.id, u.qty, Entry(id, OrderOf(orders[id])));
  }

  lemma ModifiedRecorded(orders: LiveOrders, p: Pub, ticker: nat, u: Update, e: Public)
    requires Lists(orders, p, ticker) && u.kind == MODIFY && u.id in orders && orders[u.id].price == u.price
    requires e in Apply(p, u).bids || e in Apply(p, u).asks
    ensures Recorded(Note(orders, u), e)
  {
    hide WithQty;
    var s := if e in Apply(p, u).bids then p.bids else p.asks;
    WithQtyMembers(s, u.id, u.qty, e);
    var x :| x in s && e == (if x.key == u.id then x.(order := x.order.(qty := u.qty)) else x);
    assert Recorded(orders, x);
  }

  lemma NoteModify(orders: LiveOrders, p: Pub, ticker: nat, u: Update)
    requires GoodPub(p) && Lists(orders, p, ticker) && u.kind == MODIFY && Fits(p, u)
    ensures Lists(Note(orders, u), Apply(p, u), ticker)
  {
    ListedAt(orders, p, ticker, u);
    hide WithQty, Wf, Apply;
    forall id | id in Note(orders, u)
      ensures Listed(Note(orders, u), id, Apply(p, u))
    {
      assert Listed(orders, id, p);
      ModifiedListed(orders, p, u, id);
    }
    forall e | e in Apply(p, u).bids || e in Apply(p, u).asks
      ensures Recorded(Note(orders, u), e)
    {
      ModifiedRecorded(orders, p, ticker, u, e);
    }
  }

  /** The order an update refers to is listed at the update's side and price. */
  lemma ListedAt(orders: LiveOrders, p: Pub, ticker: nat, u: Update)
    requires GoodPub(p) && Lists(orders, p, ticker) && u.kind in {MODIFY, CANCEL} && Fits(p, u)
    ensures u.id in orders && orders[u.id].id == u.id && orders[u.id].side == u.side && orders[u.id].price == u.price
  {
    var s := p.On(u.side);
    var k := IndexOf(s, u.id);
    assert s[k] in s && Recorded(orders, s[k]);
    assert Listed(orders, u.id, p);
  }

  /** The synthesizer's view of a ticker follows its book under every update of the stream. */
  lemma NoteFollows(orders: LiveOrders, p: Pub, ticker: nat, u: Update)
    requires GoodPub(p) && Lists(orders, p, ticker) && Fits(p, u) && u.ticker == ticker
    ensures Lists(Note(orders, u), Apply(p, u), ticker)
    ensures u.kind == ADD ==> u.id !in orders
    ensures u.kind in {MODIFY, CANCEL} ==> u.id in orders && orders[u.id].id == u.id && orders[u.id].side == u.side
  {
    match u.kind
    case ADD => NoteAdd(orders, p, ticker, u);
    case CANCEL =>
      NoteCancel(orders, p, ticker, u);
      ListedAt(orders, p, ticker, u);
    case MODIFY =>
      NoteModify(orders, p, ticker, u);
      ListedAt(orders, p, ticker, u);
    case _ =>
  }

  // ----- the published cycle

  /** The live orders with ids from 0 up to max, in ascending order. */
  function Ascending(orders: LiveOrders, max: nat): seq<Update> {
    if max == 0 then [] else Ascending(orders, max - 1) + (if max - 1 in orders then [orders[max - 1]] else [])
  }

  function ClearOf(ticker: nat): Update {
    Update(CLEAR, ID_INVALID, ticker, NoSide, PRICE_INVALID, QTY_INVALID, PRIORITY_INVALID)
  }

  function Boundary(kind: UpdateKind, lastInc: nat): Update {
    Update(kind, lastInc, TICKER_INVALID, NoSide, PRICE_INVALID, QTY_INVALID, PRIORITY_INVALID)
  }

  /** CLEAR and live orders of the first n tickers. */
  function Payload(book: seq<LiveOrders>, n: nat, maxIds: nat): seq<Update>
    requires n <= |book|
  {
    if n == 0 then [] else Payload(book, n - 1, maxIds) + ([ClearOf(n - 1)] + Ascending(book[n - 1], maxIds))
  }

  /** A whole cycle: START, all tickers, END. */
  function Cycle(book: seq<LiveOrders>, lastInc: nat, maxIds: nat): seq<Update> {
    [Boundary(SNAPSHOT_START, lastInc)] + Payload(book, |book|, maxIds) + [Boundary(SNAPSHOT_END, lastInc)]
  }

  // ----- the round trip

  ghost predicate SameOrders(p: Pub, q: Pub) {
    p.bids == q.bids && p.asks == q.asks
  }

  /** s holds exactly the orders of target whose ids lie below k. */
  ghost predicate Below(s: seq<Public>, target: seq<Public>, k: nat) {
    forall e :: e in s <==> e in target && e.order.id < k
  }

  /** Queueing the next order by id keeps the partial side well formed. */
  lemma NextOrderQueues(side: Side, s: seq<Public>, target: seq<Public>, k: nat, e: Public)
    requires Wf(side, s) && Wf(side, target) && Below(s, target, k) && e in target && e.order.id == k
    ensures Wf(side, Insert(s, e)) && Below(Insert(s, e), target, k + 1)
  {
    var t :| 0 <= t < |target| && target[t] == e;
    forall i | 0 <= i < |s|
      ensures s[i].order.id != k && s[i].key != e.key
      ensures (s[i].order.price == e.order.price ==> InOrder(side, s[i].order, e.order))
    {
      assert s[i] in target;
      var j :| 0 <= j < |target| && target[j] == s[i];
      assert if j < t then Queued(side, target[j], target[t]) else j == t || Queued(side, target[t], target[j]);
    }
    InsertLaterKeepsWf(side, s, e);
    InsertMembers(s, e);
    forall x | x in target && x.order.id == k
      ensures x == e
    {
      var j :| 0 <= j < |target| && target[j] == x;
      assert if j < t then Queued(side, target[j], target[t]) else j == t || Queued(side, target[t], target[j]);
    }
  }

  /** No order of target has id k, so nothing changes between k and k + 1. */
  lemma NoOrderAt(s: seq<Public>, target: seq<Public>, k: nat)
    requires Below(s, target, k) && forall e :: e in target ==> e.order.id != k
    ensures Below(s, target, k + 1)
  {
  }

  lemma OneSideOnly(p: Pub, i: nat, j: nat)
    requires GoodPub(p) && i < |p.bids| && j < |p.asks|
    ensures p.bids[i].order.id != p.asks[j].order.id
  {
    assert !HasKey(p.asks, p.bids[i].key);
  }

  lemma KeyIsId(p: Pub, e: Public)
    requires GoodPub(p) && (e in p.bids || e in p.asks)
    ensures e.key == e.order.id
  {
  }

  lemma ListedElsewhere(orders: LiveOrders, target: Pub, ticker: nat, k: nat)
    requires GoodPub(target) && Lists(orders, target, ticker)
    ensures k !in orders ==> forall e :: e in target.bids || e in target.asks ==> e.order.id != k
    ensures k in orders ==>
              && orders[k].side != NoSide && orders[k].kind == ADD && orders[k].id == k
              && Entry(k, OrderOf(orders[k])) in target.On(orders[k].side)
              && forall e :: e in target.On(Opposite(orders[k].side)) ==> e.order.id != k
  {
    if k in orders {
      assert Listed(orders, k, target);
      var side := orders[k].side;
      var j :| 0 <= j < |target.On(side)| && target.On(side)[j] == Entry(k, OrderOf(orders[k]));
      forall e | e in target.On(Opposite(side))
        ensures e.order.id != k
      {
        var i :| 0 <= i < |target.On(Opposite(side))| && target.On(Opposite(side))[i] == e;
        if side == Buy {
          OneSideOnly(target, j, i);
        } else {
          OneSideOnly(target, i, j);
        }
      }
    } else {
      forall e | e in target.bids || e in target.asks
        ensures e.order.id != k
      {
        assert Recorded(orders, e);
        KeyIsId(target, e);
      }
    }
  }

  /** p is the part of the target with ids below k. */
  ghost predicate PartBelow(p: Pub, target: Pub, k: nat) {
    Wf(Buy, p.bids) && Wf(Sell, p.asks) && Below(p.bids, target.bids, k) && Below(p.asks, target.asks, k)
  }

  lemma NextRebuilt(orders: LiveOrders, target: Pub, ticker: nat, k: nat, p: Pub)
    requires GoodPub(target) && Lists(orders, target, ticker) && PartBelow(p, target, k)
    ensures PartBelow(if k in orders then Apply(p, orders[k]) else p, target, k + 1)
  {
    hide Insert;
    ListedElsewhere(orders, target, ticker, k);
    hide Lists;
    if k in orders {
      var u := orders[k];
      NextOrderQueues(u.side, p.On(u.side), target.On(u.side), k, Entry(k, OrderOf(u)));
      NoOrderAt(p.On(Opposite(u.side)), target.On(Opposite(u.side)), k);
    } else {
      NoOrderAt(p.bids, target.bids, k);
      NoOrderAt(p.asks, target.asks, k);
    }
  }

  lemma NothingBelow(target: Pub, nextId: nat)
    ensures PartBelow(Pub([], [], nextId), target, 0)
  {
  }

  /** Replaying the live orders below k onto a cleared book rebuilds the part of the target below k. */
  lemma {:induction false} AscendingRebuilds(orders: LiveOrders, target: Pub, ticker: nat, k: nat, nextId: nat)
    requires GoodPub(target) && Lists(orders, target, ticker)
    ensures PartBelow(ApplyAll(Pub([], [], nextId), Ascending(orders, k)), target, k)
  {
    hide PartBelow, Lists, GoodPub, Apply;
    if k == 0 {
      NothingBelow(target, nextId);
    } else {
      AscendingRebuilds(orders, target, ticker, k - 1, nextId);
      var p := ApplyAll(Pub([], [], nextId), Ascending(orders, k - 1));
      NextRebuilt(orders, target, ticker, k - 1, p);
      if k - 1 in orders {
        ApplyConcat(Pub([], [], nextId), Ascending(orders, k - 1), [orders[k - 1]]);
        ApplyOne(p, orders[k - 1]);
      } else {
        assert Ascending(orders, k) == Ascending(orders, k - 1);
      }
    }
  }

  /** CLEAR followed by the live orders rebuilds a ticker's book exactly, whatever was there before. */
  lemma TickerRoundTrip(orders: LiveOrders, target: Pub, ticker: nat, maxIds: nat, before: Pub)
    requires GoodPub(target) && Lists(orders, target, ticker) && target.nextId <= maxIds
    ensures SameOrders(ApplyAll(before, [ClearOf(ticker)] + Ascending(orders, maxIds)), target)
  {
    ApplyConcat(before, [ClearOf(ticker)], Ascending(orders, maxIds));
    ApplyOne(before, ClearOf(ticker));
    AscendingRebuilds(orders, target, ticker, maxIds, before.nextId);
    var p := ApplyAll(Pub([], [], before.nextId), Ascending(orders, maxIds));
    AllBelow(p.bids, target.bids, maxIds);
    AllBelow(p.asks, target.asks, maxIds);
    SortedUnique(Buy, p.bids, target.bids);
    SortedUnique(Sell, p.asks, target.asks);
  }

  lemma AllBelow(s: seq<Public>, target: seq<Public>, k: nat)
    requires Below(s, target, k) && forall i :: 0 <= i < |target| ==> target[i].order.id < k
    ensures forall e :: e in s <==> e in target
  {
  }

  /** The synthesizer lists exactly the orders of every book of the market, and all their ids are below maxIds. */
  ghost predicate Covers(book: seq<LiveOrders>, m: Market, maxIds: nat) {
    |book| == |m| && GoodMarket(m)
    && forall t :: 0 <= t < |m| ==> Lists(book[t], m[t], t) && m[t].nextId <= maxIds
  }

  lemma {:induction false} AscendingTickers(orders: LiveOrders, p: Pub, ticker: nat, max: nat)
    requires Lists(orders, p, ticker)
    ensures forall i :: 0 <= i < |Ascending(orders, max)| ==> Ascending(orders, max)[i].ticker == ticker
  {
    if max > 0 {
      AscendingTickers(orders, p, ticker, max - 1);
    }
  }

  lemma {:induction false} PayloadRebuilds(book: seq<LiveOrders>, m: Market, maxIds: nat, before: Market, n: nat)
    requires Covers(book, m, maxIds) && |before| == |m| && n <= |m|
    ensures var after := PlayAll(before, Payload(book, n, maxIds));
            forall t :: 0 <= t < n ==> SameOrders(after[t], m[t])
  {
    hide Lists, GoodPub, Wf, Ascending;
    if n > 0 {
      PayloadRebuilds(book, m, maxIds, before, n - 1);
      var part := [ClearOf(n - 1)] + Ascending(book[n - 1], maxIds);
      var mid := PlayAll(before, Payload(book, n - 1, maxIds));
      PlayConcat(before, Payload(book, n - 1, maxIds), part);
      AscendingTickers(book[n - 1], m[n - 1], n - 1, maxIds);
      PlayTicker(mid, n - 1, part);
      TickerRoundTrip(book[n - 1], m[n - 1], n - 1, maxIds, mid[n - 1]);
    }
  }

  /** Two markets with the same resting orders in the same queues. */
  ghost predicate SameMarket(m: Market, w: Market) {
    |m| == |w| && forall t :: 0 <= t < |m| ==> SameOrders(m[t], w[t])
  }

  /** Replaying the payload of a cycle from any market whatsoever yields exactly the market the cycle was taken of. */
  lemma SnapshotRoundTrip(book: seq<LiveOrders>, m: Market, maxIds: nat, before: Market)
    requires Covers(book, m, maxIds) && |before| == |m|
    ensures SameMarket(PlayAll(before, Payload(book, |book|, maxIds)), m)
  {
    PayloadRebuilds(book, m, maxIds, before, |m|);
  }

  /** The state the synthesizer reaches after the given updates. */
  function Noted(tickers: nat, us: seq<Update>): (book: seq<LiveOrders>)
    ensures |book| == tickers
  {
    if us == [] then seq(tickers, t => map[])
    else
      var book := Noted(tickers, us[..|us| - 1]);
      var u := us[|us| - 1];
      if u.ticker < tickers then book[u.ticker := Note(book[u.ticker], u)] else book
  }

  lemma CoversStep(book: seq<LiveOrders>, m: Market, maxIds: nat, u: Update)
    requires Covers(book, m, maxIds) && FitsMarket(m, u) && (u.kind == ADD ==> u.id < maxIds)
    ensures Covers(book[u.ticker := Note(book[u.ticker], u)], Play(m, u), maxIds)
  {
    hide Lists, GoodPub, Note, Fits;
    NoteFollows(book[u.ticker], m[u.ticker], u.ticker, u);
    FitKeepsGood(m[u.ticker], u);
  }

  lemma OpeningCovered(tickers: nat, maxIds: nat)
    requires maxIds > 0
    ensures Covers(seq(tickers, t => map[]), Opening(tickers), maxIds)
  {
  }

  /** Along every stream the synthesizer covers the market. */
  lemma {:induction false} NotedCovers(tickers: nat, us: seq<Update>, maxIds: nat)
    requires Stream(Opening(tickers), us) && maxIds > 0
    requires forall i :: 0 <= i < |us| && us[i].kind == ADD ==> us[i].id < maxIds
    ensures Covers(Noted(tickers, us), PlayAll(Opening(tickers), us), maxIds)
  {
    hide Covers, Note;
    if us == [] {
      OpeningCovered(tickers, maxIds);
    } else {
      var n := |us| - 1;
      StreamPrefix(Opening(tickers), us, n);
      assert us[..n + 1] == us;
      NotedCovers(tickers, us[..n], maxIds);
      CoversStep(Noted(tickers, us[..n]), PlayAll(Opening(tickers), us[..n]), maxIds, us[n]);
    }
  }

  /** The synthesizer object: the arrays of live orders per ticker and the last sequence number folded in. */
  class SnapshotSynthesizer {
    const maxIds: nat
    var tickerOrders: seq<LiveOrders>
    var lastIncSeqNum: nat
    ghost var folded: seq<Update>

    /** The object holds the fold of a stream that numbers its updates from 1. */
    ghost predicate Valid()
      reads this
    {
      && maxIds > 0 && lastIncSeqNum == |folded|
      && Stream(Opening(|tickerOrders|), folded) && tickerOrders == Noted(|tickerOrders|, folded)
      && (forall i :: 0 <= i < |folded| && folded[i].kind == ADD ==> folded[i].id < maxIds)
    }

    constructor (tickers: nat, maxIds: nat)
      requires maxIds > 0
      ensures Valid() && folded == [] && |tickerOrders| == tickers && this.maxIds == maxIds
    {
      this.maxIds := maxIds;
      tickerOrders := seq(tickers, t => map[]);
      lastIncSeqNum, folded := 0, [];
    }

    /** addToSnapshot: its assertions hold for the next message of any stream, and the orders follow the market. */
    method AddToSnapshot(message: Message)
      requires Valid() && message.seqNum == lastIncSeqNum + 1
      requires Stream(Opening(|tickerOrders|), folded + [message.update])
      requires message.update.kind == ADD ==> message.update.id < maxIds
      modifies this
      ensures Valid() && folded == old(folded) + [message.update] && lastIncSeqNum == message.seqNum
      ensures |tickerOrders| == old(|tickerOrders|)
    {
      var u := message.update;
      ghost var n := |tickerOrders|;
      ghost var whole := folded + [u];
      assert whole[..|folded|] == folded;
      StreamPrefix(Opening(n), whole, |folded|);
      NotedCovers(n, folded, maxIds);
      NoteFollows(tickerOrders[u.ticker], PlayAll(Opening(n), folded)[u.ticker], u.ticker, u);
      var orders := tickerOrders[u.ticker];
      match u.kind {
        case ADD =>
          assert u.id !in orders;
          orders := orders[u.id := u];
        case MODIFY =>
          assert u.id in orders && orders[u.id].id == u.id && orders[u.id].side == u.side;
          orders := orders[u.id := orders[u.id].(qty := u.qty, price := u.price)];
        case CANCEL =>
          assert u.id in orders && orders[u.id].id == u.id && orders[u.id].side == u.side;
          orders := orders - {u.id};
        case _ =>
      }
      tickerOrders := tickerOrders[u.ticker := orders];
      lastIncSeqNum := message.seqNum;
      folded := whole;
    }

    /** publishSnapshot: the messages of a cycle are numbered from 0 and carry exactly Cycle. */
    method PublishSnapshot() returns (out: seq<Message>)
      requires Valid()
      ensures |out| == |Cycle(tickerOrders, lastIncSeqNum, maxIds)|
      ensures forall i :: 0 <= i < |out| ==> out[i] == Message(i, Cycle(tickerOrders, lastIncSeqNum, maxIds)[i])
    {
      hide Noted, Stream, Lists, Numbers;
      var snapshotSize := 0;
      ghost var sent: seq<Update> := [Boundary(SNAPSHOT_START, lastIncSeqNum)];
      out := [Message(snapshotSize, Boundary(SNAPSHOT_START, lastIncSeqNum))];
      FirstNumber(sent[0]);
      snapshotSize := snapshotSize + 1;
      for ticker := 0 to |tickerOrders|
        invariant |out| == snapshotSize && Numbers(out, sent)
        invariant sent == [Boundary(SNAPSHOT_START, lastIncSeqNum)] + Payload(tickerOrders, ticker, maxIds)
      {
        ghost var begun := sent;
        NextNumber(out, sent, ClearOf(ticker));
        out, sent := out + [Message(snapshotSize, ClearOf(ticker))], sent + [ClearOf(ticker)];
        snapshotSize := snapshotSize + 1;
        for id := 0 to maxIds
          invariant |out| == snapshotSize && Numbers(out, sent)
          invariant sent == begun + ([ClearOf(ticker)] + Ascending(tickerOrders[ticker], id))
        {
          if id in tickerOrders[ticker] {
            NextNumber(out, sent, tickerOrders[ticker][id]);
            out, sent := out + [Message(snapshotSize, tickerOrders[ticker][id])], sent + [tickerOrders[ticker][id]];
            snapshotSize := snapshotSize + 1;
          }
        }
      }
      NextNumber(out, sent, Boundary(SNAPSHOT_END, lastIncSeqNum));
      out, sent := out + [Message(snapshotSize, Boundary(SNAPSHOT_END, lastIncSeqNum))],
          sent + [Boundary(SNAPSHOT_END, lastIncSeqNum)];
      NumberedAs(out, sent);
    }
  }

  /** The messages carry the updates, numbered from 0. */
  ghost predicate Numbers(out: seq<Message>, sent: seq<Update>) {
    |out| == |sent| && forall i :: 0 <= i < |out| ==> out[i] == Message(i, sent[i])
  }

  lemma FirstNumber(u: Update)
    ensures Numbers([Message(0, u)], [u])
  {
  }

  lemma NextNumber(out: seq<Message>, sent: seq<Update>, u: Update)
    requires Numbers(out, sent)
    ensures Numbers(out + [Message(|out|, u)], sent + [u])
  {
  }

  lemma NumberedAs(out: seq<Message>, sent: seq<Update>)
    requires Numbers(out, sent)
    ensures |out| == |sent| && forall i :: 0 <= i < |out| ==> out[i] == Message(i, sent[i])
  {
  }
}
