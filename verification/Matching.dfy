/** What the exchange's order book computes: matching, resting and cancelling, as functions of the two sides. */
module Matching {
  import opened Types
  import opened PriceTime

  datatype Book = Book(ticker: nat, bids: seq<Resting>, asks: seq<Resting>, nextId: nat) {
    function On(side: Side): seq<Resting> { if side == Buy then bids else asks }
    function With(side: Side, s: seq<Resting>): Book { if side == Buy then this.(bids := s) else this.(asks := s) }
  }

  /** An incoming order while it is being matched; reportedId is the market order id its fills carry. */
  datatype Taker = Taker(ticker: nat, key: ClientKey, side: Side, price: int, reportedId: nat)

  datatype Matched = Matched(opposite: seq<Resting>, leaves: nat, responses: seq<Response>, updates: seq<Update>)

  datatype Step = Step(book: Book, responses: seq<Response>, updates: seq<Update>)

  /** Whether a taker at its limit price trades with a passive order. */
  predicate Crosses(side: Side, limit: int, passive: int) {
    if side == Buy then !(limit < passive) else !(limit > passive)
  }

  function FillResponses(t: Taker, p: Resting, leaves: nat): seq<Response> {
    var fill := Min(leaves, p.order.qty);
    [ Response(FILLED, t.key, t.ticker, t.reportedId, t.side, p.order.price, fill, leaves - fill),
      Response(FILLED, p.key, t.ticker, p.order.id, p.order.side, p.order.price, fill, p.order.qty - fill) ]
  }

  function FillUpdates(t: Taker, p: Resting, leaves: nat): seq<Update> {
    var fill := Min(leaves, p.order.qty);
    [ Update(TRADE, ID_INVALID, t.ticker, t.side, p.order.price, fill, PRIORITY_INVALID),
      if fill == p.order.qty
      then Update(CANCEL, p.order.id, t.ticker, p.order.side, p.order.price, p.order.qty, PRIORITY_INVALID)
      else Update(MODIFY, p.order.id, t.ticker, p.order.side, p.order.price, p.order.qty - fill, p.order.priority) ]
  }

  function Reduced(p: Resting, fill: nat): Resting
    requires fill <= p.order.qty
  {
    p.(order := p.order.(qty := p.order.qty - fill))
  }

  /** The matching loop: the head of the opposite side trades until it no longer crosses or nothing is left. */
  function MatchAll(t: Taker, opposite: seq<Resting>, leaves: nat): Matched
    decreases leaves, |opposite|
  {
    if leaves == 0 || opposite == [] || !Crosses(t.side, t.price, opposite[0].order.price) then
      Matched(opposite, leaves, [], [])
    else
      var p := opposite[0];
      var fill := Min(leaves, p.order.qty);
      var rest := if fill == p.order.qty then opposite[1..] else [Reduced(p, fill)] + opposite[1..];
      var m := MatchAll(t, rest, leaves - fill);
      Matched(m.opposite, m.leaves, FillResponses(t, p, leaves) + m.responses, FillUpdates(t, p, leaves) + m.updates)
  }

  /** The taker of a new order; its fills carry the market order id narrowed to 32 bits. */
  function TakerOf(b: Book, key: ClientKey, side: Side, price: int): Taker {
    Taker(b.ticker, key, side, price, b.nextId % TWO_32)
  }

  /** What rests of a new order whose match left m.leaves. */
  function Remainder(b: Book, key: ClientKey, side: Side, price: int, leaves: nat): Resting {
    Entry(key, MktOrder(b.nextId, side, price, leaves, NextPriority(b.On(side), side, price)))
  }

  /** Acknowledges a new order, takes over its match and rests its remainder. */
  function Settle(b: Book, key: ClientKey, side: Side, price: int, qty: nat, m: Matched): Step {
    var accepted := Response(ACCEPTED, key, b.ticker, b.nextId, side, price, 0, qty);
    var after := b.(nextId := b.nextId + 1).With(Opposite(side), m.opposite);
    if m.leaves == 0 then
      Step(after, [accepted] + m.responses, m.updates)
    else
      var e := Remainder(b, key, side, price, m.leaves);
      Step(after.With(side, Insert(b.On(side), e)), [accepted] + m.responses,
           m.updates + [Update(ADD, e.order.id, b.ticker, side, price, e.order.qty, e.order.priority)])
  }

  function Add(b: Book, key: ClientKey, side: Side, price: int, qty: nat): Step {
    Settle(b, key, side, price, qty, MatchAll(TakerOf(b, key, side, price), b.On(Opposite(side)), qty))
  }

  function Cancel(b: Book, key: ClientKey): Step {
    var side := if IndexOf(b.bids, key) < |b.bids| then Buy else Sell;
    var s := b.On(side);
    var i := IndexOf(s, key);
    if i == |s| then
      Step(b, [Response(CANCEL_REJECTED, key, b.ticker, ID_INVALID, NoSide, PRICE_INVALID, QTY_INVALID, QTY_INVALID)],
          [])
    else
      var o := s[i].order;
      Step(b.With(side, Without(s, key)),
           [Response(CANCELED, key, b.ticker, o.id, o.side, o.price, QTY_INVALID, o.qty)],
           [Update(CANCEL, o.id, b.ticker, o.side, o.price, 0, o.priority)])
  }

  function Process(b: Book, r: Request): Step {
    match r
    case New(key, side, price, qty) => Add(b, key, side, price, qty)
    case CancelOrder(key) => Cancel(b, key)
  }

  // ----- what every reachable book looks like

  ghost predicate Live(b: Book, key: ClientKey) {
    HasKey(b.bids, key) || HasKey(b.asks, key)
  }

  ghost predicate Uncrossed(b: Book) {
    b.bids != [] && b.asks != [] ==> b.bids[0].order.price < b.asks[0].order.price
  }

  /** Two different orders. */
  ghost predicate Apart(a: Resting, b: Resting) {
    a.key != b.key && a.order.id != b.order.id
  }

  /** Both sides are well formed, the book is not crossed, keys are unique and market ids lie below the next one. */
  ghost predicate Good(b: Book) {
    && Wf(Buy, b.bids) && Wf(Sell, b.asks) && Uncrossed(b) && b.nextId > 0
    && (forall i :: 0 <= i < |b.bids| ==> b.bids[i].order.id < b.nextId)
    && (forall i :: 0 <= i < |b.asks| ==> b.asks[i].order.id < b.nextId)
    && (forall i, j {:trigger Apart(b.bids[i], b.asks[j])} :: 0 <= i < |b.bids| && 0 <= j < |b.asks| ==>
          Apart(b.bids[i], b.asks[j]))
  }

  /** What a request must satisfy: a real side, a positive quantity, and a key not live in the book. */
  ghost predicate Admissible(b: Book, r: Request) {
    r.New? ==> r.side != NoSide && r.qty > 0 && !Live(b, r.key)
  }

  // ----- greedy price-time matching in closed form

  ghost function Cum(s: seq<Resting>, n: nat): nat
    requires n <= |s|
  {
    if n == 0 then 0 else Cum(s, n - 1) + s[n - 1].order.qty
  }

  /** How many orders at the front of the opposite side a taker may trade with. */
  ghost function Reach(t: Taker, s: seq<Resting>): (c: nat)
    ensures c <= |s|
  {
    if s == [] || !Crosses(t.side, t.price, s[0].order.price) then 0 else 1 + Reach(t, s[1..])
  }

  /** The quantity a taker trades: all of it, or all there is within its limit. */
  ghost function Traded(t: Taker, s: seq<Resting>, qty: nat): nat {
    Min(qty, Cum(s, Reach(t, s)))
  }

  /** The quantity traded with order n after the n orders before it were consumed. */
  ghost function PartOf(t: Taker, s: seq<Resting>, qty: nat, n: nat): nat
    requires n <= |s| && Cum(s, n) <= Traded(t, s, qty)
  {
    Traded(t, s, qty) - Cum(s, n)
  }

  /** Exactly n orders are consumed in full, the next one possibly in part, and the rest keep their place. */
  ghost predicate PrefixConsumed(t: Taker, s: seq<Resting>, qty: nat, m: Matched, n: nat) {
    && n <= Reach(t, s) && Cum(s, n) <= Traded(t, s, qty) && m.leaves == qty - Traded(t, s, qty)
    && var part := PartOf(t, s, qty, n);
       if part == 0 then m.opposite == s[n..]
       else n < Reach(t, s) && part < s[n].order.qty && m.opposite == [Reduced(s[n], part)] + s[n + 1..]
  }

  /** Each consumed order and its taker are told of the same quantity at the passive price, within the limit. */
  ghost predicate FillsReported(t: Taker, s: seq<Resting>, qty: nat, m: Matched, n: nat)
    requires n <= |s| && Cum(s, n) <= Traded(t, s, qty)
  {
    FillsOf(t, s, qty, m, n, PartOf(t, s, qty, n))
  }

  /** The first n orders are filled whole, and the next one in part. */
  ghost predicate FillsOf(t: Taker, s: seq<Resting>, qty: nat, m: Matched, n: nat, part: nat)
    requires n <= |s|
  {
    && |m.responses| == 2 * (if part == 0 then n else n + 1)
    && (forall i: nat :: i < n ==> FillAt(t, s, qty, m, i, s[i].order.qty))
    && (part > 0 ==> FillAt(t, s, qty, m, n, part))
  }

  ghost predicate Greedy(t: Taker, s: seq<Resting>, qty: nat, m: Matched, n: nat) {
    PrefixConsumed(t, s, qty, m, n) && FillsReported(t, s, qty, m, n)
  }

  /** The i-th fill reports the same quantity and the passive price to both parties. */
  ghost predicate FillAt(t: Taker, s: seq<Resting>, qty: nat, m: Matched, i: nat, fill: nat) {
    && i < |s| && 2 * i + 1 < |m.responses| && Cum(s, i) + fill <= qty && fill <= s[i].order.qty
    && Crosses(t.side, t.price, s[i].order.price)
    && m.responses[2 * i] == Response(FILLED, t.key, t.ticker, t.reportedId, t.side, s[i].order.price, fill,
                                      qty - Cum(s, i) - fill)
    && m.responses[2 * i + 1] == Response(FILLED, s[i].key, t.ticker, s[i].order.id, s[i].order.side,
                                          s[i].order.price, fill, s[i].order.qty - fill)
  }

  ghost predicate Positive(s: seq<Resting>) {
    forall i :: 0 <= i < |s| ==> s[i].order.qty > 0
  }

  lemma {:induction false} CumTail(s: seq<Resting>, n: nat)
    requires 0 < n <= |s|
    ensures Cum(s, n) == s[0].order.qty + Cum(s[1..], n - 1)
  {
    if n > 1 {
      CumTail(s, n - 1);
    }
  }

  lemma {:induction false} CumMonotone(s: seq<Resting>, m: nat, n: nat)
    requires m <= n <= |s|
    ensures Cum(s, m) <= Cum(s, n)
  {
    if m < n {
      CumMonotone(s, m, n - 1);
    }
  }

  /** The loop is greedy price-time matching: a prefix of the queue trades, only its last member in part. */
  lemma {:induction false} MatchIsGreedy(t: Taker, s: seq<Resting>, qty: nat) returns (n: nat)
    requires Positive(s)
    ensures Greedy(t, s, qty, MatchAll(t, s, qty), n)
    decreases |s|
  {
    hide FillsReported, Cum;
    n := 0;
    var m := MatchAll(t, s, qty);
    if qty == 0 || s == [] || !Crosses(t.side, t.price, s[0].order.price) {
      NothingTraded(t, s, qty);
    } else if qty < s[0].order.qty {
      PartialOnly(t, s, qty);
    } else {
      n := MatchIsGreedy(t, s[1..], qty - s[0].order.qty);
      PrefixTail(t, s, qty, n);
      FirstFill(t, s, qty);
      FillsTail(t, s, qty, m, MatchAll(t, s[1..], qty - s[0].order.qty), n);
      n := n + 1;
    }
  }

  lemma NothingTraded(t: Taker, s: seq<Resting>, qty: nat)
    requires qty == 0 || s == [] || !Crosses(t.side, t.price, s[0].order.price)
    ensures Greedy(t, s, qty, MatchAll(t, s, qty), 0)
  {
    assert s[0..] == s;
  }

  lemma PartialOnly(t: Taker, s: seq<Resting>, qty: nat)
    requires s != [] && Crosses(t.side, t.price, s[0].order.price) && 0 < qty < s[0].order.qty
    ensures Greedy(t, s, qty, MatchAll(t, s, qty), 0)
  {
    CumMonotone(s, 1, Reach(t, s));
    assert Cum(s, 1) == s[0].order.qty;
    assert MatchAll(t, [Reduced(s[0], qty)] + s[1..], 0).responses == [];
    assert FillAt(t, s, qty, MatchAll(t, s, qty), 0, qty);
  }

  /** The loop's first full fill prefixes its responses. */
  lemma FirstFill(t: Taker, s: seq<Resting>, qty: nat)
    requires s != [] && Crosses(t.side, t.price, s[0].order.price) && qty >= s[0].order.qty > 0
    ensures var m, m' := MatchAll(t, s, qty), MatchAll(t, s[1..], qty - s[0].order.qty);
            && m.opposite == m'.opposite && m.leaves == m'.leaves
            && m.responses == FillResponses(t, s[0], qty) + m'.responses
  {
  }

  lemma FillTail(t: Taker, s: seq<Resting>, qty: nat, m: Matched, m': Matched, i: nat, fill: nat)
    requires s != [] && qty >= s[0].order.qty
    requires m.responses == FillResponses(t, s[0], qty) + m'.responses
    requires FillAt(t, s[1..], qty - s[0].order.qty, m', i, fill)
    ensures FillAt(t, s, qty, m, i + 1, fill)
  {
    CumTail(s, i + 1);
    assert m.responses[2 * (i + 1)] == m'.responses[2 * i];
    assert m.responses[2 * (i + 1) + 1] == m'.responses[2 * i + 1];
  }

  lemma TradedTail(t: Taker, s: seq<Resting>, qty: nat, n: nat)
    requires s != [] && Crosses(t.side, t.price, s[0].order.price) && qty >= s[0].order.qty
    requires n <= Reach(t, s[1..])
    ensures Reach(t, s) == 1 + Reach(t, s[1..])
    ensures Traded(t, s, qty) == s[0].order.qty + Traded(t, s[1..], qty - s[0].order.qty)
    ensures Cum(s, n + 1) == s[0].order.qty + Cum(s[1..], n)
    ensures n < Reach(t, s[1..]) ==> Cum(s, n + 2) == s[0].order.qty + Cum(s[1..], n + 1)
  {
    CumTail(s, Reach(t, s));
    CumTail(s, n + 1);
    if n < Reach(t, s[1..]) {
      CumTail(s, n + 2);
    }
  }

  lemma PrefixTail(t: Taker, s: seq<Resting>, qty: nat, n: nat)
    requires s != [] && Crosses(t.side, t.price, s[0].order.price) && qty >= s[0].order.qty > 0
    requires PrefixConsumed(t, s[1..], qty - s[0].order.qty, MatchAll(t, s[1..], qty - s[0].order.qty), n)
    ensures PrefixConsumed(t, s, qty, MatchAll(t, s, qty), n + 1)
  {
    FirstFill(t, s, qty);
    TradedTail(t, s, qty, n);
    assert s[n + 1..] == s[1..][n..];
    assert n < |s[1..]| ==> s[n + 1] == s[1..][n] && s[n + 2..] == s[1..][n + 1..];
  }

  lemma FillsTail(t: Taker, s: seq<Resting>, qty: nat, m: Matched, m': Matched, n: nat)
    requires s != [] && Crosses(t.side, t.price, s[0].order.price) && qty >= s[0].order.qty > 0
    requires n <= Reach(t, s[1..]) && Cum(s[1..], n) <= Traded(t, s[1..], qty - s[0].order.qty)
    requires m.responses == FillResponses(t, s[0], qty) + m'.responses
    requires FillsReported(t, s[1..], qty - s[0].order.qty, m', n)
    ensures n + 1 <= |s| && Cum(s, n + 1) <= Traded(t, s, qty)
    ensures FillsReported(t, s, qty, m, n + 1)
  {
    hide Cum, Traded, Reach, PartOf, FillsOf;
    PartTail(t, s, qty, n);
    FillsOfTail(t, s, qty, m, m', n, PartOf(t, s, qty, n + 1));
  }

  lemma PartTail(t: Taker, s: seq<Resting>, qty: nat, n: nat)
    requires s != [] && Crosses(t.side, t.price, s[0].order.price) && qty >= s[0].order.qty
    requires n <= Reach(t, s[1..]) && Cum(s[1..], n) <= Traded(t, s[1..], qty - s[0].order.qty)
    ensures n + 1 <= |s| && Cum(s, n + 1) <= Traded(t, s, qty)
    ensures PartOf(t, s, qty, n + 1) == PartOf(t, s[1..], qty - s[0].order.qty, n)
  {
    hide Cum, Traded, Reach;
    TradedTail(t, s, qty, n);
  }

  lemma FillsOfTail(t: Taker, s: seq<Resting>, qty: nat, m: Matched, m': Matched, n: nat, part: nat)
    requires s != [] && Crosses(t.side, t.price, s[0].order.price) && qty >= s[0].order.qty > 0 && n < |s|
    requires m.responses == FillResponses(t, s[0], qty) + m'.responses
    requires FillsOf(t, s[1..], qty - s[0].order.qty, m', n, part)
    ensures FillsOf(t, s, qty, m, n + 1, part)
  {
    hide FillAt;
    FullFillsTail(t, s, qty, m, m', n);
    if part > 0 {
      FillTail(t, s, qty, m, m', n, part);
    }
  }

  lemma FullFillsTail(t: Taker, s: seq<Resting>, qty: nat, m: Matched, m': Matched, n: nat)
    requires s != [] && Crosses(t.side, t.price, s[0].order.price) && qty >= s[0].order.qty > 0 && n < |s|
    requires m.responses == FillResponses(t, s[0], qty) + m'.responses
    requires forall i: nat :: i < n ==> FillAt(t, s[1..], qty - s[0].order.qty, m', i, s[1..][i].order.qty)
    ensures forall i: nat :: i < n + 1 ==> FillAt(t, s, qty, m, i, s[i].order.qty)
  {
    hide FillAt, FillResponses;
    forall i: nat | i < n + 1
      ensures FillAt(t, s, qty, m, i, s[i].order.qty)
    {
      if i == 0 {
        FirstFillAt(t, s, qty, m, m');
      } else {
        assert FillAt(t, s[1..], qty - s[0].order.qty, m', i - 1, s[1..][i - 1].order.qty);
        FillTail(t, s, qty, m, m', i - 1, s[1..][i - 1].order.qty);
      }
    }
  }

  lemma FirstFillAt(t: Taker, s: seq<Resting>, qty: nat, m: Matched, m': Matched)
    requires s != [] && Crosses(t.side, t.price, s[0].order.price) && qty >= s[0].order.qty > 0
    requires m.responses == FillResponses(t, s[0], qty) + m'.responses
    ensures FillAt(t, s, qty, m, 0, s[0].order.qty)
  {
    assert m.responses[0] == FillResponses(t, s[0], qty)[0] && m.responses[1] == FillResponses(t, s[0], qty)[1];
  }
}
