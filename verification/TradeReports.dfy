/** What the exchange publishes of a trade, against what it tells the two parties and what was resting. */
module TradeReports {
  import opened Types
  import opened PriceTime
  import opened Matching
  import opened BookRuns

  /** The trades among published updates. */
  function Trades(us: seq<Update>): seq<Update> {
    if us == [] then [] else (if us[0].kind == TRADE then [us[0]] else []) + Trades(us[1..])
  }

  /** The fills among responses. */
  function Fills(rs: seq<Response>): seq<Response> {
    if rs == [] then [] else (if rs[0].kind == FILLED then [rs[0]] else []) + Fills(rs[1..])
  }

  lemma {:induction false} TradesConcat(a: seq<Update>, b: seq<Update>)
    ensures Trades(a + b) == Trades(a) + Trades(b)
  {
    if a == [] {
      assert a + b == b;
    } else {
      var first := if a[0].kind == TRADE then [a[0]] else [];
      assert (a + b)[0] == a[0] && (a + b)[1..] == a[1..] + b;
      TradesConcat(a[1..], b);
      assert first + (Trades(a[1..]) + Trades(b)) == (first + Trades(a[1..])) + Trades(b);
    }
  }

  lemma {:induction false} FillsConcat(a: seq<Response>, b: seq<Response>)
    ensures Fills(a + b) == Fills(a) + Fills(b)
  {
    if a == [] {
      assert a + b == b;
    } else {
      var first := if a[0].kind == FILLED then [a[0]] else [];
      assert (a + b)[0] == a[0] && (a + b)[1..] == a[1..] + b;
      FillsConcat(a[1..], b);
      assert first + (Fills(a[1..]) + Fills(b)) == (first + Fills(a[1..])) + Fills(b);
    }
  }

  /** A trade and the fills of its two parties: one quantity, one price, and the side is the taker's. */
  ghost predicate Agree(u: Update, taker: Response, passive: Response) {
    && u.kind == TRADE && taker.kind == passive.kind == FILLED
    && u.ticker == taker.ticker == passive.ticker
    && u.side == taker.side == Opposite(passive.side)
    && u.price == taker.price == passive.price
    && u.qty == taker.execQty == passive.execQty > 0
  }

  /** Each trade belongs to the next two fills: the taker's, then that of the order it met. */
  ghost predicate AllAgree(us: seq<Update>, rs: seq<Response>) {
    |rs| == 2 * |us| && forall k :: 0 <= k < |us| ==> Agree(us[k], rs[2 * k], rs[2 * k + 1])
  }

  lemma AgreeConcat(us: seq<Update>, rs: seq<Response>, us': seq<Update>, rs': seq<Response>)
    requires AllAgree(us, rs) && AllAgree(us', rs')
    ensures AllAgree(us + us', rs + rs')
  {
    hide Agree;
    var vs, ss := us + us', rs + rs';
    forall k | 0 <= k < |vs|
      ensures Agree(vs[k], ss[2 * k], ss[2 * k + 1])
    {
      if k < |us| {
        assert vs[k] == us[k] && ss[2 * k] == rs[2 * k] && ss[2 * k + 1] == rs[2 * k + 1];
      } else {
        var j := k - |us|;
        assert vs[k] == us'[j] && ss[2 * k] == rs'[2 * j] && ss[2 * k + 1] == rs'[2 * j + 1];
      }
    }
  }

  /** The k-th trade of a taker is with the k-th order it meets, at the price of that order. */
  ghost predicate MetAt(t: Taker, p: Resting, u: Update, taker: Response, passive: Response) {
    && u.side == t.side && u.price == p.order.price && u.ticker == t.ticker
    && u.id == ID_INVALID && u.priority == PRIORITY_INVALID
    && taker.key == t.key && taker.marketId == t.reportedId
    && passive.key == p.key && passive.marketId == p.order.id && passive.side == p.order.side
  }

  /** What is published of the order behind its trade: it is gone, or this much of it is left. */
  ghost predicate LeftOf(p: Resting, ticker: nat, traded: nat, u: Update) {
    && u.id == p.order.id && u.ticker == ticker && u.side == p.order.side && u.price == p.order.price
    && traded <= p.order.qty
    && if traded == p.order.qty then u.kind == CANCEL && u.qty == p.order.qty && u.priority == PRIORITY_INVALID
       else u.kind == MODIFY && u.qty == p.order.qty - traded && u.priority == p.order.priority
  }

  /** The k-th fill of a match in full: two responses and two updates about the k-th order of the opposite side. */
  ghost predicate Reported(t: Taker, s: seq<Resting>, m: Matched, k: nat) {
    && k < |s| && 2 * k + 1 < |m.responses| && 2 * k + 1 < |m.updates|
    && var u, a, b := m.updates[2 * k], m.responses[2 * k], m.responses[2 * k + 1];
       Agree(u, a, b) && MetAt(t, s[k], u, a, b) && LeftOf(s[k], t.ticker, u.qty, m.updates[2 * k + 1])
  }

  lemma ReportedTail(t: Taker, s: seq<Resting>, m: Matched, m': Matched, rs: seq<Response>, us: seq<Update>, k: nat)
    requires s != [] && |rs| == |us| == 2 && m.responses == rs + m'.responses && m.updates == us + m'.updates
    requires Reported(t, s[1..], m', k)
    ensures Reported(t, s, m, k + 1)
  {
    hide Agree, MetAt, LeftOf;
    var j := k + 1;
    assert m.responses[2 * j] == m'.responses[2 * k] && m.responses[2 * j + 1] == m'.responses[2 * k + 1];
    assert m.updates[2 * j] == m'.updates[2 * k] && m.updates[2 * j + 1] == m'.updates[2 * k + 1];
    assert s[j] == s[1..][k];
  }

  lemma ReportedHead(t: Taker, s: seq<Resting>, qty: nat, m: Matched, m': Matched)
    requires Wf(Opposite(t.side), s) && s != [] && t.side != NoSide && qty > 0
    requires m.responses == FillResponses(t, s[0], qty) + m'.responses
    requires m.updates == FillUpdates(t, s[0], qty) + m'.updates
    ensures Reported(t, s, m, 0)
  {
  }

  /** Everything a match publishes and answers, order by order of the opposite side. */
  lemma {:induction false} MatchIsReported(t: Taker, s: seq<Resting>, qty: nat)
    requires Wf(Opposite(t.side), s) && t.side != NoSide
    ensures var m := MatchAll(t, s, qty);
            && |m.responses| == |m.updates| && |m.updates| % 2 == 0
            && forall k: nat :: 2 * k < |m.updates| ==> Reported(t, s, m, k)
    decreases |s|
  {
    var m := MatchAll(t, s, qty);
    if qty > 0 && s != [] && Crosses(t.side, t.price, s[0].order.price) {
      var fill := Min(qty, s[0].order.qty);
      if qty < s[0].order.qty {
        var rest := [Reduced(s[0], fill)] + s[1..];
        assert MatchAll(t, rest, 0) == Matched(rest, 0, [], []);
        ReportedHead(t, s, qty, m, Matched(rest, 0, [], []));
      } else {
        TailWf(Opposite(t.side), s);
        var m' := MatchAll(t, s[1..], qty - fill);
        MatchIsReported(t, s[1..], qty - fill);
        hide Wf, Reported, MatchAll, Crosses;
        ReportedHead(t, s, qty, m, m');
        forall k: nat | 2 * k < |m.updates|
          ensures Reported(t, s, m, k)
        {
          if k > 0 {
            ReportedTail(t, s, m, m', FillResponses(t, s[0], qty), FillUpdates(t, s[0], qty), k - 1);
          }
        }
      }
    }
  }

  // ----- what is filtered out of the output of one request

  lemma {:induction false} EveryOtherTrade(us: seq<Update>)
    requires |us| % 2 == 0
    requires forall k: nat :: 2 * k < |us| ==> us[2 * k].kind == TRADE && us[2 * k + 1].kind != TRADE
    ensures |us| == 2 * |Trades(us)| && forall k: nat :: k < |Trades(us)| ==> Trades(us)[k] == us[2 * k]
  {
    if us != [] {
      assert us[2 * 0].kind == TRADE && us[2 * 0 + 1].kind != TRADE;
      var rest := us[2..];
      forall k: nat | 2 * k < |rest|
        ensures rest[2 * k].kind == TRADE && rest[2 * k + 1].kind != TRADE
      {
        assert rest[2 * k] == us[2 * (k + 1)] && rest[2 * k + 1] == us[2 * (k + 1) + 1];
      }
      EveryOtherTrade(rest);
      assert us[1..][1..] == rest;
      assert Trades(us) == [us[0]] + Trades(rest);
      forall k: nat | k < |Trades(us)|
        ensures Trades(us)[k] == us[2 * k]
      {
        if k > 0 {
          assert Trades(us)[k] == Trades(rest)[k - 1] == rest[2 * (k - 1)] == us[2 * k];
        }
      }
    }
  }

  lemma {:induction false} OnlyFills(rs: seq<Response>)
    requires forall i :: 0 <= i < |rs| ==> rs[i].kind == FILLED
    ensures Fills(rs) == rs
  {
    if rs != [] {
      OnlyFills(rs[1..]);
    }
  }

  /** The trades of a taker, in the order in which it meets the opposite side. */
  ghost predicate Met(t: Taker, s: seq<Resting>, us: seq<Update>, rs: seq<Response>) {
    && AllAgree(us, rs) && |us| <= |s|
    && forall k: nat :: k < |us| ==> MetAt(t, s[k], us[k], rs[2 * k], rs[2 * k + 1])
  }

  ghost predicate AllReported(t: Taker, s: seq<Resting>, m: Matched) {
    && |m.responses| == |m.updates| && |m.updates| % 2 == 0
    && forall k: nat :: 2 * k < |m.updates| ==> Reported(t, s, m, k)
  }

  lemma ReportedKinds(t: Taker, s: seq<Resting>, m: Matched)
    requires AllReported(t, s, m)
    ensures forall k: nat :: 2 * k < |m.updates| ==>
              m.updates[2 * k].kind == TRADE && m.updates[2 * k + 1].kind != TRADE
    ensures forall i :: 0 <= i < |m.responses| ==> m.responses[i].kind == FILLED
  {
    forall k: nat | 2 * k < |m.updates|
      ensures m.updates[2 * k].kind == TRADE && m.updates[2 * k + 1].kind != TRADE
    {
      assert Reported(t, s, m, k);
    }
    forall i | 0 <= i < |m.responses|
      ensures m.responses[i].kind == FILLED
    {
      assert Reported(t, s, m, i / 2);
    }
  }

  lemma ReportedTrades(t: Taker, s: seq<Resting>, m: Matched, us: seq<Update>)
    requires AllReported(t, s, m)
    requires |m.updates| == 2 * |us| && forall k: nat :: k < |us| ==> us[k] == m.updates[2 * k]
    ensures Met(t, s, us, m.responses)
  {
    hide Agree, MetAt, LeftOf;
    forall k: nat | k < |us|
      ensures k < |s| && Agree(us[k], m.responses[2 * k], m.responses[2 * k + 1])
      ensures MetAt(t, s[k], us[k], m.responses[2 * k], m.responses[2 * k + 1])
    {
      assert Reported(t, s, m, k);
    }
    if us != [] {
      assert Reported(t, s, m, |us| - 1);
    }
  }

  lemma MatchTrades(t: Taker, s: seq<Resting>, qty: nat)
    requires Wf(Opposite(t.side), s) && t.side != NoSide
    ensures var m := MatchAll(t, s, qty); Fills(m.responses) == m.responses && Met(t, s, Trades(m.updates), m.responses)
  {
    var m := MatchAll(t, s, qty);
    MatchIsReported(t, s, qty);
    hide Wf, MatchAll, Reported, Met;
    ReportedKinds(t, s, m);
    EveryOtherTrade(m.updates);
    OnlyFills(m.responses);
    ReportedTrades(t, s, m, Trades(m.updates));
  }

  /** The output of a new order is that of its match, after the acknowledgement and perhaps before an ADD. */
  lemma NewOutput(b: Book, key: ClientKey, side: Side, price: int, qty: nat)
      returns (accepted: Response, added: seq<Update>)
    ensures var s := Process(b, New(key, side, price, qty));
            var m := MatchAll(TakerOf(b, key, side, price), b.On(Opposite(side)), qty);
            && s.responses == [accepted] + m.responses && accepted.kind == ACCEPTED
            && s.updates == m.updates + added && |added| <= 1 && (added != [] ==> added[0].kind == ADD)
  {
    var s := Process(b, New(key, side, price, qty));
    var m := MatchAll(TakerOf(b, key, side, price), b.On(Opposite(side)), qty);
    hide MatchAll, Insert;
    accepted, added := s.responses[0], s.updates[|m.updates|..];
  }

  /**
   * What a new order trades is published as it is answered: there is one TRADE for each order that it meets, in their
   * order, with the side of the new order, and with the price of the resting order and the quantity that the two fills
   * of that trade report; the fills carry the ids of the two orders, that of the new one narrowed to 32 bits.
   */
  lemma NewTrades(b: Book, key: ClientKey, side: Side, price: int, qty: nat)
    requires Good(b) && side != NoSide
    ensures var s := Process(b, New(key, side, price, qty));
            Met(Taker(b.ticker, key, side, price, b.nextId % TWO_32), b.On(Opposite(side)), Trades(s.updates),
                Fills(s.responses))
  {
    var t, opp := TakerOf(b, key, side, price), b.On(Opposite(side));
    var m := MatchAll(t, opp, qty);
    var accepted, added := NewOutput(b, key, side, price, qty);
    MatchTrades(t, opp, qty);
    hide Good, Wf, Met, MatchAll, Process;
    TradesConcat(m.updates, added);
    FillsConcat([accepted], m.responses);
    assert Trades(added) == [] && Trades(m.updates) + [] == Trades(m.updates);
    assert Fills([accepted]) == [] && [] + m.responses == m.responses;
  }

  lemma CancelTradesNothing(b: Book, key: ClientKey)
    ensures var s := Process(b, CancelOrder(key)); Trades(s.updates) == [] && Fills(s.responses) == []
  {
  }

  /**
   * In every run the published trades are the fills: the k-th TRADE carries the side of the taker, and the price and
   * the quantity that the responses numbered 2k and 2k + 1 among all fills report to the taker and to the other party.
   */
  lemma {:induction false} TradesAreFills(b: Book, rs: seq<Request>)
    requires Good(b) && AllAdmissible(b, rs)
    ensures AllAgree(Trades(Run(b, rs).updates), Fills(Run(b, rs).responses))
  {
    if rs != [] {
      var init, r := rs[..|rs| - 1], rs[|rs| - 1];
      TradesAreFills(b, init);
      RunKeepsGood(b, init);
      var before := Run(b, init);
      var p := Process(before.book, r);
      TradesConcat(before.updates, p.updates);
      FillsConcat(before.responses, p.responses);
      match r
      case New(key, side, price, qty) =>
        NewTrades(before.book, key, side, price, qty);
        AgreeConcat(Trades(before.updates), Fills(before.responses), Trades(p.updates), Fills(p.responses));
      case CancelOrder(key) =>
        CancelTradesNothing(before.book, key);
    }
  }

  // ----- acknowledgements and cancels

  /** An order e that rests after a request, as the acknowledgement a and the last update show it. */
  ghost predicate ShownAs(e: Resting, a: Response, us: seq<Update>) {
    && e.order.id == a.marketId && e.order.side == a.side && e.order.price == a.price
    && us != []
    && us[|us| - 1] == Update(ADD, a.marketId, a.ticker, a.side, a.price, e.order.qty, e.order.priority)
  }

  /**
   * A new order is acknowledged as it was sent, under an id that no resting order has. What is left of it after its
   * match rests under this id, at its side and price, and then this is the last thing published; otherwise no ADD is.
   */
  lemma NewIsAcknowledged(b: Book, key: ClientKey, side: Side, price: int, qty: nat)
    requires Good(b) && Admissible(b, New(key, side, price, qty))
    ensures var s := Process(b, New(key, side, price, qty));
            && s.responses != []
            && var a := s.responses[0];
               && a == Response(ACCEPTED, key, b.ticker, a.marketId, side, price, 0, qty)
               && (forall e :: e in b.bids + b.asks ==> e.order.id != a.marketId)
               && (!HasKey(s.book.On(side), key) ==> forall u :: u in s.updates ==> u.kind != ADD)
               && (forall e :: e in s.book.On(side) && e.key == key ==> ShownAs(e, a, s.updates))
  {
    var t, opp := TakerOf(b, key, side, price), b.On(Opposite(side));
    var m := MatchAll(t, opp, qty);
    FreshId(b);
    NotResting(b, key, side);
    assert Wf(Opposite(side), opp);
    hide Good, Admissible, Wf, MatchAll, HasKey, ShownAs, Settle;
    MatchIsReported(t, opp, qty);
    MatchAddsNothing(t, opp, m);
    SettleShows(b, key, side, price, qty, m);
  }

  lemma FreshId(b: Book)
    requires Good(b)
    ensures forall e :: e in b.bids + b.asks ==> e.order.id != b.nextId
  {
    hide Wf;
  }

  lemma NotResting(b: Book, key: ClientKey, side: Side)
    requires Good(b) && !Live(b, key)
    ensures !HasKey(b.On(side), key) && forall e :: e in b.On(side) ==> e.key != key
  {
    hide Wf;
  }

  lemma SettleShows(b: Book, key: ClientKey, side: Side, price: int, qty: nat, m: Matched)
    requires side != NoSide && !HasKey(b.On(side), key) && forall e :: e in b.On(side) ==> e.key != key
    requires forall u :: u in m.updates ==> u.kind != ADD
    ensures var s := Settle(b, key, side, price, qty, m);
            && s.responses != []
            && var a := s.responses[0];
               && a == Response(ACCEPTED, key, b.ticker, b.nextId, side, price, 0, qty)
               && (!HasKey(s.book.On(side), key) ==> forall u :: u in s.updates ==> u.kind != ADD)
               && (forall e :: e in s.book.On(side) && e.key == key ==> ShownAs(e, a, s.updates))
  {
    if m.leaves > 0 {
      var rest := Remainder(b, key, side, price, m.leaves);
      InsertMembers(b.On(side), rest);
      var i := Rank(b.On(side), side, price);
      assert Insert(b.On(side), rest)[i] == rest;
      hide Insert, NextPriority;
    }
  }

  lemma MatchAddsNothing(t: Taker, s: seq<Resting>, m: Matched)
    requires AllReported(t, s, m)
    ensures forall u :: u in m.updates ==> u.kind != ADD
  {
    forall i | 0 <= i < |m.updates|
      ensures m.updates[i].kind != ADD
    {
      assert Reported(t, s, m, i / 2);
    }
  }

  /** The cancel of a resting order is answered and published with the order's own data, and takes out exactly it. */
  lemma CancelIsAnswered(b: Book, side: Side, i: nat)
    requires Good(b) && side != NoSide && i < |b.On(side)|
    ensures var o, key, s := b.On(side)[i].order, b.On(side)[i].key, Process(b, CancelOrder(b.On(side)[i].key));
            && o.side == side
            && s.responses == [Response(CANCELED, key, b.ticker, o.id, side, o.price, QTY_INVALID, o.qty)]
            && s.updates == [Update(CANCEL, o.id, b.ticker, side, o.price, 0, o.priority)]
            && s.book == b.With(side, b.On(side)[..i] + b.On(side)[i + 1..])
  {
    var own, key := b.On(side), b.On(side)[i].key;
    FoundAt(side, own, i);
    NotOpposite(b, side, i);
    hide Good, Wf, Without;
  }

  lemma FoundAt(side: Side, s: seq<Resting>, i: nat)
    requires Wf(side, s) && i < |s|
    ensures IndexOf(s, s[i].key) == i && s[i].order.side == side
    ensures Without(s, s[i].key) == s[..i] + s[i + 1..]
  {
    forall k | 0 <= k < i
      ensures s[k].key != s[i].key
    {
      assert Queued(side, s[k], s[i]);
    }
    WithoutIndex(side, s, i);
  }

  lemma NotOpposite(b: Book, side: Side, i: nat)
    requires Good(b) && side != NoSide && i < |b.On(side)|
    ensures var opp := b.On(Opposite(side)); IndexOf(opp, b.On(side)[i].key) == |opp|
  {
    var opp := b.On(Opposite(side));
    forall j | 0 <= j < |opp|
      ensures opp[j].key != b.On(side)[i].key
    {
      assert if side == Buy then Apart(b.bids[i], b.asks[j]) else Apart(b.bids[j], b.asks[i]);
    }
  }

  /** The cancel of an order that does not rest is rejected, and nothing changes or is published. */
  lemma CancelIsRejected(b: Book, key: ClientKey)
    requires !Live(b, key)
    ensures var s := Process(b, CancelOrder(key));
            && s.book == b && s.updates == []
            && s.responses == [Response(CANCEL_REJECTED, key, b.ticker, ID_INVALID, NoSide, PRICE_INVALID, QTY_INVALID,
                                        QTY_INVALID)]
  {
  }

  // ----- market order ids

  /** The acknowledgements among responses. */
  function Accepted(rs: seq<Response>): seq<Response> {
    if rs == [] then [] else (if rs[0].kind == ACCEPTED then [rs[0]] else []) + Accepted(rs[1..])
  }

  lemma {:induction false} AcceptedConcat(a: seq<Response>, b: seq<Response>)
    ensures Accepted(a + b) == Accepted(a) + Accepted(b)
  {
    if a == [] {
      assert a + b == b;
    } else {
      var first := if a[0].kind == ACCEPTED then [a[0]] else [];
      assert (a + b)[0] == a[0] && (a + b)[1..] == a[1..] + b;
      AcceptedConcat(a[1..], b);
      assert first + (Accepted(a[1..]) + Accepted(b)) == (first + Accepted(a[1..])) + Accepted(b);
    }
  }

  lemma {:induction false} NoneAccepted(rs: seq<Response>)
    requires forall i :: 0 <= i < |rs| ==> rs[i].kind == FILLED
    ensures Accepted(rs) == []
  {
    if rs != [] {
      NoneAccepted(rs[1..]);
    }
  }

  lemma NewIsAccepted(b: Book, key: ClientKey, side: Side, price: int, qty: nat)
    requires Good(b) && side != NoSide
    ensures var s := Process(b, New(key, side, price, qty));
            && Accepted(s.responses) == [Response(ACCEPTED, key, b.ticker, b.nextId, side, price, 0, qty)]
            && s.book.nextId == b.nextId + 1
  {
    var t, opp := TakerOf(b, key, side, price), b.On(Opposite(side));
    var m := MatchAll(t, opp, qty);
    assert Wf(Opposite(side), opp);
    MatchIsReported(t, opp, qty);
    ReportedKinds(t, opp, m);
    NoneAccepted(m.responses);
    var s := Process(b, New(key, side, price, qty));
    hide Good, Wf, MatchAll, Insert;
    assert s.responses == [s.responses[0]] + m.responses;
    AcceptedConcat([s.responses[0]], m.responses);
  }

  /** In every run new orders are acknowledged under consecutive market order ids. */
  lemma {:induction false} IdsAreConsecutive(b: Book, rs: seq<Request>)
    requires Good(b) && AllAdmissible(b, rs)
    ensures var accepted := Accepted(Run(b, rs).responses);
            && Run(b, rs).book.nextId == b.nextId + |accepted|
            && forall k :: 0 <= k < |accepted| ==> accepted[k].marketId == b.nextId + k
  {
    if rs != [] {
      var init, r := rs[..|rs| - 1], rs[|rs| - 1];
      IdsAreConsecutive(b, init);
      RunKeepsGood(b, init);
      var before := Run(b, init);
      var p := Process(before.book, r);
      AcceptedConcat(before.responses, p.responses);
      hide Process, Good;
      match r
      case New(key, side, price, qty) => NewIsAccepted(before.book, key, side, price, qty);
      case CancelOrder(key) => CancelAcceptsNothing(before.book, key);
    }
  }

  lemma CancelAcceptsNothing(b: Book, key: ClientKey)
    ensures var s := Process(b, CancelOrder(key)); Accepted(s.responses) == [] && s.book.nextId == b.nextId
  {
  }
}
