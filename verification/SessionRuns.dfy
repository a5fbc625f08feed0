/**
 * Whole sessions against their history: what the client asked for, what the exchange processed, and what was filled.
 */
module SessionRuns {
  import opened Types
  import opened PriceTime
  import opened Matching
  import opened BookRuns
  import opened Lifecycles
  import opened OrderManagers
  import opened TradingSessions
  import PositionKeepers

  // ----- the exchange's part of a session is a run of its book

  /** What the client hears, and what the exchange processes, in one action. */
  function HeardIn(s: Session, a: Action): seq<Response> {
    if a.Deliver? && s.responses != [] then [s.responses[0]] else []
  }

  function HandledIn(s: Session, a: Action): seq<Request> {
    match a
    case Arrive(i) => if i < |s.requests| then [s.requests[i]] else []
    case Stranger(r) => [r]
    case _ => []
  }

  /** The responses that the client has been told of. */
  ghost function Heard(me: nat, cfg: RiskCfg, ticker: nat, actions: seq<Action>): seq<Response>
    requires Runs(me, cfg, ticker, actions)
  {
    if actions == [] then []
    else
      var init := actions[..|actions| - 1];
      Heard(me, cfg, ticker, init) + HeardIn(Reached(me, cfg, ticker, init), actions[|actions| - 1])
  }

  /** The requests that the exchange has processed, those of other clients included. */
  ghost function Handled(me: nat, cfg: RiskCfg, ticker: nat, actions: seq<Action>): seq<Request>
    requires Runs(me, cfg, ticker, actions)
  {
    if actions == [] then []
    else
      var init := actions[..|actions| - 1];
      Handled(me, cfg, ticker, init) + HandledIn(Reached(me, cfg, ticker, init), actions[|actions| - 1])
  }

  lemma RunGrows(b: Book, rs: seq<Request>, r: Request)
    ensures var s := Run(b, rs);
            var p := Process(s.book, r);
            Run(b, rs + [r]) == Step(p.book, s.responses + p.responses, s.updates + p.updates)
    ensures AllAdmissible(b, rs + [r]) <==> AllAdmissible(b, rs) && Admissible(Run(b, rs).book, r)
  {
    assert (rs + [r])[..|rs|] == rs;
  }

  /** A session as a run of the exchange's book, of which the client has heard a part. */
  ghost predicate IsRun(me: nat, ticker: nat, s: Session, heard: seq<Response>, handled: seq<Request>) {
    && AllAdmissible(EmptyBook(ticker), handled)
    && s.book == Run(EmptyBook(ticker), handled).book
    && heard + s.responses == Mine(me, Run(EmptyBook(ticker), handled).responses)
  }

  lemma {:induction false} MineConcat(me: nat, a: seq<Response>, b: seq<Response>)
    ensures Mine(me, a + b) == Mine(me, a) + Mine(me, b)
  {
    if a == [] {
      assert a + b == b;
    } else {
      var first := if a[0].key.client == me then [a[0]] else [];
      assert (a + b)[0] == a[0] && (a + b)[1..] == a[1..] + b;
      MineConcat(me, a[1..], b);
      assert first + (Mine(me, a[1..]) + Mine(me, b)) == (first + Mine(me, a[1..])) + Mine(me, b);
    }
  }

  lemma HandledNext(me: nat, ticker: nat, s: Session, heard: seq<Response>, handled: seq<Request>, r: Request,
      requests: seq<Request>)
    requires IsRun(me, ticker, s, heard, handled) && Admissible(s.book, r)
    ensures IsRun(me, ticker, Processed(me, s, r, requests), heard, handled + [r])
  {
    hide Process, Admissible;
    RunGrows(EmptyBook(ticker), handled, r);
    var p := Process(s.book, r);
    MineConcat(me, Run(EmptyBook(ticker), handled).responses, p.responses);
    assert heard + (s.responses + Mine(me, p.responses)) == (heard + s.responses) + Mine(me, p.responses);
  }

  lemma AlsoHandled(me: nat, ticker: nat, s: Session, heard: seq<Response>, handled: seq<Request>, r: Request,
      requests: seq<Request>)
    requires IsRun(me, ticker, s, heard, handled) && Admissible(s.book, r)
    ensures IsRun(me, ticker, Processed(me, s, r, requests), heard + [], handled + [r])
  {
    assert heard + [] == heard;
    hide IsRun, Admissible, Processed;
    HandledNext(me, ticker, s, heard, handled, r, requests);
  }

  /** An action at which the exchange processes nothing. */
  lemma HeardNext(me: nat, ticker: nat, s: Session, heard: seq<Response>, handled: seq<Request>, more: seq<Response>,
      s': Session)
    requires IsRun(me, ticker, s, heard, handled)
    requires s'.book == s.book && s.responses == more + s'.responses
    ensures IsRun(me, ticker, s', heard + more, handled + [])
  {
    assert handled + [] == handled;
    hide AllAdmissible, Run, Mine;
    assert (heard + more) + s'.responses == heard + s.responses;
  }

  lemma ActIsRun(me: nat, cfg: RiskCfg, ticker: nat, s: Session, heard: seq<Response>, handled: seq<Request>, a: Action)
    requires IsRun(me, ticker, s, heard, handled) && Sound(me, s) && Enabled(me, s, a)
    ensures IsRun(me, ticker, Act(me, cfg, s, a), heard + HeardIn(s, a), handled + HandledIn(s, a))
  {
    hide IsRun, Sound, Admissible, Processed, Move, CheckPreTradeRisk, Positioned, Noticed;
    match a
    case Arrive(i) =>
      ArriveKeepsSound(me, cfg, s, i);
      AlsoHandled(me, ticker, s, heard, handled, s.requests[i], DropAt(s.requests, i));
    case Stranger(r) =>
      AlsoHandled(me, ticker, s, heard, handled, r, s.requests);
    case Deliver =>
      HeardNext(me, ticker, s, heard, handled, [s.responses[0]], Act(me, cfg, s, a));
    case _ =>
      HeardNext(me, ticker, s, heard, handled, [], Act(me, cfg, s, a));
  }

  /**
   * In every session the exchange's book is that of an admissible run, and the client has heard, or has under way, in
   * order, exactly the responses of that run that are addressed to it.
   */
  lemma {:induction false} SessionIsRun(me: nat, cfg: RiskCfg, ticker: nat, actions: seq<Action>)
    requires Runs(me, cfg, ticker, actions)
    ensures IsRun(me, ticker, Reached(me, cfg, ticker, actions), Heard(me, cfg, ticker, actions),
        Handled(me, cfg, ticker, actions))
  {
    if actions != [] {
      var init := actions[..|actions| - 1];
      hide IsRun, Sound, Enabled, Act, HeardIn, HandledIn;
      SessionIsRun(me, cfg, ticker, init);
      EveryRunIsSound(me, cfg, ticker, init);
      ActIsRun(me, cfg, ticker, Reached(me, cfg, ticker, init), Heard(me, cfg, ticker, init),
          Handled(me, cfg, ticker, init), actions[|actions| - 1]);
    } else {
      NothingHandled(me, ticker);
    }
  }

  lemma NothingHandled(me: nat, ticker: nat)
    ensures IsRun(me, ticker, Opening(ticker), [], [])
  {
  }

  // ----- the position

  /** Bought less sold. */
  function Net(log: seq<Response>): int {
    SideExecuted(log, Buy) - SideExecuted(log, Sell)
  }

  lemma NetConcat(a: seq<Response>, b: seq<Response>)
    ensures Net(a + b) == Net(a) + Net(b)
  {
    SideExecutedConcat(a, b, Buy);
    SideExecutedConcat(a, b, Sell);
  }

  lemma PositionedIs(position: int, r: Response)
    ensures Positioned(position, r) == position + Net([r])
  {
    SignedIs(r.side, r.execQty);
    hide Signed;
    assert SideExecuted([r], Buy) == if r.kind == FILLED && r.side == Buy then r.execQty else 0;
    assert SideExecuted([r], Sell) == if r.kind == FILLED && r.side == Sell then r.execQty else 0;
  }

  lemma {:induction false} PositionWithIs(position: int, log: seq<Response>)
    ensures PositionWith(position, log) == position + Net(log)
    decreases |log|
  {
    if log != [] {
      PositionWithIs(Positioned(position, log[0]), log[1..]);
      PositionedIs(position, log[0]);
      NetConcat([log[0]], log[1..]);
      assert [log[0]] + log[1..] == log;
    }
  }

  lemma {:induction false} PositionIsHeard(me: nat, cfg: RiskCfg, ticker: nat, actions: seq<Action>)
    requires Runs(me, cfg, ticker, actions)
    ensures Reached(me, cfg, ticker, actions).position == Net(Heard(me, cfg, ticker, actions))
  {
    if actions != [] {
      var init, a := actions[..|actions| - 1], actions[|actions| - 1];
      PositionIsHeard(me, cfg, ticker, init);
      var s, heard := Reached(me, cfg, ticker, init), Heard(me, cfg, ticker, init);
      hide Move, Process, Net, Positioned, CheckPreTradeRisk;
      assert heard + [] == heard;
      if a.Deliver? {
        PositionedIs(s.position, s.responses[0]);
        NetConcat(heard, [s.responses[0]]);
      }
    }
  }

  /**
   * In every session the position that the limits are about is what was executed for the client on the buy side less
   * what was on the sell side: the known one over the responses heard, the true one over all that the exchange sent.
   */
  lemma PositionIsExecuted(me: nat, cfg: RiskCfg, ticker: nat, actions: seq<Action>)
    requires Runs(me, cfg, ticker, actions)
    ensures var s, heard := Reached(me, cfg, ticker, actions), Heard(me, cfg, ticker, actions);
            var all := Mine(me, Run(EmptyBook(ticker), Handled(me, cfg, ticker, actions)).responses);
            && heard <= all
            && s.position == SideExecuted(heard, Buy) - SideExecuted(heard, Sell)
            && PositionWith(s.position, s.responses) == SideExecuted(all, Buy) - SideExecuted(all, Sell)
  {
    SessionIsRun(me, cfg, ticker, actions);
    PositionIsHeard(me, cfg, ticker, actions);
    var s, heard := Reached(me, cfg, ticker, actions), Heard(me, cfg, ticker, actions);
    hide Reached, Heard, Handled, Runs, Run, Mine, AllAdmissible, SideExecuted;
    PositionWithIs(s.position, s.responses);
    NetConcat(heard, s.responses);
  }

  /** With limits at which the check is right, no execution ever takes the client out of its position limit. */
  lemma ExecutionsStayLimited(me: nat, cfg: RiskCfg, ticker: nat, actions: seq<Action>)
    requires CfgOk(cfg) && Runs(me, cfg, ticker, actions)
    ensures var all := Mine(me, Run(EmptyBook(ticker), Handled(me, cfg, ticker, actions)).responses);
            Abs(SideExecuted(all, Buy) - SideExecuted(all, Sell)) <= cfg.maxPosition
  {
    PositionStaysLimited(me, cfg, ticker, actions);
    PositionIsExecuted(me, cfg, ticker, actions);
    hide Reached, Heard, Handled, Runs, Run, Mine, SideExecuted, StillOpen;
  }

  // ----- the position keeper

  /** The fills among the responses, as the position keeper is told of them. */
  function FillsOf(log: seq<Response>): seq<PositionKeepers.Event> {
    if log == [] then []
    else
      var r := log[|log| - 1];
      FillsOf(log[..|log| - 1]) + if r.kind == FILLED then [PositionKeepers.Fill(r.side, r.price, r.execQty)] else []
  }

  lemma {:induction false} FillsAreNet(log: seq<Response>)
    ensures PositionKeepers.PositionOf(FillsOf(log)) == Net(log)
  {
    if log != [] {
      var init, r := log[..|log| - 1], log[|log| - 1];
      FillsAreNet(init);
      assert log == init + [r];
      NetConcat(init, [r]);
      PositionedIs(0, r);
      SignedIs(r.side, r.execQty);
      var e := PositionKeepers.Fill(r.side, r.price, r.execQty);
      assert (FillsOf(init) + [e])[..|FillsOf(init)|] == FillsOf(init);
      assert FillsOf(init) + [] == FillsOf(init);
      hide Net, Signed;
    }
  }

  ghost predicate Sided(log: seq<Response>) {
    forall i :: 0 <= i < |log| && log[i].kind == FILLED ==> log[i].side != NoSide
  }

  lemma {:induction false} HeardIsSided(me: nat, cfg: RiskCfg, ticker: nat, actions: seq<Action>)
    requires Runs(me, cfg, ticker, actions)
    ensures Sided(Heard(me, cfg, ticker, actions))
  {
    if actions != [] {
      var init, a := actions[..|actions| - 1], actions[|actions| - 1];
      HeardIsSided(me, cfg, ticker, init);
      EveryRunIsSound(me, cfg, ticker, init);
      var s := Reached(me, cfg, ticker, init);
      if a.Deliver? {
        assert ResponseOk(me, s.desk, s.responses[0]);
      }
      hide Sound, Reached;
    }
  }

  /** onOrderUpdate of the trade engine, response by response: the position keeper is told of every fill. */
  method HearAll(x: PositionKeepers.PositionInfo, log: seq<Response>)
    requires x.Valid() && Sided(log)
    modifies x
    ensures x.Valid() && x.history == old(x.history) + FillsOf(log)
  {
    for i := 0 to |log|
      invariant x.Valid() && x.history == old(x.history) + FillsOf(log[..i])
    {
      assert log[..i + 1][..i] == log[..i];
      if log[i].kind == FILLED {
        x.AddFill(log[i].side, log[i].price, log[i].execQty);
      }
    }
    assert log[..|log|] == log;
  }

  /** In every session the position keeper told of the fills heard holds the position that the limits are about. */
  method KeepPosition(ghost me: nat, ghost cfg: RiskCfg, ghost ticker: nat, ghost actions: seq<Action>,
      log: seq<Response>) returns (x: PositionKeepers.PositionInfo)
    requires Runs(me, cfg, ticker, actions) && log == Heard(me, cfg, ticker, actions)
    ensures fresh(x) && x.Valid() && x.history == FillsOf(log)
    ensures x.position == Reached(me, cfg, ticker, actions).position
  {
    HeardIsSided(me, cfg, ticker, actions);
    x := new PositionKeepers.PositionInfo();
    hide Heard, Runs, Reached, SideExecuted;
    HearAll(x, log);
    FillsAreNet(log);
    PositionIsHeard(me, cfg, ticker, actions);
  }

  // ----- what the client asked for

  ghost predicate Idle(o: OMOrder) {
    o.state == UNSET || o.state == DEAD
  }

  /** The move asks for this new order: at a real price, from an idle slot, within the limits of the pre-trade check. */
  ghost predicate AsksFor(me: nat, cfg: RiskCfg, s: Session, a: Action, r: Request) {
    && a.MoveOrder? && r == New(ClientKey(me, s.nextOrderId), a.side, a.price, a.qty)
    && a.price != PRICE_INVALID && Idle(s.desk.On(a.side))
    && CheckPreTradeRisk(s.position, a.totalPnl, cfg, a.side, a.qty) == ALLOWED
  }

  /** Some move of the session asked for this order. */
  ghost predicate Asked(me: nat, cfg: RiskCfg, ticker: nat, actions: seq<Action>, r: Request)
    requires Runs(me, cfg, ticker, actions)
  {
    actions != []
    && var init := actions[..|actions| - 1];
       Asked(me, cfg, ticker, init, r) || AsksFor(me, cfg, Reached(me, cfg, ticker, init), actions[|actions| - 1], r)
  }

  ghost predicate AskedOrder(me: nat, cfg: RiskCfg, ticker: nat, actions: seq<Action>, e: Resting)
    requires Runs(me, cfg, ticker, actions)
  {
    exists qty: nat :: Asked(me, cfg, ticker, actions, New(e.key, e.order.side, e.order.price, qty))
  }

  /**
   * A move sends a new order if and only if the slot is idle, the price is valid and the check allows; then it is
   * exactly the one asked for, under the next order id, and the slot waits for it. It cancels if and only if the slot
   * holds a live order at another price, and otherwise it does nothing.
   */
  lemma MoveSendsIff(o: OMOrder, nextOrderId: nat, me: nat, side: Side, price: int, qty: nat, risk: RiskCheckResult)
    ensures var m := Move(o, nextOrderId, me, side, price, qty, risk);
            var asked := Idle(o) && price != PRICE_INVALID && risk == ALLOWED;
            && (asked <==> exists r :: r in m.sent && r.New?)
            && (asked ==> m == Moved(OMOrder(nextOrderId, side, price, qty, PENDING_NEW), nextOrderId + 1,
                                     [New(ClientKey(me, nextOrderId), side, price, qty)]))
            && (o.state == LIVE && o.price != price <==> exists r :: r in m.sent && r.CancelOrder?)
            && (o.state == LIVE && o.price != price ==>
                  m == Moved(o.(state := PENDING_CANCEL), nextOrderId, [CancelOrder(ClientKey(me, o.id))]))
            && (m.sent == [] ==> m == Moved(o, nextOrderId, []))
  {
    var m := Move(o, nextOrderId, me, side, price, qty, risk);
    assert m.sent != [] ==> m.sent[0] in m.sent;
  }

  /** Every order in a book after a request was there before, or is the one requested. */
  lemma ProcessedOrders(b: Book, r: Request, side: Side, e: Resting)
    requires Good(b) && Admissible(b, r) && side != NoSide && e in Process(b, r).book.On(side)
    ensures (exists x :: x in b.On(side) && SameOrder(e, x))
         || (r.New? && e.key == r.key && e.order.price == r.price && e.order.side == r.side)
  {
    match r
    case New(key, own, price, qty) =>
      var t, opp := TakerOf(b, key, own, price), b.On(Opposite(own));
      MatchKeepsSide(t, opp, qty);
      var m := MatchAll(t, opp, qty);
      hide Good, Admissible, MatchAll, Insert, Wf;
      if side == own {
        InsertMembers(b.On(own), Remainder(b, key, own, price, m.leaves));
        assert e in b.On(own) ==> SameOrder(e, e);
      } else {
        RemnantMember(opp, m.opposite, e);
      }
    case CancelOrder(key) =>
      hide Good, Admissible, Without;
      WithoutMembers(b.bids, key, e);
      WithoutMembers(b.asks, key, e);
      assert SameOrder(e, e);
  }

  lemma RemnantMember(s: seq<Resting>, u: seq<Resting>, e: Resting)
    requires Remnant(s, u) && e in u
    ensures exists x :: x in s && SameOrder(e, x)
  {
    var i :| 0 <= i < |u| && u[i] == e;
    assert SameOrder(u[i], s[|s| - |u| + i]);
  }

  lemma AskedLater(me: nat, cfg: RiskCfg, ticker: nat, actions: seq<Action>, e: Resting)
    requires Runs(me, cfg, ticker, actions) && actions != []
    requires AskedOrder(me, cfg, ticker, actions[..|actions| - 1], e)
    ensures AskedOrder(me, cfg, ticker, actions, e)
  {
    var qty: nat :| Asked(me, cfg, ticker, actions[..|actions| - 1], New(e.key, e.order.side, e.order.price, qty));
    assert Asked(me, cfg, ticker, actions, New(e.key, e.order.side, e.order.price, qty));
  }

  /** All the client's new orders under way were asked for. */
  ghost predicate RequestsAsked(me: nat, cfg: RiskCfg, ticker: nat, actions: seq<Action>, requests: seq<Request>)
    requires Runs(me, cfg, ticker, actions)
  {
    forall r :: r in requests && r.New? ==> Asked(me, cfg, ticker, actions, r)
  }

  /** All the client's resting orders were asked for. */
  ghost predicate OrdersAsked(me: nat, cfg: RiskCfg, ticker: nat, actions: seq<Action>, b: Book)
    requires Runs(me, cfg, ticker, actions)
  {
    forall side, e :: side != NoSide && e in b.On(side) && e.key.client == me ==>
      AskedOrder(me, cfg, ticker, actions, e)
  }

  lemma ActAsks(me: nat, cfg: RiskCfg, ticker: nat, actions: seq<Action>)
    requires Runs(me, cfg, ticker, actions) && actions != []
    requires var init := actions[..|actions| - 1];
             RequestsAsked(me, cfg, ticker, init, Reached(me, cfg, ticker, init).requests)
    ensures RequestsAsked(me, cfg, ticker, actions, Reached(me, cfg, ticker, actions).requests)
  {
    var init, a := actions[..|actions| - 1], actions[|actions| - 1];
    var s, t := Reached(me, cfg, ticker, init), Reached(me, cfg, ticker, actions);
    hide Process, CheckPreTradeRisk;
    forall r | r in t.requests && r.New?
      ensures r in s.requests || AsksFor(me, cfg, s, a, r)
    {
      match a
      case MoveOrder(side, price, qty, totalPnl) =>
        var risk := CheckPreTradeRisk(s.position, totalPnl, cfg, side, qty);
        MoveSendsIff(s.desk.On(side), s.nextOrderId, me, side, price, qty, risk);
      case _ =>
    }
    hide Reached, AsksFor;
    forall r | r in t.requests && r.New?
      ensures Asked(me, cfg, ticker, actions, r)
    {
      assert r in s.requests ==> Asked(me, cfg, ticker, init, r);
    }
  }

  /** What the exchange processes in an action of the client's own was asked for before. */
  lemma HandledAsked(me: nat, cfg: RiskCfg, ticker: nat, init: seq<Action>, b: Book, r: Request, b': Book)
    requires Runs(me, cfg, ticker, init) && Good(b) && Admissible(b, r) && b' == Process(b, r).book
    requires OrdersAsked(me, cfg, ticker, init, b)
    requires r.New? && r.key.client == me ==> Asked(me, cfg, ticker, init, r)
    ensures OrdersAsked(me, cfg, ticker, init, b')
  {
    hide Good, Admissible, Process, Asked;
    forall side, e | side != NoSide && e in b'.On(side) && e.key.client == me
      ensures AskedOrder(me, cfg, ticker, init, e)
    {
      ProcessedOrders(b, r, side, e);
      if x :| x in b.On(side) && SameOrder(e, x) {
        assert AskedOrder(me, cfg, ticker, init, x);
      } else {
        assert r == New(e.key, e.order.side, e.order.price, r.qty);
      }
    }
  }

  lemma ActKeepsAsked(me: nat, cfg: RiskCfg, ticker: nat, actions: seq<Action>)
    requires Runs(me, cfg, ticker, actions) && actions != []
    requires var init := actions[..|actions| - 1];
             var s := Reached(me, cfg, ticker, init);
             RequestsAsked(me, cfg, ticker, init, s.requests) && OrdersAsked(me, cfg, ticker, init, s.book)
    ensures OrdersAsked(me, cfg, ticker, actions, Reached(me, cfg, ticker, actions).book)
  {
    var init, a := actions[..|actions| - 1], actions[|actions| - 1];
    var s, t := Reached(me, cfg, ticker, init), Reached(me, cfg, ticker, actions);
    EveryRunIsSound(me, cfg, ticker, init);
    assert Good(s.book);
    assert OrdersAsked(me, cfg, ticker, init, t.book) by {
      hide Process, Admissible, Good, Sound, OrdersAsked, Asked, Move, CheckPreTradeRisk;
      match a
      case Arrive(i) =>
        ArriveKeepsSound(me, cfg, s, i);
        HandledAsked(me, cfg, ticker, init, s.book, s.requests[i], t.book);
      case Stranger(r) =>
        HandledAsked(me, cfg, ticker, init, s.book, r, t.book);
      case _ =>
    }
    hide Reached, AskedOrder;
    forall side, e | side != NoSide && e in t.book.On(side) && e.key.client == me
      ensures AskedOrder(me, cfg, ticker, actions, e)
    {
      AskedLater(me, cfg, ticker, actions, e);
    }
  }

  /**
   * In every session each of the client's new orders under way, and each of its orders in the book, is one that a move
   * asked for, with that side, price and, while under way, quantity, and that passed the check when it was sent.
   */
  lemma {:induction false} OrdersWereAsked(me: nat, cfg: RiskCfg, ticker: nat, actions: seq<Action>)
    requires Runs(me, cfg, ticker, actions)
    ensures var s := Reached(me, cfg, ticker, actions);
            RequestsAsked(me, cfg, ticker, actions, s.requests) && OrdersAsked(me, cfg, ticker, actions, s.book)
  {
    if actions != [] {
      OrdersWereAsked(me, cfg, ticker, actions[..|actions| - 1]);
      hide Reached, RequestsAsked, OrdersAsked;
      ActAsks(me, cfg, ticker, actions);
      ActKeepsAsked(me, cfg, ticker, actions);
    }
  }

  lemma {:induction false} AskedAtPrice(me: nat, cfg: RiskCfg, ticker: nat, actions: seq<Action>, r: Request)
    requires Runs(me, cfg, ticker, actions) && Asked(me, cfg, ticker, actions, r)
    ensures r.New? && r.price != PRICE_INVALID
  {
    var init := actions[..|actions| - 1];
    hide CheckPreTradeRisk;
    if Asked(me, cfg, ticker, init, r) {
      AskedAtPrice(me, cfg, ticker, init, r);
    }
  }

  /** An invalid price means no order: in every session none is under way or in the book at it. */
  lemma NoOrderWithoutPrice(me: nat, cfg: RiskCfg, ticker: nat, actions: seq<Action>)
    requires Runs(me, cfg, ticker, actions)
    ensures var s := Reached(me, cfg, ticker, actions);
            && (forall r :: r in s.requests && r.New? ==> r.price != PRICE_INVALID)
            && (forall side, e :: side != NoSide && e in s.book.On(side) && e.key.client == me ==>
                  e.order.price != PRICE_INVALID)
  {
    OrdersWereAsked(me, cfg, ticker, actions);
    var s := Reached(me, cfg, ticker, actions);
    hide Reached, Runs, Asked;
    forall r | r in s.requests && r.New?
      ensures r.price != PRICE_INVALID
    {
      AskedAtPrice(me, cfg, ticker, actions, r);
    }
    forall side, e | side != NoSide && e in s.book.On(side) && e.key.client == me
      ensures e.order.price != PRICE_INVALID
    {
      assert AskedOrder(me, cfg, ticker, actions, e);
      var qty: nat :| Asked(me, cfg, ticker, actions, New(e.key, e.order.side, e.order.price, qty));
      AskedAtPrice(me, cfg, ticker, actions, New(e.key, e.order.side, e.order.price, qty));
    }
  }
}
