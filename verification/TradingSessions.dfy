/**
 * One trading client and the exchange, for one ticker: requests on their way, responses on their way back, fills
 * that overtake cancels. The slot of the order manager follows the order it holds, and the position limit holds.
 */
module TradingSessions {
  import opened Types
  import opened PriceTime
  import opened Matching
  import opened BookRuns
  import opened Lifecycles
  import opened OrderManagers

  /** The client's slots, next order id and position; requests under way; the exchange's book; responses under way. */
  datatype Session = Session(desk: Desk, nextOrderId: nat, position: int, requests: seq<Request>, book: Book,
      responses: seq<Response>)

  datatype Action =
    | MoveOrder(side: Side, price: int, qty: nat, totalPnl: real)
    | OtherTickers(ids: nat)
    | Arrive(i: nat)
    | Stranger(request: Request)
    | Deliver

  /** The responses the exchange sends to one client. */
  function Mine(me: nat, log: seq<Response>): seq<Response> {
    if log == [] then [] else (if log[0].key.client == me then [log[0]] else []) + Mine(me, log[1..])
  }

  ghost predicate Enabled(me: nat, s: Session, a: Action) {
    match a
    case MoveOrder(side, _, qty, _) => side != NoSide && qty > 0
    case OtherTickers(_) => true
    case Arrive(i) => i < |s.requests|
    case Stranger(r) => r.key.client != me && Admissible(s.book, r)
    case Deliver => s.responses != []
  }

  /** The position keeper sees a fill before the order manager does. */
  function Positioned(position: int, r: Response): int {
    if r.kind == FILLED then position + Signed(r.side, r.execQty) else position
  }

  function Processed(me: nat, s: Session, r: Request, requests: seq<Request>): Session {
    var p := Process(s.book, r);
    s.(requests := requests, book := p.book, responses := s.responses + Mine(me, p.responses))
  }

  function DropAt<T>(s: seq<T>, i: nat): seq<T>
    requires i < |s|
  {
    s[..i] + s[i + 1..]
  }

  function Moves(me: nat, cfg: RiskCfg, s: Session, side: Side, price: int, qty: nat, totalPnl: real): Session {
    var risk := CheckPreTradeRisk(s.position, totalPnl, cfg, side, qty);
    var m := Move(s.desk.On(side), s.nextOrderId, me, side, price, qty, risk);
    s.(desk := s.desk.With(side, m.order), nextOrderId := m.nextOrderId, requests := s.requests + m.sent)
  }

  ghost function Act(me: nat, cfg: RiskCfg, s: Session, a: Action): Session
    requires Enabled(me, s, a)
  {
    match a
    case MoveOrder(side, price, qty, totalPnl) =>
      Moves(me, cfg, s, side, price, qty, totalPnl)
    case OtherTickers(ids) => s.(nextOrderId := s.nextOrderId + ids)
    case Arrive(i) => Processed(me, s, s.requests[i], DropAt(s.requests, i))
    case Stranger(r) => Processed(me, s, r, s.requests)
    case Deliver =>
      var r := s.responses[0];
      s.(position := Positioned(s.position, r), desk := Noticed(s.desk, r), responses := s.responses[1..])
  }

  // ----- the invariant

  ghost predicate Used(o: OMOrder) {
    o.state != UNSET
  }

  function KeyOf(me: nat, o: OMOrder): ClientKey {
    ClientKey(me, o.id)
  }

  /** The stage the client believes the order of a slot to be in. */
  function LifeOf(o: OMOrder): Life {
    match o.state
    case PENDING_NEW => Pending(o.qty)
    case LIVE => Open(o.qty)
    case PENDING_CANCEL => Open(o.qty)
    case _ => Closed
  }

  /** The quantity with which an order is on its way to the exchange; 0 when it is not. */
  function InFlight(rs: seq<Request>, key: ClientKey): nat {
    if rs == [] then 0 else (if rs[0].New? && rs[0].key == key then rs[0].qty else 0) + InFlight(rs[1..], key)
  }

  /** The stage an order is in at the exchange. */
  function AtExchange(s: Session, key: ClientKey): Life {
    if InFlight(s.requests, key) > 0 then Pending(InFlight(s.requests, key)) else Stage(RestingQty(s.book, key))
  }

  ghost predicate InSlot(me: nat, d: Desk, side: Side, key: ClientKey) {
    side != NoSide && Used(d.On(side)) && key == KeyOf(me, d.On(side))
  }

  /** What the client believes, brought up to date by the responses under way, is what the exchange has. */
  ghost predicate SlotOk(me: nat, s: Session, side: Side) {
    var o := s.desk.On(side);
    Used(o) ==>
      && o.id < s.nextOrderId
      && After(LifeOf(o), s.responses, KeyOf(me, o)) == AtExchange(s, KeyOf(me, o))
      && (InFlight(s.requests, KeyOf(me, o)) > 0 ==> RestingQty(s.book, KeyOf(me, o)) == 0)
  }

  ghost predicate RequestOk(me: nat, s: Session, r: Request) {
    r.key.client == me && r.key.orderId < s.nextOrderId && (r.New? ==> r.qty > 0 && InSlot(me, s.desk, r.side, r.key))
  }

  ghost predicate SentOnce(rs: seq<Request>) {
    forall i, j :: 0 <= i < j < |rs| && rs[i].New? && rs[j].New? ==> rs[i].key != rs[j].key
  }

  /** A response other than a rejection is about the order that is in the slot of its side. */
  ghost predicate ResponseOk(me: nat, d: Desk, r: Response) {
    r.key.client == me && (r.kind != CANCEL_REJECTED ==> InSlot(me, d, r.side, r.key))
  }

  /** All orders of the client that rest are in its slots. */
  ghost predicate BookOk(me: nat, d: Desk, b: Book) {
    forall side, key: ClientKey {:trigger HasKey(b.On(side), key)} ::
      side != NoSide && key.client == me && HasKey(b.On(side), key) ==> InSlot(me, d, side, key)
  }

  function Outstanding(l: Life): nat {
    match l
    case Pending(q) => q
    case Open(q) => q
    case _ => 0
  }

  /** Even if everything outstanding on one side is filled, the position stays within the limit. */
  ghost predicate Limited(cfg: RiskCfg, d: Desk, position: int) {
    && position + Outstanding(LifeOf(d.buy)) <= cfg.maxPosition
    && -position + Outstanding(LifeOf(d.sell)) <= cfg.maxPosition
  }

  ghost predicate Sound(me: nat, s: Session) {
    && Good(s.book)
    && (Used(s.desk.buy) && Used(s.desk.sell) ==> s.desk.buy.id != s.desk.sell.id)
    && SlotOk(me, s, Buy) && SlotOk(me, s, Sell)
    && (forall i {:trigger RequestOk(me, s, s.requests[i])} :: 0 <= i < |s.requests| ==>
      RequestOk(me, s, s.requests[i]))
    && SentOnce(s.requests)
    && (forall i {:trigger ResponseOk(me, s.desk, s.responses[i])} :: 0 <= i < |s.responses| ==>
      ResponseOk(me, s.desk, s.responses[i]))
    && BookOk(me, s.desk, s.book)
  }

  // ----- logs

  lemma {:induction false} BrokenStays(log: seq<Response>, key: ClientKey)
    ensures After(Broken, log, key) == Broken
    decreases |log|
  {
    if log != [] {
      BrokenStays(log[1..], key);
    }
  }

  /** Nothing but rejected cancels is under way for an order that is done. */
  lemma {:induction false} DoneIsSilent(log: seq<Response>, key: ClientKey, i: nat)
    requires After(Closed, log, key) != Broken && i < |log| && log[i].key == key
    ensures log[i].kind == CANCEL_REJECTED && After(Closed, log, key) == Closed
    decreases |log|
  {
    if log[0].key == key && log[0].kind != CANCEL_REJECTED {
      BrokenStays(log[1..], key);
    } else if i > 0 {
      DoneIsSilent(log[1..], key, i - 1);
    } else {
      StaysClosed(log[1..], key);
    }
  }

  lemma {:induction false} StaysClosed(log: seq<Response>, key: ClientKey)
    requires After(Closed, log, key) != Broken
    ensures After(Closed, log, key) == Closed
    decreases |log|
  {
    if log != [] {
      if log[0].key == key && log[0].kind != CANCEL_REJECTED {
        BrokenStays(log[1..], key);
      }
      StaysClosed(log[1..], key);
    }
  }

  lemma {:induction false} MineIsEnough(me: nat, l: Life, log: seq<Response>, key: ClientKey)
    requires key.client == me
    ensures After(l, Mine(me, log), key) == After(l, log, key)
    decreases |log|
  {
    if log != [] {
      var head := if log[0].key.client == me then [log[0]] else [];
      AfterConcat(l, head, Mine(me, log[1..]), key);
      MineIsEnough(me, if log[0].key == key then Next(l, log[0]) else l, log[1..], key);
      assert log[0].key.client == me ==> [log[0]][1..] == [];
    }
  }

  lemma {:induction false} MineMembers(me: nat, log: seq<Response>)
    ensures forall r :: r in Mine(me, log) ==> r in log && r.key.client == me
  {
    if log != [] {
      MineMembers(me, log[1..]);
    }
  }

  /** An order unheard of stays so when nothing in the log is about it. */
  lemma {:induction false} NothingAbout(l: Life, log: seq<Response>, key: ClientKey)
    requires forall i :: 0 <= i < |log| && log[i].key == key ==> log[i].kind == CANCEL_REJECTED
    ensures After(l, log, key) == l
    decreases |log|
  {
    if log != [] {
      NothingAbout(l, log[1..], key);
    }
  }

  // ----- requests under way

  lemma {:induction false} InFlightConcat(a: seq<Request>, b: seq<Request>, key: ClientKey)
    ensures InFlight(a + b, key) == InFlight(a, key) + InFlight(b, key)
    decreases |a|
  {
    if a == [] {
      assert a + b == b;
    } else {
      assert (a + b)[1..] == a[1..] + b;
      InFlightConcat(a[1..], b, key);
    }
  }

  lemma {:induction false} NotInFlight(rs: seq<Request>, key: ClientKey)
    requires forall i :: 0 <= i < |rs| && rs[i].New? ==> rs[i].key != key
    ensures InFlight(rs, key) == 0
  {
    if rs != [] {
      NotInFlight(rs[1..], key);
    }
  }

  lemma InFlightDrop(rs: seq<Request>, i: nat, key: ClientKey)
    requires i < |rs|
    ensures InFlight(rs, key) == InFlight(DropAt(rs, i), key)
            + (if rs[i].New? && rs[i].key == key then rs[i].qty else 0)
  {
    assert rs == rs[..i] + ([rs[i]] + rs[i + 1..]);
    InFlightConcat(rs[..i], [rs[i]] + rs[i + 1..], key);
    InFlightConcat([rs[i]], rs[i + 1..], key);
    InFlightConcat(rs[..i], rs[i + 1..], key);
    InFlightOne(rs[i], key);
  }

  lemma InFlightOne(r: Request, key: ClientKey)
    ensures InFlight([r], key) == if r.New? && r.key == key then r.qty else 0
  {
    assert [r][1..] == [];
  }

  /** An order is on its way at most once. */
  lemma InFlightOnce(rs: seq<Request>, i: nat)
    requires SentOnce(rs) && i < |rs| && rs[i].New?
    ensures InFlight(rs, rs[i].key) == rs[i].qty && InFlight(DropAt(rs, i), rs[i].key) == 0
  {
    InFlightDrop(rs, i, rs[i].key);
    var t := DropAt(rs, i);
    forall j | 0 <= j < |t| && t[j].New?
      ensures t[j].key != rs[i].key
    {
      assert t[j] == rs[if j < i then j else j + 1];
    }
    NotInFlight(t, rs[i].key);
  }

  // ----- what the exchange sends and keeps

  /** A response that is not a rejection names the taker or a resting order, with its side. */
  ghost predicate About(b: Book, r: Request, x: Response) {
    x.kind != CANCEL_REJECTED ==>
      x.side != NoSide && (HasKey(b.On(x.side), x.key) || (r.New? && x.key == r.key && x.side == r.side))
  }

  ghost predicate Filled(t: Taker, s: seq<Resting>, x: Response) {
    (x.key == t.key && x.side == t.side) || (x.side == Opposite(t.side) && HasKey(s, x.key))
  }

  lemma {:induction false} FillsAre(t: Taker, s: seq<Resting>, qty: nat)
    requires Wf(Opposite(t.side), s)
    ensures forall x :: x in MatchAll(t, s, qty).responses ==> Filled(t, s, x)
    decreases qty, |s|
  {
    if qty != 0 && s != [] && Crosses(t.side, t.price, s[0].order.price) {
      var fill := Min(qty, s[0].order.qty);
      var rest := if fill == s[0].order.qty then s[1..] else [Reduced(s[0], fill)] + s[1..];
      if fill == s[0].order.qty {
        SuffixWf(Opposite(t.side), s, 1);
      } else {
        ReducedWf(Opposite(t.side), s, 0, fill);
      }
      FillsAre(t, rest, qty - fill);
      forall x | x in MatchAll(t, s, qty).responses
        ensures Filled(t, s, x)
      {
        if x in FillResponses(t, s[0], qty) {
          assert HasKey(s, s[0].key);
        } else {
          assert Filled(t, rest, x);
          TailKeys(s, rest, fill, x.key);
        }
      }
    }
  }

  lemma TailKeys(s: seq<Resting>, rest: seq<Resting>, fill: nat, key: ClientKey)
    requires s != [] && fill <= s[0].order.qty
    requires rest == if fill == s[0].order.qty then s[1..] else [Reduced(s[0], fill)] + s[1..]
    ensures HasKey(rest, key) ==> HasKey(s, key)
  {
    forall i | 0 <= i < |rest| && rest[i].key == key
      ensures HasKey(s, key)
    {
      assert s[if fill == s[0].order.qty then i + 1 else i].key == key;
    }
  }

  lemma SentIsAbout(b: Book, r: Request)
    requires Good(b) && Admissible(b, r)
    ensures forall x :: x in Process(b, r).responses ==> About(b, r, x)
  {
    match r
    case New(key, side, price, qty) =>
      var t, opp := TakerOf(b, key, side, price), b.On(Opposite(side));
      FillsAre(t, opp, qty);
      forall x | x in Process(b, r).responses
        ensures About(b, r, x)
      {
        assert x in MatchAll(t, opp, qty).responses ==> Filled(t, opp, x);
      }
    case CancelOrder(key) =>
  }

  /** A request adds no order to the book but its own. */
  lemma KeysAfter(b: Book, r: Request, side: Side, key: ClientKey)
    requires Good(b) && Admissible(b, r) && side != NoSide
    requires HasKey(Process(b, r).book.On(side), key)
    ensures HasKey(b.On(side), key) || (r.New? && key == r.key && side == r.side)
  {
    match r
    case New(taker, d, price, qty) =>
      var m := MatchAll(TakerOf(b, taker, d, price), b.On(Opposite(d)), qty);
      MatchKeepsSide(TakerOf(b, taker, d, price), b.On(Opposite(d)), qty);
      if side == Opposite(d) {
        if !HasKey(b.On(side), key) {
          RemnantKeys(b.On(side), m.opposite, key);
        }
      } else if m.leaves > 0 {
        var e := Remainder(b, taker, d, price, m.leaves);
        InsertMembers(b.On(d), e);
      }
    case CancelOrder(gone) =>
      var i :| 0 <= i < |Process(b, r).book.On(side)| && Process(b, r).book.On(side)[i].key == key;
      WithoutMembers(b.On(side), gone, Process(b, r).book.On(side)[i]);
  }

  // ----- the exchange processes a request

  /** How a request changes what is on its way for one order. */
  ghost predicate Removes(before: seq<Request>, r: Request, after: seq<Request>, key: ClientKey) {
    if r.New? && r.key == key then InFlight(before, key) == r.qty && InFlight(after, key) == 0
    else InFlight(after, key) == InFlight(before, key)
  }

  lemma SlotAfterRequest(me: nat, s: Session, r: Request, requests: seq<Request>, side: Side)
    requires Good(s.book) && Admissible(s.book, r) && SlotOk(me, s, side)
    requires Used(s.desk.On(side)) ==> Removes(s.requests, r, requests, KeyOf(me, s.desk.On(side)))
    ensures SlotOk(me, Processed(me, s, r, requests), side)
  {
    var o := s.desk.On(side);
    if Used(o) {
      var key, l := KeyOf(me, o), AtExchange(s, KeyOf(me, o));
      var p := Process(s.book, r);
      AfterConcat(LifeOf(o), s.responses, Mine(me, p.responses), key);
      MineIsEnough(me, l, p.responses, key);
      PositiveNew(s.book, r);
      hide Good, Admissible, Process, RestingQty;
      StepLife(s.book, r, key, l);
      if !l.Pending? {
        NeverPendingAgain(l, p.responses, key);
      }
    }
  }

  lemma PositiveNew(b: Book, r: Request)
    requires Admissible(b, r)
    ensures r.New? ==> r.qty > 0
  {
  }

  /** Responses sent on a request keep to the slots when the request does. */
  lemma ResponsesAfterRequest(me: nat, d: Desk, b: Book, r: Request)
    requires Good(b) && Admissible(b, r) && BookOk(me, d, b)
    requires r.New? && r.key.client == me ==> InSlot(me, d, r.side, r.key)
    ensures forall x :: x in Mine(me, Process(b, r).responses) ==> ResponseOk(me, d, x)
  {
    SentIsAbout(b, r);
    MineMembers(me, Process(b, r).responses);
    hide Good, Admissible, Process;
    forall x | x in Mine(me, Process(b, r).responses)
      ensures ResponseOk(me, d, x)
    {
      assert About(b, r, x);
    }
  }

  lemma BookAfterRequest(me: nat, d: Desk, b: Book, r: Request)
    requires Good(b) && Admissible(b, r) && BookOk(me, d, b)
    requires r.New? && r.key.client == me ==> InSlot(me, d, r.side, r.key)
    ensures BookOk(me, d, Process(b, r).book)
  {
    hide Good, Admissible, Process;
    forall side, key: ClientKey | side != NoSide && key.client == me && HasKey(Process(b, r).book.On(side), key)
      ensures InSlot(me, d, side, key)
    {
      KeysAfter(b, r, side, key);
    }
  }

  /** Requests and slots fit together after some requests have left. */
  ghost predicate Subset(me: nat, s: Session, requests: seq<Request>) {
    SentOnce(requests) && forall i :: 0 <= i < |requests| ==> requests[i] in s.requests
  }

  lemma RequestKeepsSound(me: nat, s: Session, r: Request, requests: seq<Request>)
    requires Sound(me, s) && Admissible(s.book, r) && Subset(me, s, requests)
    requires r.New? && r.key.client == me ==> InSlot(me, s.desk, r.side, r.key)
    requires forall key: ClientKey {:trigger Removes(s.requests, r, requests, key)} :: key.client == me ==>
             Removes(s.requests, r, requests, key)
    ensures Sound(me, Processed(me, s, r, requests))
  {
    var t := Processed(me, s, r, requests);
    assert forall o: OMOrder :: KeyOf(me, o).client == me;
    SlotAfterRequest(me, s, r, requests, Buy);
    SlotAfterRequest(me, s, r, requests, Sell);
    ResponsesAfterRequest(me, s.desk, s.book, r);
    BookAfterRequest(me, s.desk, s.book, r);
    ProcessKeepsGood(s.book, r);
    RequestsKept(me, s, t);
    ResponsesKept(me, s.desk, s.responses, Mine(me, Process(s.book, r).responses));
    hide Good, Admissible, Process, SlotOk, BookOk, Limited, RequestOk, ResponseOk;
  }

  lemma RequestsKept(me: nat, s: Session, t: Session)
    requires forall i {:trigger RequestOk(me, s, s.requests[i])} :: 0 <= i < |s.requests| ==>
             RequestOk(me, s, s.requests[i])
    requires Subset(me, s, t.requests) && t.desk == s.desk && t.nextOrderId == s.nextOrderId
    ensures forall i {:trigger RequestOk(me, t, t.requests[i])} :: 0 <= i < |t.requests| ==>
            RequestOk(me, t, t.requests[i])
  {
    forall i | 0 <= i < |t.requests|
      ensures RequestOk(me, t, t.requests[i])
    {
      var j :| 0 <= j < |s.requests| && s.requests[j] == t.requests[i];
      assert RequestOk(me, s, s.requests[j]);
    }
  }

  lemma ResponsesKept(me: nat, d: Desk, a: seq<Response>, b: seq<Response>)
    requires forall i {:trigger ResponseOk(me, d, a[i])} :: 0 <= i < |a| ==> ResponseOk(me, d, a[i])
    requires forall x :: x in b ==> ResponseOk(me, d, x)
    ensures forall i {:trigger ResponseOk(me, d, (a + b)[i])} :: 0 <= i < |a + b| ==> ResponseOk(me, d, (a + b)[i])
  {
    forall i | 0 <= i < |a + b|
      ensures ResponseOk(me, d, (a + b)[i])
    {
      assert i < |a| ==> ResponseOk(me, d, a[i]);
      assert i >= |a| ==> (a + b)[i] in b;
    }
  }

  lemma StrangerKeepsSound(me: nat, cfg: RiskCfg, s: Session, r: Request)
    requires Sound(me, s) && Enabled(me, s, Stranger(r))
    ensures Sound(me, Act(me, cfg, s, Stranger(r)))
  {
    forall key: ClientKey | key.client == me
      ensures Removes(s.requests, r, s.requests, key)
    {
    }
    RequestKeepsSound(me, s, r, s.requests);
  }

  lemma ArriveKeepsSound(me: nat, cfg: RiskCfg, s: Session, i: nat)
    requires Sound(me, s) && i < |s.requests|
    ensures Admissible(s.book, s.requests[i])
    ensures Sound(me, Act(me, cfg, s, Arrive(i)))
  {
    var r, rest := s.requests[i], DropAt(s.requests, i);
    assert RequestOk(me, s, s.requests[i]);
    ArrivesAdmissible(me, s, i);
    forall key: ClientKey | key.client == me
      ensures Removes(s.requests, r, rest, key)
    {
      InFlightDrop(s.requests, i, key);
      if r.New? {
        InFlightOnce(s.requests, i);
      }
    }
    DropSubset(me, s, i);
    hide Sound, Admissible, InSlot, Removes;
    RequestKeepsSound(me, s, r, rest);
  }

  lemma DropSubset(me: nat, s: Session, i: nat)
    requires SentOnce(s.requests) && i < |s.requests|
    ensures Subset(me, s, DropAt(s.requests, i))
  {
    var t := DropAt(s.requests, i);
    assert forall j :: 0 <= j < |t| ==> t[j] == s.requests[if j < i then j else j + 1];
  }

  /** A new order on its way is not in the book yet, whatever else has happened. */
  lemma ArrivesAdmissible(me: nat, s: Session, i: nat)
    requires Sound(me, s) && i < |s.requests|
    ensures Admissible(s.book, s.requests[i])
  {
    var r := s.requests[i];
    assert RequestOk(me, s, r);
    if r.New? {
      InFlightOnce(s.requests, i);
      LiveIffResting(s.book, r.key);
      assert SlotOk(me, s, r.side);
    }
  }

  // ----- the client hears a response

  /** A slot that follows the order it holds takes the next response as the life of the order does. */
  lemma UpdateFollows(o: OMOrder, r: Response)
    requires Next(LifeOf(o), r) != Broken
    ensures LifeOf(Updated(o, r)) == Next(LifeOf(o), r) && Updated(o, r).id == o.id
    ensures Used(Updated(o, r)) <==> Used(o)
    ensures r.kind != CANCEL_REJECTED && o.state == PENDING_NEW ==> r.kind == ACCEPTED
  {
  }

  lemma SlotAfterResponse(me: nat, s: Session, side: Side)
    requires SlotOk(me, s, side) && s.responses != [] && side != NoSide
    requires ResponseOk(me, s.desk, s.responses[0])
    requires Used(s.desk.buy) && Used(s.desk.sell) ==> s.desk.buy.id != s.desk.sell.id
    ensures var t := s.(desk := Noticed(s.desk, s.responses[0]), responses := s.responses[1..]);
            && (Used(t.desk.On(side)) <==> Used(s.desk.On(side))) && t.desk.On(side).id == s.desk.On(side).id
            && forall position :: SlotOk(me, t.(position := position), side)
    ensures var o, r := s.desk.On(side), s.responses[0];
            r.side == side && r.kind != CANCEL_REJECTED ==>
              LifeOf(Updated(o, r)) == Next(LifeOf(o), r) != Broken
  {
    var o, r := s.desk.On(side), s.responses[0];
    var key := KeyOf(me, o);
    if Used(o) && r.key == key {
      BrokenStays(s.responses[1..], key);
    }
    if r.side == side {
      UpdateFollows(o, r);
    }
    hide Updated;
  }

  /** The same orders in the same slots. */
  ghost predicate SameSlots(d: Desk, e: Desk) {
    forall side :: (Used(d.On(side)) <==> Used(e.On(side))) && d.On(side).id == e.On(side).id
  }

  /** Requests, responses and resting orders stay in their slots as long as the slots keep their orders. */
  lemma StillInSlots(me: nat, s: Session, t: Session, from: nat)
    requires SameSlots(s.desk, t.desk) && t.requests == s.requests && t.book == s.book && t.nextOrderId >= s.nextOrderId
    requires from <= |s.responses| && t.responses == s.responses[from..]
    requires forall i {:trigger RequestOk(me, s, s.requests[i])} :: 0 <= i < |s.requests| ==>
             RequestOk(me, s, s.requests[i])
    requires forall i {:trigger ResponseOk(me, s.desk, s.responses[i])} :: 0 <= i < |s.responses| ==>
             ResponseOk(me, s.desk, s.responses[i])
    requires BookOk(me, s.desk, s.book)
    ensures forall i {:trigger RequestOk(me, t, t.requests[i])} :: 0 <= i < |t.requests| ==>
            RequestOk(me, t, t.requests[i])
    ensures forall i {:trigger ResponseOk(me, t.desk, t.responses[i])} :: 0 <= i < |t.responses| ==>
            ResponseOk(me, t.desk, t.responses[i])
    ensures BookOk(me, t.desk, t.book)
  {
    forall i | 0 <= i < |t.requests|
      ensures RequestOk(me, t, t.requests[i])
    {
      assert RequestOk(me, s, s.requests[i]);
    }
    forall i | 0 <= i < |t.responses|
      ensures ResponseOk(me, t.desk, t.responses[i])
    {
      assert ResponseOk(me, s.desk, s.responses[from + i]);
    }
  }

  lemma DeliverKeepsSound(me: nat, cfg: RiskCfg, s: Session)
    requires Sound(me, s) && s.responses != []
    ensures Sound(me, Act(me, cfg, s, Deliver))
  {
    var t := Act(me, cfg, s, Deliver);
    var r := s.responses[0];
    assert ResponseOk(me, s.desk, s.responses[0]);
    SlotAfterResponse(me, s, Buy);
    SlotAfterResponse(me, s, Sell);
    hide Good, SlotOk, BookOk, RequestOk, Next, Updated, After;
    var u := s.(desk := Noticed(s.desk, r), responses := s.responses[1..]);
    assert t == u.(position := t.position);
    StillInSlots(me, s, t, 1);
  }

  // ----- the strategy moves an order

  lemma CancelKeepsSlots(me: nat, s: Session, t: Session, side: Side)
    requires SlotOk(me, s, side) && side != NoSide
    requires LifeOf(t.desk.On(side)) == LifeOf(s.desk.On(side)) && t.desk.On(side).id == s.desk.On(side).id
    requires Used(t.desk.On(side)) <==> Used(s.desk.On(side))
    requires t.responses == s.responses && t.book == s.book && t.nextOrderId >= s.nextOrderId
    requires t.requests == s.requests || exists r: Request :: r.CancelOrder? && t.requests == s.requests + [r]
    ensures SlotOk(me, t, side)
  {
    var key := KeyOf(me, s.desk.On(side));
    if t.requests != s.requests {
      var r: Request :| r.CancelOrder? && t.requests == s.requests + [r];
      InFlightConcat(s.requests, [r], key);
      InFlightOne(r, key);
    }
  }

  /** An idle slot has nothing on its way in either direction and nothing in the book. */
  ghost predicate Idle(me: nat, s: Session, side: Side) {
    && (forall i :: 0 <= i < |s.requests| && s.requests[i].New? ==> s.requests[i].side != side)
    && (forall i :: 0 <= i < |s.responses| && s.responses[i].kind != CANCEL_REJECTED ==> s.responses[i].side != side)
    && (forall key: ClientKey :: key.client == me ==> !HasKey(s.book.On(side), key))
  }

  lemma IdleSlot(me: nat, s: Session, side: Side)
    requires Sound(me, s) && side != NoSide && LifeOf(s.desk.On(side)) == Closed
    ensures Idle(me, s, side)
  {
    var o := s.desk.On(side);
    assert SlotOk(me, s, side);
    forall i | 0 <= i < |s.responses| && s.responses[i].kind != CANCEL_REJECTED
      ensures s.responses[i].side != side
    {
      assert ResponseOk(me, s.desk, s.responses[i]);
      if s.responses[i].side == side {
        DoneIsSilent(s.responses, KeyOf(me, o), i);
      }
    }
    if Used(o) {
      StaysClosed(s.responses, KeyOf(me, o));
    }
    forall i | 0 <= i < |s.requests| && s.requests[i].New?
      ensures s.requests[i].side != side
    {
      assert RequestOk(me, s, s.requests[i]);
      if s.requests[i].side == side {
        InFlightOnce(s.requests, i);
      }
    }
    forall key: ClientKey | key.client == me
      ensures !HasKey(s.book.On(side), key)
    {
      LiveIffResting(s.book, key);
      assert HasKey(s.book.On(side), key) ==> InSlot(me, s.desk, side, key);
    }
  }

  /** The session after a new order was sent from a slot. */
  function Sent(me: nat, s: Session, side: Side, price: int, qty: nat): Session {
    var m := NewOrder(s.nextOrderId, me, side, price, qty);
    s.(desk := s.desk.With(side, m.order), nextOrderId := m.nextOrderId, requests := s.requests + m.sent)
  }

  /** Nobody has heard of the next order id yet. */
  lemma NextIdIsFresh(me: nat, s: Session)
    requires Sound(me, s)
    ensures var key := ClientKey(me, s.nextOrderId);
            && InFlight(s.requests, key) == 0 && RestingQty(s.book, key) == 0
            && (forall i :: 0 <= i < |s.responses| && s.responses[i].key == key ==>
                  s.responses[i].kind == CANCEL_REJECTED)
            && (forall i :: 0 <= i < |s.requests| ==> s.requests[i].key != key)
  {
    var key := ClientKey(me, s.nextOrderId);
    forall i | 0 <= i < |s.requests|
      ensures s.requests[i].key != key
    {
      assert RequestOk(me, s, s.requests[i]);
    }
    NotInFlight(s.requests, key);
    LiveIffResting(s.book, key);
    assert SlotOk(me, s, Buy) && SlotOk(me, s, Sell);
    assert HasKey(s.book.On(Buy), key) ==> InSlot(me, s.desk, Buy, key);
    assert HasKey(s.book.On(Sell), key) ==> InSlot(me, s.desk, Sell, key);
    forall i | 0 <= i < |s.responses| && s.responses[i].key == key
      ensures s.responses[i].kind == CANCEL_REJECTED
    {
      assert ResponseOk(me, s.desk, s.responses[i]);
    }
  }

  lemma NewSlotOk(me: nat, s: Session, side: Side, price: int, qty: nat)
    requires Sound(me, s) && side != NoSide && qty > 0
    ensures var t := Sent(me, s, side, price, qty);
            && SlotOk(me, t, side) && SlotOk(me, t, Opposite(side))
            && (Used(t.desk.buy) && Used(t.desk.sell) ==> t.desk.buy.id != t.desk.sell.id)
  {
    var t := Sent(me, s, side, price, qty);
    NextIdIsFresh(me, s);
    var key, r := ClientKey(me, s.nextOrderId), New(ClientKey(me, s.nextOrderId), side, price, qty);
    NothingAbout(Pending(qty), s.responses, key);
    InFlightConcat(s.requests, [r], key);
    InFlightOne(r, key);
    var other := KeyOf(me, s.desk.On(Opposite(side)));
    assert SlotOk(me, s, Opposite(side));
    InFlightConcat(s.requests, [r], other);
    InFlightOne(r, other);
  }

  lemma NewElsewhereOk(me: nat, s: Session, side: Side, price: int, qty: nat)
    requires Sound(me, s) && side != NoSide && qty > 0 && Idle(me, s, side)
    ensures var t := Sent(me, s, side, price, qty);
            && (forall i {:trigger RequestOk(me, t, t.requests[i])} :: 0 <= i < |t.requests| ==>
              RequestOk(me, t, t.requests[i]))
            && SentOnce(t.requests)
            && (forall i {:trigger ResponseOk(me, t.desk, t.responses[i])} :: 0 <= i < |t.responses| ==>
              ResponseOk(me, t.desk, t.responses[i]))
            && BookOk(me, t.desk, t.book)
  {
    var t := Sent(me, s, side, price, qty);
    NextIdIsFresh(me, s);
    forall i | 0 <= i < |t.requests|
      ensures RequestOk(me, t, t.requests[i])
    {
      assert i < |s.requests| ==> RequestOk(me, s, s.requests[i]);
    }
    forall i | 0 <= i < |t.responses|
      ensures ResponseOk(me, t.desk, t.responses[i])
    {
      assert ResponseOk(me, s.desk, s.responses[i]);
    }
    forall d, key: ClientKey | d != NoSide && key.client == me && HasKey(t.book.On(d), key)
      ensures InSlot(me, t.desk, d, key)
    {
      assert InSlot(me, s.desk, d, key);
    }
  }

  lemma NewKeepsSound(me: nat, s: Session, side: Side, price: int, qty: nat)
    requires Sound(me, s) && side != NoSide && qty > 0 && LifeOf(s.desk.On(side)) == Closed
    ensures Sound(me, Sent(me, s, side, price, qty))
  {
    IdleSlot(me, s, side);
    NewSlotOk(me, s, side, price, qty);
    NewElsewhereOk(me, s, side, price, qty);
    hide SlotOk, BookOk, RequestOk, ResponseOk, SentOnce, Good, Idle;
    var t := Sent(me, s, side, price, qty);
    assert SlotOk(me, t, Buy) && SlotOk(me, t, Sell);
  }

  lemma CancelKeepsSound(me: nat, s: Session, side: Side)
    requires Sound(me, s) && side != NoSide && s.desk.On(side).state == LIVE
    ensures var o := s.desk.On(side);
            Sound(me, s.(desk := s.desk.With(side, o.(state := PENDING_CANCEL)),
                requests := s.requests + [CancelOrder(KeyOf(me, o))]))
  {
    var o := s.desk.On(side);
    var r := CancelOrder(KeyOf(me, o));
    var u := s.(desk := s.desk.With(side, o.(state := PENDING_CANCEL)));
    var t := u.(requests := s.requests + [r]);
    assert SlotOk(me, s, side);
    assert s.responses[0..] == s.responses;
    StillInSlots(me, s, u, 0);
    forall d | d != NoSide
      ensures SlotOk(me, t, d)
    {
      assert SlotOk(me, s, d);
      CancelKeepsSlots(me, s, t, d);
    }
    forall i | 0 <= i < |t.requests|
      ensures RequestOk(me, t, t.requests[i])
    {
      assert i < |s.requests| ==> RequestOk(me, u, u.requests[i]);
    }
    hide SlotOk, BookOk, RequestOk, ResponseOk, Good;
  }

  lemma MoveKeepsSound(me: nat, cfg: RiskCfg, s: Session, side: Side, price: int, qty: nat, totalPnl: real)
    requires Sound(me, s) && side != NoSide && qty > 0
    ensures Sound(me, Act(me, cfg, s, MoveOrder(side, price, qty, totalPnl)))
  {
    var o := s.desk.On(side);
    var risk := CheckPreTradeRisk(s.position, totalPnl, cfg, side, qty);
    if o.state == LIVE && o.price != price {
      CancelKeepsSound(me, s, side);
    } else if (o.state == UNSET || o.state == DEAD) && price != PRICE_INVALID && risk == ALLOWED {
      NewKeepsSound(me, s, side, price, qty);
    } else {
      assert s.desk.With(side, o) == s.desk;
      assert s.requests + [] == s.requests;
      assert Act(me, cfg, s, MoveOrder(side, price, qty, totalPnl)) == s;
    }
  }

  lemma OtherTickersKeepSound(me: nat, s: Session, ids: nat)
    requires Sound(me, s)
    ensures Sound(me, s.(nextOrderId := s.nextOrderId + ids))
  {
    var t := s.(nextOrderId := s.nextOrderId + ids);
    assert s.responses[0..] == s.responses;
    StillInSlots(me, s, t, 0);
    CancelKeepsSlots(me, s, t, Buy);
    CancelKeepsSlots(me, s, t, Sell);
    hide SlotOk, BookOk, RequestOk, ResponseOk, Good, Limited;
  }

  /** Whatever happens next, and whatever the risk limits are, the slots keep following their orders. */
  lemma ActKeepsSound(me: nat, cfg: RiskCfg, s: Session, a: Action)
    requires Sound(me, s) && Enabled(me, s, a)
    ensures Sound(me, Act(me, cfg, s, a))
  {
    match a
    case MoveOrder(side, price, qty, totalPnl) => MoveKeepsSound(me, cfg, s, side, price, qty, totalPnl);
    case OtherTickers(ids) => OtherTickersKeepSound(me, s, ids);
    case Arrive(i) => ArriveKeepsSound(me, cfg, s, i);
    case Stranger(r) => StrangerKeepsSound(me, cfg, s, r);
    case Deliver => DeliverKeepsSound(me, cfg, s);
  }

  // ----- whole runs

  function Opening(ticker: nat): Session {
    Session(Desk(Unset, Unset), 1, 0, [], EmptyBook(ticker), [])
  }

  ghost predicate Runs(me: nat, cfg: RiskCfg, ticker: nat, actions: seq<Action>)
    decreases |actions|, 0
  {
    actions == [] || (Runs(me, cfg, ticker, actions[..|actions| - 1])
                      && Enabled(me, Reached(me, cfg, ticker, actions[..|actions| - 1]), actions[|actions| - 1]))
  }

  ghost function Reached(me: nat, cfg: RiskCfg, ticker: nat, actions: seq<Action>): Session
    requires Runs(me, cfg, ticker, actions)
    decreases |actions|, 1
  {
    if actions == [] then Opening(ticker)
    else Act(me, cfg, Reached(me, cfg, ticker, actions[..|actions| - 1]), actions[|actions| - 1])
  }

  lemma {:induction false} EveryRunIsSound(me: nat, cfg: RiskCfg, ticker: nat, actions: seq<Action>)
    requires Runs(me, cfg, ticker, actions)
    ensures Sound(me, Reached(me, cfg, ticker, actions))
  {
    if actions != [] {
      hide Sound, Enabled, Act;
      EveryRunIsSound(me, cfg, ticker, actions[..|actions| - 1]);
      ActKeepsSound(me, cfg, Reached(me, cfg, ticker, actions[..|actions| - 1]), actions[|actions| - 1]);
    }
  }

  /**
   * Although a response is matched to a slot by side only, in every run each ACCEPTED, FILLED or CANCELED under way
   * concerns the order in that slot, and of all the client's orders on a side at most that one rests or is on its way.
   */
  lemma ResponsesMeetTheirOrder(me: nat, cfg: RiskCfg, ticker: nat, actions: seq<Action>)
    requires Runs(me, cfg, ticker, actions)
    ensures var s := Reached(me, cfg, ticker, actions);
            && (forall i :: 0 <= i < |s.responses| && s.responses[i].kind != CANCEL_REJECTED ==>
                  s.responses[i].side != NoSide && s.responses[i].key == KeyOf(me, s.desk.On(s.responses[i].side)))
            && (forall i :: 0 <= i < |s.requests| && s.requests[i].New? ==>
                  s.requests[i].key == KeyOf(me, s.desk.On(s.requests[i].side))
                      && RestingQty(s.book, s.requests[i].key) == 0)
            && SentOnce(s.requests)
            && (forall side, i ::
                  side != NoSide && 0 <= i < |s.book.On(side)| && s.book.On(side)[i].key.client == me ==>
                    s.book.On(side)[i].key == KeyOf(me, s.desk.On(side)))
  {
    EveryRunIsSound(me, cfg, ticker, actions);
    var s := Reached(me, cfg, ticker, actions);
    hide Reached, Runs, Good;
    forall i | 0 <= i < |s.responses| && s.responses[i].kind != CANCEL_REJECTED
      ensures s.responses[i].side != NoSide && s.responses[i].key == KeyOf(me, s.desk.On(s.responses[i].side))
    {
      assert ResponseOk(me, s.desk, s.responses[i]);
    }
    forall i | 0 <= i < |s.requests| && s.requests[i].New?
      ensures s.requests[i].key == KeyOf(me, s.desk.On(s.requests[i].side))
      ensures RestingQty(s.book, s.requests[i].key) == 0
    {
      assert RequestOk(me, s, s.requests[i]);
      InFlightOnce(s.requests, i);
      assert SlotOk(me, s, s.requests[i].side);
    }
    forall side, i | side != NoSide && 0 <= i < |s.book.On(side)| && s.book.On(side)[i].key.client == me
      ensures s.book.On(side)[i].key == KeyOf(me, s.desk.On(side))
    {
      assert HasKey(s.book.On(side), s.book.On(side)[i].key);
    }
  }

  /** The position once all the given responses are delivered. */
  function PositionWith(position: int, log: seq<Response>): int
    decreases |log|
  {
    if log == [] then position else PositionWith(Positioned(position, log[0]), log[1..])
  }

  /** What the exchange could still fill for the client on a side: what rests, or is on its way. */
  function StillOpen(me: nat, s: Session, side: Side): nat {
    if s.desk.On(side).state == UNSET then 0 else Outstanding(AtExchange(s, KeyOf(me, s.desk.On(side))))
  }

  /** What a response adds to the position leaves what is outstanding. */
  lemma StaysLimited(cfg: RiskCfg, d: Desk, position: int, r: Response)
    requires Limited(cfg, d, position)
    requires r.kind != CANCEL_REJECTED ==>
               r.side != NoSide && LifeOf(Updated(d.On(r.side), r)) == Next(LifeOf(d.On(r.side)), r) != Broken
    ensures Limited(cfg, Noticed(d, r), Positioned(position, r))
  {
    SignedIs(r.side, r.execQty);
    hide Signed;
  }

  /** Sending an order that the check allows leaves room for everything outstanding. */
  lemma MoveKeepsLimited(me: nat, cfg: RiskCfg, s: Session, side: Side, price: int, qty: nat, totalPnl: real)
    requires CfgOk(cfg) && Limited(cfg, s.desk, s.position) && side != NoSide
    ensures var t := Moves(me, cfg, s, side, price, qty, totalPnl);
            Limited(cfg, t.desk, t.position)
  {
    RiskIsExact(s.position, totalPnl, cfg, side, qty);
    SignedIs(side, qty);
    hide Signed, CheckPreTradeRisk;
  }

  /** With limits at which the check is right, whatever happens next keeps the position limit. */
  lemma ActKeepsLimited(me: nat, cfg: RiskCfg, s: Session, a: Action)
    requires CfgOk(cfg) && Sound(me, s) && Limited(cfg, s.desk, s.position) && Enabled(me, s, a)
    ensures var t := Act(me, cfg, s, a); Limited(cfg, t.desk, t.position)
  {
    match a
    case MoveOrder(side, price, qty, totalPnl) => MoveKeepsLimited(me, cfg, s, side, price, qty, totalPnl);
    case OtherTickers(ids) =>
    case Arrive(i) =>
    case Stranger(r) =>
    case Deliver => DeliverKeepsLimited(me, cfg, s);
  }

  lemma DeliverKeepsLimited(me: nat, cfg: RiskCfg, s: Session)
    requires Sound(me, s) && Limited(cfg, s.desk, s.position) && s.responses != []
    ensures var t := Act(me, cfg, s, Deliver); Limited(cfg, t.desk, t.position)
  {
    assert ResponseOk(me, s.desk, s.responses[0]);
    SlotAfterResponse(me, s, Buy);
    SlotAfterResponse(me, s, Sell);
    hide Good, SlotOk, BookOk, RequestOk, Limited, Next, Updated, After, Sound;
    StaysLimited(cfg, s.desk, s.position, s.responses[0]);
  }

  lemma {:induction false} EveryRunIsLimited(me: nat, cfg: RiskCfg, ticker: nat, actions: seq<Action>)
    requires CfgOk(cfg) && Runs(me, cfg, ticker, actions)
    ensures var s := Reached(me, cfg, ticker, actions); Limited(cfg, s.desk, s.position)
  {
    if actions != [] {
      hide Sound, Enabled, Act, Limited;
      EveryRunIsLimited(me, cfg, ticker, actions[..|actions| - 1]);
      EveryRunIsSound(me, cfg, ticker, actions[..|actions| - 1]);
      ActKeepsLimited(me, cfg, Reached(me, cfg, ticker, actions[..|actions| - 1]), actions[|actions| - 1]);
    } else {
      assert Limited(cfg, Opening(ticker).desk, 0);
    }
  }

  lemma {:induction false} DrainedIsLimited(me: nat, cfg: RiskCfg, s: Session)
    requires Sound(me, s) && Limited(cfg, s.desk, s.position)
    ensures var p := PositionWith(s.position, s.responses);
            p + StillOpen(me, s, Buy) <= cfg.maxPosition && -p + StillOpen(me, s, Sell) <= cfg.maxPosition
    decreases |s.responses|
  {
    if s.responses == [] {
      assert SlotOk(me, s, Buy) && SlotOk(me, s, Sell);
    } else {
      DeliverKeepsSound(me, cfg, s);
      DeliverKeepsLimited(me, cfg, s);
      var t := Act(me, cfg, s, Deliver);
      DrainedIsLimited(me, cfg, t);
      SlotAfterResponse(me, s, Buy);
      SlotAfterResponse(me, s, Sell);
      assert ResponseOk(me, s.desk, s.responses[0]);
      hide Sound, SlotOk, Next, After, Noticed, Limited;
    }
  }

  /** Neither the known position, nor the true one, nor any fill the exchange could still make breaks the limit. */
  ghost predicate LimitHolds(me: nat, cfg: RiskCfg, s: Session) {
    var p := PositionWith(s.position, s.responses);
    && Abs(s.position) <= cfg.maxPosition && Abs(p) <= cfg.maxPosition
    && p + StillOpen(me, s, Buy) <= cfg.maxPosition && -p + StillOpen(me, s, Sell) <= cfg.maxPosition
  }

  /**
   * The position limit in every run: neither the position the client knows of, nor the true one that includes the
   * fills under way, leaves the limit, and no fill the exchange could still make takes it out.
   */
  lemma PositionStaysLimited(me: nat, cfg: RiskCfg, ticker: nat, actions: seq<Action>)
    requires CfgOk(cfg) && Runs(me, cfg, ticker, actions)
    ensures LimitHolds(me, cfg, Reached(me, cfg, ticker, actions))
  {
    EveryRunIsSound(me, cfg, ticker, actions);
    EveryRunIsLimited(me, cfg, ticker, actions);
    var s := Reached(me, cfg, ticker, actions);
    DrainedIsLimited(me, cfg, s);
  }

  // ----- limits at which the limit does not hold

  lemma OneMoreAct(me: nat, cfg: RiskCfg, ticker: nat, actions: seq<Action>, a: Action)
    requires Runs(me, cfg, ticker, actions) && Enabled(me, Reached(me, cfg, ticker, actions), a)
    ensures Runs(me, cfg, ticker, actions + [a])
    ensures Reached(me, cfg, ticker, actions + [a]) == Act(me, cfg, Reached(me, cfg, ticker, actions), a)
  {
    hide Enabled, Act;
    assert (actions + [a])[..|actions|] == actions;
  }

  /** The client holds p, has nothing outstanding, and the book is empty. */
  ghost predicate Flat(s: Session, p: nat) {
    && s.desk.sell == Unset && (s.desk.buy.state == UNSET || s.desk.buy.state == DEAD)
    && s.position == p && s.requests == [] && s.responses == [] && s.book.bids == [] && s.book.asks == []
  }

  /** A bid for one that rests in an empty book. */
  lemma BidRests(b: Book, key: ClientKey)
    requires b.bids == [] && b.asks == []
    ensures Process(b, New(key, Buy, 100, 1)).book
         == b.(bids := [Entry(key, MktOrder(b.nextId, Buy, 100, 1, 1))], nextId := b.nextId + 1)
    ensures Process(b, New(key, Buy, 100, 1)).responses == [Response(ACCEPTED, key, b.ticker, b.nextId, Buy, 100, 0, 1)]
  {
    var e := Entry(key, MktOrder(b.nextId, Buy, 100, 1, 1));
    assert MatchAll(TakerOf(b, key, Buy, 100), b.asks, 1) == Matched([], 1, [], []);
    assert Insert([], e) == [e];
  }

  /** An offer that takes it. */
  lemma OfferTakes(b: Book, bid: Resting, key: ClientKey)
    requires b.bids == [bid] && b.asks == [] && bid.order.side == Buy && bid.order.price == 100 && bid.order.qty == 1
    ensures var p := Process(b, New(key, Sell, 100, 1));
            && p.book == b.(bids := [], nextId := b.nextId + 1)
            && p.responses == [Response(ACCEPTED, key, b.ticker, b.nextId, Sell, 100, 0, 1),
                               Response(FILLED, key, b.ticker, b.nextId % TWO_32, Sell, 100, 1, 0),
                               Response(FILLED, bid.key, b.ticker, bid.order.id, Buy, 100, 1, 0)]
  {
    var t := TakerOf(b, key, Sell, 100);
    assert [bid][1..] == [];
    assert MatchAll(t, [], 0) == Matched([], 0, [], []);
    assert MatchAll(t, [bid], 1).responses == FillResponses(t, bid, 1) + [];
  }

  lemma MineThird(me: nat, a: Response, b: Response, c: Response)
    requires a.key.client != me && b.key.client != me && c.key.client == me
    ensures Mine(me, [a, b, c]) == [c]
  {
    assert [a, b, c][1..] == [b, c] && [b, c][1..] == [c];
    MineOne(me, c);
  }

  /** From a flat state one more can be bought while the position stays within the limit. */
  lemma BuyOne(me: nat, cfg: RiskCfg, ticker: nat, actions: seq<Action>, p: nat) returns (actions': seq<Action>)
    requires Runs(me, cfg, ticker, actions) && Flat(Reached(me, cfg, ticker, actions), p)
    requires cfg.maxOrderSize >= 1 && p + 1 <= cfg.maxPosition < TWO_31
    ensures Runs(me, cfg, ticker, actions') && Flat(Reached(me, cfg, ticker, actions'), p + 1)
  {
    var s := Reached(me, cfg, ticker, actions);
    var offer := New(ClientKey(me + 1, 1), Sell, 100, 1);
    SmallOrderPasses(p, cfg);
    FlatSends(me, cfg, s, p, 1);
    hide Runs, Reached, CheckPreTradeRisk, Enabled, Act;
    OneMoreAct(me, cfg, ticker, actions, MoveOrder(Buy, 100, 1, cfg.maxLoss));
    actions' := actions + [MoveOrder(Buy, 100, 1, cfg.maxLoss)];
    var s1 := Sent(me, s, Buy, 100, 1);
    BidArrives(me, cfg, s1);
    OneMoreAct(me, cfg, ticker, actions', Arrive(0));
    actions' := actions' + [Arrive(0)];
    var s2 := Act(me, cfg, s1, Arrive(0));
    OfferArrives(me, cfg, s2, offer);
    OneMoreAct(me, cfg, ticker, actions', Stranger(offer));
    actions' := actions' + [Stranger(offer)];
    var s3 := Act(me, cfg, s2, Stranger(offer));
    actions' := HearBoth(me, cfg, ticker, actions', p, s3.responses[0], s3.responses[1]);
  }

  /** A flat client sends an order that the check allows. */
  lemma FlatSends(me: nat, cfg: RiskCfg, s: Session, p: nat, qty: nat)
    requires Flat(s, p) && qty > 0 && CheckPreTradeRisk(p, cfg.maxLoss, cfg, Buy, qty) == ALLOWED
    ensures var a := MoveOrder(Buy, 100, qty, cfg.maxLoss);
            Enabled(me, s, a) && Act(me, cfg, s, a) == Sent(me, s, Buy, 100, qty)
    ensures Sent(me, s, Buy, 100, qty).requests == [New(ClientKey(me, s.nextOrderId), Buy, 100, qty)]
  {
    hide CheckPreTradeRisk;
  }

  lemma BidArrives(me: nat, cfg: RiskCfg, s: Session)
    requires |s.requests| == 1 && s.responses == [] && s.book.bids == [] && s.book.asks == []
    requires s.requests[0] == New(s.requests[0].key, Buy, 100, 1) && s.requests[0].key.client == me
    ensures Enabled(me, s, Arrive(0))
    ensures var t, key := Act(me, cfg, s, Arrive(0)), s.requests[0].key;
            && t.desk == s.desk && t.position == s.position && t.requests == [] && t.book.asks == []
            && t.book.bids == [Entry(key, MktOrder(s.book.nextId, Buy, 100, 1, 1))]
            && t.responses == [Response(ACCEPTED, key, s.book.ticker, s.book.nextId, Buy, 100, 0, 1)]
  {
    BidRests(s.book, s.requests[0].key);
    MineOne(me, Response(ACCEPTED, s.requests[0].key, s.book.ticker, s.book.nextId, Buy, 100, 0, 1));
    hide Process, Mine;
    assert DropAt(s.requests, 0) == [];
  }

  lemma OfferArrives(me: nat, cfg: RiskCfg, s: Session, offer: Request)
    requires |s.book.bids| == 1 && s.book.asks == [] && offer == New(ClientKey(me + 1, 1), Sell, 100, 1)
    requires var bid := s.book.bids[0];
             bid.key.client == me && bid.order.side == Buy && bid.order.price == 100 && bid.order.qty == 1
    ensures Enabled(me, s, Stranger(offer))
    ensures var t := Act(me, cfg, s, Stranger(offer));
            && t.desk == s.desk && t.position == s.position && t.requests == s.requests
            && t.book.bids == [] && t.book.asks == []
            && |t.responses| == |s.responses| + 1 && t.responses[..|s.responses|] == s.responses
            && var r := t.responses[|s.responses|];
               r.kind == FILLED && r.side == Buy && r.execQty == 1 && r.leavesQty == 0
  {
    OfferTakes(s.book, s.book.bids[0], offer.key);
    var taken := Process(s.book, offer).responses;
    MineThird(me, taken[0], taken[1], taken[2]);
    hide Process, Mine;
  }

  /** The acceptance and the fill of an order for one are heard. */
  lemma HearBoth(me: nat, cfg: RiskCfg, ticker: nat, actions: seq<Action>, p: nat, accepted: Response, filled: Response)
    returns (actions': seq<Action>)
    requires Runs(me, cfg, ticker, actions)
    requires var s := Reached(me, cfg, ticker, actions);
             && s.responses == [accepted, filled] && s.requests == [] && s.position == p && s.desk.sell == Unset
             && s.book.bids == [] && s.book.asks == []
    requires accepted.kind == ACCEPTED && accepted.side == Buy
    requires filled.kind == FILLED && filled.side == Buy && filled.execQty == 1 && filled.leavesQty == 0
    ensures Runs(me, cfg, ticker, actions') && Flat(Reached(me, cfg, ticker, actions'), p + 1)
  {
    hide Runs, Reached;
    assert [accepted, filled][1..] == [filled] && [filled][1..] == [];
    SignedIs(Buy, 1);
    OneMoreAct(me, cfg, ticker, actions, Deliver);
    actions' := actions + [Deliver];
    OneMoreAct(me, cfg, ticker, actions', Deliver);
    actions' := actions' + [Deliver];
  }

  lemma SmallOrderPasses(position: nat, cfg: RiskCfg)
    requires cfg.maxOrderSize >= 1 && position + 1 <= cfg.maxPosition < TWO_31
    ensures CheckPreTradeRisk(position, cfg.maxLoss, cfg, Buy, 1) == ALLOWED
  {
    SignedIs(Buy, 1);
  }

  lemma {:induction false} Climb(me: nat, cfg: RiskCfg, ticker: nat, p: nat) returns (actions: seq<Action>)
    requires p <= cfg.maxPosition < TWO_31 && (p > 0 ==> cfg.maxOrderSize >= 1)
    ensures Runs(me, cfg, ticker, actions) && Flat(Reached(me, cfg, ticker, actions), p)
  {
    if p == 0 {
      actions := [];
    } else {
      actions := Climb(me, cfg, ticker, p - 1);
      actions := BuyOne(me, cfg, ticker, actions, p - 1);
    }
  }

  /** If the limits together do not fit 31 bits, a client that buys its way up is let through the limit. */
  lemma LimitBroken(me: nat, cfg: RiskCfg, ticker: nat) returns (actions: seq<Action>)
    requires Stored(cfg) && cfg.maxPosition < TWO_31 && !CfgOk(cfg)
    ensures Runs(me, cfg, ticker, actions) && !LimitHolds(me, cfg, Reached(me, cfg, ticker, actions))
  {
    var p: nat := if cfg.maxOrderSize >= TWO_31 then 0 else TWO_31 - cfg.maxOrderSize;
    var qty: nat := TWO_31 - p;
    actions := Climb(me, cfg, ticker, p);
    hide Runs, Reached;
    var s := Reached(me, cfg, ticker, actions);
    LeastNumberPasses(p, cfg, qty);
    FlatSends(me, cfg, s, p, qty);
    hide CheckPreTradeRisk, Enabled, Act;
    OneMoreAct(me, cfg, ticker, actions, MoveOrder(Buy, 100, qty, cfg.maxLoss));
    actions := actions + [MoveOrder(Buy, 100, qty, cfg.maxLoss)];
    hide LimitHolds;
    SentBreaks(me, cfg, s, p, qty);
  }

  lemma SentBreaks(me: nat, cfg: RiskCfg, s: Session, p: nat, qty: nat)
    requires Flat(s, p) && qty > 0 && p + qty > cfg.maxPosition
    ensures !LimitHolds(me, cfg, Sent(me, s, Buy, 100, qty))
  {
    var r := New(ClientKey(me, s.nextOrderId), Buy, 100, qty);
    assert Sent(me, s, Buy, 100, qty).requests == [r];
    InFlightOne(r, r.key);
    hide InFlight, RestingQty;
  }

  /** For a position limit within 31 bits: it holds in all runs if and only if the limits together fit 31 bits. */
  lemma PositionStaysLimitedIff(me: nat, cfg: RiskCfg, ticker: nat)
    requires Stored(cfg) && cfg.maxPosition < TWO_31
    ensures (forall actions :: Runs(me, cfg, ticker, actions) ==>
               LimitHolds(me, cfg, Reached(me, cfg, ticker, actions)))
            <==> CfgOk(cfg)
  {
    if CfgOk(cfg) {
      forall actions | Runs(me, cfg, ticker, actions)
        ensures LimitHolds(me, cfg, Reached(me, cfg, ticker, actions))
      {
        PositionStaysLimited(me, cfg, ticker, actions);
      }
    } else {
      var actions := LimitBroken(me, cfg, ticker);
    }
  }

  /** The limit is used to the full: an order for all of it may be sent, and the bound above is reached. */
  lemma LimitIsTight(me: nat, ticker: nat) returns (actions: seq<Action>)
    ensures Runs(me, RiskCfg(5, 5, 0.0), ticker, actions)
    ensures var s := Reached(me, RiskCfg(5, 5, 0.0), ticker, actions);
            PositionWith(s.position, s.responses) + StillOpen(me, s, Buy) == 5
  {
    var cfg := RiskCfg(5, 5, 0.0);
    var a := MoveOrder(Buy, 100, 5, 0.0);
    actions := [a];
    assert [a][..0] == [];
    assert Reached(me, cfg, ticker, []) == Opening(ticker);
    SignedIs(Buy, 5);
    RiskIsExact(0, 0.0, cfg, Buy, 5);
    InFlightOne(New(ClientKey(me, 1), Buy, 100, 5), ClientKey(me, 1));
    assert [] + [New(ClientKey(me, 1), Buy, 100, 5)] == [New(ClientKey(me, 1), Buy, 100, 5)];
    assert Act(me, cfg, Opening(ticker), a) == Sent(me, Opening(ticker), Buy, 100, 5);
  }

  // ----- no slot waits for ever

  /** A slot that waits for a cancel has it on its way to the exchange, or the order is done there. */
  ghost predicate Awaits(me: nat, s: Session, side: Side) {
    var o := s.desk.On(side);
    o.state == PENDING_CANCEL ==> CancelOrder(KeyOf(me, o)) in s.requests || AtExchange(s, KeyOf(me, o)) == Closed
  }

  lemma AwaitsAfterRequest(me: nat, s: Session, r: Request, requests: seq<Request>, side: Side)
    requires Good(s.book) && Admissible(s.book, r) && SlotOk(me, s, side) && Awaits(me, s, side)
    requires Used(s.desk.On(side)) ==> Removes(s.requests, r, requests, KeyOf(me, s.desk.On(side)))
    requires forall x :: x in s.requests && x != r ==> x in requests
    ensures Awaits(me, Processed(me, s, r, requests), side)
  {
    var o := s.desk.On(side);
    var key, l := KeyOf(me, o), AtExchange(s, KeyOf(me, o));
    if o.state == PENDING_CANCEL {
      if r == CancelOrder(key) {
        hide Good, Process, RestingQty;
        CancelCloses(s.book, key);
        if InFlight(s.requests, key) > 0 {
          StillPending(LifeOf(o), s.responses, key);
        }
      } else if l == Closed {
        PositiveNew(s.book, r);
        hide Good, Admissible, Process, RestingQty, After;
        StepLife(s.book, r, key, l);
      }
    }
  }

  lemma CancelCloses(b: Book, key: ClientKey)
    requires Good(b)
    ensures RestingQty(Process(b, CancelOrder(key)).book, key) == 0
  {
    CancelResting(b, key, key);
  }

  lemma StillPending(l: Life, log: seq<Response>, key: ClientKey)
    requires After(l, log, key).Pending?
    ensures l.Pending?
  {
    if !l.Pending? {
      NeverPendingAgain(l, log, key);
    }
  }

  lemma DropKeepsOthers<T>(s: seq<T>, i: nat)
    requires i < |s|
    ensures forall x :: x in s && x != s[i] ==> x in DropAt(s, i)
  {
    forall x | x in s && x != s[i]
      ensures x in DropAt(s, i)
    {
      var j :| 0 <= j < |s| && s[j] == x;
      assert DropAt(s, i)[if j < i then j else j - 1] == x;
    }
  }

  lemma ActKeepsAwaits(me: nat, cfg: RiskCfg, s: Session, a: Action, side: Side)
    requires Sound(me, s) && Enabled(me, s, a) && side != NoSide && Awaits(me, s, side)
    ensures Awaits(me, Act(me, cfg, s, a), side)
  {
    match a
    case MoveOrder(d, price, qty, totalPnl) =>
      MoveKeepsAwaits(me, cfg, s, d, price, qty, totalPnl, side);
    case OtherTickers(ids) =>
    case Arrive(i) =>
      ArrivesAdmissible(me, s, i);
      DropKeepsOthers(s.requests, i);
      InFlightDrop(s.requests, i, KeyOf(me, s.desk.On(side)));
      if s.requests[i].New? {
        InFlightOnce(s.requests, i);
      }
      assert SlotOk(me, s, side);
      hide Sound, Good, Admissible, SlotOk, InFlight;
      SoundGood(me, s);
      AwaitsAfterRequest(me, s, s.requests[i], DropAt(s.requests, i), side);
    case Stranger(r) =>
      assert SlotOk(me, s, side);
      AwaitsAfterRequest(me, s, r, s.requests, side);
    case Deliver =>
      assert ResponseOk(me, s.desk, s.responses[0]);
      SlotAfterResponse(me, s, side);
  }

  lemma SoundGood(me: nat, s: Session)
    requires Sound(me, s)
    ensures Good(s.book)
  {
  }

  lemma MoveKeepsAwaits(me: nat, cfg: RiskCfg, s: Session, d: Side, price: int, qty: nat, totalPnl: real, side: Side)
    requires Sound(me, s) && d != NoSide && qty > 0 && side != NoSide && Awaits(me, s, side)
    ensures Awaits(me, Act(me, cfg, s, MoveOrder(d, price, qty, totalPnl)), side)
  {
    var t := Act(me, cfg, s, MoveOrder(d, price, qty, totalPnl));
    var m := Move(s.desk.On(d), s.nextOrderId, me, d, price, qty, CheckPreTradeRisk(s.position, totalPnl, cfg, d, qty));
    var key := KeyOf(me, s.desk.On(side));
    InFlightConcat(s.requests, m.sent, key);
    assert SlotOk(me, s, side);
    assert t == Moves(me, cfg, s, d, price, qty, totalPnl);
    hide CheckPreTradeRisk, Sound, InFlight, RestingQty, After, Act, Enabled;
    if d != side {
      assert t.desk.On(side) == s.desk.On(side);
      if m.sent != [] {
        InFlightOne(m.sent[0], key);
        assert m.sent == [m.sent[0]];
      }
    }
  }

  lemma {:induction false} EveryRunAwaits(me: nat, cfg: RiskCfg, ticker: nat, actions: seq<Action>, side: Side)
    requires Runs(me, cfg, ticker, actions) && side != NoSide
    ensures Awaits(me, Reached(me, cfg, ticker, actions), side)
  {
    if actions != [] {
      hide Sound, Enabled, Act, Awaits;
      EveryRunAwaits(me, cfg, ticker, actions[..|actions| - 1], side);
      EveryRunIsSound(me, cfg, ticker, actions[..|actions| - 1]);
      ActKeepsAwaits(me, cfg, Reached(me, cfg, ticker, actions[..|actions| - 1]), actions[|actions| - 1], side);
    } else {
      assert Awaits(me, Opening(ticker), side);
    }
  }

  /**
   * When nothing is under way in either direction no slot is waiting: a slot is idle and the client has no order on
   * that side of the book, or it is live with exactly the quantity that rests.
   */
  lemma QuietSlotsAgree(me: nat, cfg: RiskCfg, ticker: nat, actions: seq<Action>, side: Side)
    requires Runs(me, cfg, ticker, actions) && side != NoSide
    requires var s := Reached(me, cfg, ticker, actions); s.requests == [] && s.responses == []
    ensures var s := Reached(me, cfg, ticker, actions);
            var o := s.desk.On(side);
            match o.state
            case LIVE => o.qty > 0 && RestingQty(s.book, KeyOf(me, o)) == o.qty
            case PENDING_NEW => false
            case PENDING_CANCEL => false
            case _ => forall key: ClientKey :: key.client == me ==> !HasKey(s.book.On(side), key)
  {
    EveryRunIsSound(me, cfg, ticker, actions);
    EveryRunAwaits(me, cfg, ticker, actions, side);
    var s := Reached(me, cfg, ticker, actions);
    hide Reached, Runs, Good;
    assert SlotOk(me, s, side);
    if LifeOf(s.desk.On(side)) == Closed {
      IdleSlot(me, s, side);
    }
  }

  /** Delivery of the first response. */
  function Delivered(s: Session): Session
    requires s.responses != []
  {
    var r := s.responses[0];
    s.(position := Positioned(s.position, r), desk := Noticed(s.desk, r), responses := s.responses[1..])
  }

  /** An order of quantity 0 is acknowledged, and the book only uses up a market order id. */
  lemma NothingToRest(b: Book, key: ClientKey, side: Side, price: int)
    requires side != NoSide
    ensures Process(b, New(key, side, price, 0))
         == Step(b.(nextId := b.nextId + 1), [Response(ACCEPTED, key, b.ticker, b.nextId, side, price, 0, 0)], [])
  {
    var t, opp := TakerOf(b, key, side, price), b.On(Opposite(side));
    assert MatchAll(t, opp, 0) == Matched(opp, 0, [], []);
    assert b.(nextId := b.nextId + 1).With(Opposite(side), opp) == b.(nextId := b.nextId + 1);
  }

  /** Cancelling an order that does not rest changes nothing and is rejected. */
  lemma NothingToCancel(b: Book, key: ClientKey)
    requires Good(b) && RestingQty(b, key) == 0
    ensures Process(b, CancelOrder(key))
         == Step(b, [Response(CANCEL_REJECTED, key, b.ticker, ID_INVALID, NoSide, PRICE_INVALID, QTY_INVALID,
             QTY_INVALID)], [])
  {
    LiveIffResting(b, key);
    assert !HasKey(b.bids, key) && !HasKey(b.asks, key);
    assert IndexOf(b.bids, key) == |b.bids| && IndexOf(b.asks, key) == |b.asks|;
  }

  /** The slot after its order of quantity 0 was accepted, and after it was then moved to another price. */
  function Acknowledged(me: nat, s: Session, side: Side, price: int): Session
    requires side != NoSide
  {
    var sent := Sent(me, s, side, price, 0);
    s.(desk := s.desk.With(side, sent.desk.On(side).(state := LIVE)), nextOrderId := sent.nextOrderId,
       book := s.book.(nextId := s.book.nextId + 1))
  }

  lemma ZeroIsAccepted(me: nat, s: Session, side: Side, price: int)
    requires Sound(me, s) && side != NoSide && s.responses == []
    ensures var sent := Sent(me, s, side, price, 0);
            var r := sent.requests[|s.requests|];
            var p := Processed(me, sent, r, s.requests);
            && sent.requests == s.requests + [r] && r == New(ClientKey(me, s.nextOrderId), side, price, 0)
            && p.responses != [] && Delivered(p) == Acknowledged(me, s, side, price)
  {
    var key := ClientKey(me, s.nextOrderId);
    NothingToRest(s.book, key, side, price);
    MineOne(me, Response(ACCEPTED, key, s.book.ticker, s.book.nextId, side, price, 0, 0));
    hide Sound, Process;
  }

  lemma ZeroIsRejected(me: nat, s: Session, side: Side, key: ClientKey)
    requires Good(s.book) && RestingQty(s.book, key) == 0 && key.client == me && s.responses == []
    ensures var p := Processed(me, s, CancelOrder(key), s.requests);
            p.responses != [] && Delivered(p) == s
  {
    NothingToCancel(s.book, key);
    var r := Response(CANCEL_REJECTED, key, s.book.ticker, ID_INVALID, NoSide, PRICE_INVALID, QTY_INVALID, QTY_INVALID);
    MineOne(me, r);
    hide Good, Process;
    assert [] + [r] == [r] && [r][1..] == [];
  }

  lemma NextBookGood(b: Book, n: nat)
    requires Good(b) && n >= b.nextId
    ensures Good(b.(nextId := n)) && forall key :: RestingQty(b.(nextId := n), key) == RestingQty(b, key)
  {
    hide Wf;
  }

  /**
   * Why quantities must be positive. In every state of every run with no response under way, an idle slot from which an
   * order of quantity 0 is sent at any price turns live when it is accepted, although nothing rests; moved to any other
   * price, its cancel is rejected; and then, with nothing more under way for it, no move at any price or quantity
   * changes it any more.
   */
  lemma ZeroQuantitySticks(me: nat, s: Session, side: Side, price: int, price': int, risk: RiskCheckResult)
    requires Sound(me, s) && side != NoSide && LifeOf(s.desk.On(side)) == Closed && s.responses == []
    requires price' != price
    ensures var live := Acknowledged(me, s, side, price);
            var key := ClientKey(me, s.nextOrderId);
            var m := Move(live.desk.On(side), live.nextOrderId, me, side, price', 0, risk);
            var moved := live.(desk := live.desk.With(side, m.order), requests := live.requests + m.sent);
            var stuck := moved.(requests := s.requests);
            && var accepted := Processed(me, Sent(me, s, side, price, 0), New(key, side, price, 0), s.requests);
            && accepted.responses != [] && Delivered(accepted) == live
            && LifeOf(live.desk.On(side)) == Open(0) && RestingQty(live.book, key) == 0
            && m.sent == [CancelOrder(key)]
            && Processed(me, moved, CancelOrder(key), s.requests).responses != []
            && Delivered(Processed(me, moved, CancelOrder(key), s.requests)) == stuck
            && stuck.responses == [] && stuck.desk.On(side).state == PENDING_CANCEL && RestingQty(stuck.book, key) == 0
            && InFlight(stuck.requests, key) == 0
            && forall price, qty, risk ::
                 Move(stuck.desk.On(side), stuck.nextOrderId, me, side, price, qty, risk)
                 == Moved(stuck.desk.On(side), stuck.nextOrderId, [])
  {
    NextIdIsFresh(me, s);
    ZeroIsAccepted(me, s, side, price);
    var live, key := Acknowledged(me, s, side, price), ClientKey(me, s.nextOrderId);
    SoundGood(me, s);
    NextBookGood(s.book, s.book.nextId + 1);
    hide Sound, Good, Process, RestingQty;
    var m := Move(live.desk.On(side), live.nextOrderId, me, side, price', 0, risk);
    var stuck := live.(desk := live.desk.With(side, m.order));
    ZeroIsRejected(me, stuck, side, key);
  }

  lemma MineOne(me: nat, r: Response)
    ensures Mine(me, [r]) == if r.key.client == me then [r] else []
  {
    assert [r][1..] == [];
  }
}
