/** The client's order manager: one order slot per ticker and side, moved by the strategy and by order responses. */
module OrderManagers {
  import opened Types

  datatype OMOrderState = UNSET | PENDING_NEW | LIVE | PENDING_CANCEL | DEAD

  datatype OMOrder = OMOrder(id: nat, side: Side, price: int, qty: nat, state: OMOrderState)

  /** The buy and the sell slot of one ticker. */
  datatype Desk = Desk(buy: OMOrder, sell: OMOrder) {
    function On(side: Side): OMOrder { if side == Buy then buy else sell }
    function With(side: Side, o: OMOrder): Desk { if side == Buy then this.(buy := o) else this.(sell := o) }
  }

  const Unset: OMOrder := OMOrder(ID_INVALID, NoSide, PRICE_INVALID, QTY_INVALID, UNSET)

  // ----- pre-trade risk

  datatype RiskCfg = RiskCfg(maxOrderSize: nat, maxPosition: nat, maxLoss: real)

  datatype RiskCheckResult = ORDER_TOO_LARGE | POSITION_TOO_LARGE | LOSS_TOO_LARGE | ALLOWED

  const TWO_31: int := 0x8000_0000

  /** Conversion to a signed 32-bit integer. */
  function ToInt32(x: int): (r: int)
    ensures -TWO_31 <= r < TWO_31
    ensures -TWO_31 <= x < TWO_31 ==> r == x
  {
    var m := x % TWO_32;
    if m < TWO_31 then m else m - TWO_32
  }

  /** The absolute value in signed 32 bits, where the least number has none and is left as it is. */
  function Abs32(x: int): int {
    if x == -TWO_31 then x else Abs(x)
  }

  /** The effect on the position of buying or selling a quantity. */
  function Signed(side: Side, qty: int): int {
    SideValue(side) * qty
  }

  lemma SignedIs(side: Side, qty: int)
    ensures Signed(side, qty) == match side case Buy => qty case Sell => 0 - qty case NoSide => 0
  {
  }

  /** checkPreTradeRisk, in 32-bit arithmetic. */
  function CheckPreTradeRisk(position: int, totalPnl: real, cfg: RiskCfg, side: Side, qty: nat): RiskCheckResult {
    if qty > cfg.maxOrderSize then ORDER_TOO_LARGE
    else if Abs32(ToInt32(position + Signed(side, ToInt32(qty)))) > ToInt32(cfg.maxPosition) then POSITION_TOO_LARGE
    else if totalPnl < cfg.maxLoss then LOSS_TOO_LARGE
    else ALLOWED
  }

  /** An order that may be sent: not too large, not after too great a loss, and never leading beyond the limit. */
  ghost predicate WithinLimits(position: int, totalPnl: real, cfg: RiskCfg, side: Side, qty: nat) {
    && qty <= cfg.maxOrderSize && totalPnl >= cfg.maxLoss
    && Abs(position + Signed(side, qty)) <= cfg.maxPosition
  }

  /** The check allows exactly the orders within the limits, from every position within the limit. */
  ghost predicate CheckIsRight(cfg: RiskCfg) {
    forall position: int, totalPnl: real, side: Side, qty: nat
      {:trigger CheckPreTradeRisk(position, totalPnl, cfg, side, qty)} ::
      side != NoSide && Abs(position) <= cfg.maxPosition ==>
        (CheckPreTradeRisk(position, totalPnl, cfg, side, qty) == ALLOWED <==>
         WithinLimits(position, totalPnl, cfg, side, qty))
  }

  /** The limits as their 32 unsigned bits hold them. */
  ghost predicate Stored(cfg: RiskCfg) {
    cfg.maxOrderSize < TWO_32 && cfg.maxPosition < TWO_32
  }

  /** Limits whose sum fits 31 bits. */
  ghost predicate CfgOk(cfg: RiskCfg) {
    cfg.maxPosition + cfg.maxOrderSize < TWO_31
  }

  /** With such limits an order is allowed exactly when it is within them. */
  lemma RiskIsExact(position: int, totalPnl: real, cfg: RiskCfg, side: Side, qty: nat)
    requires CfgOk(cfg) && side != NoSide && Abs(position) <= cfg.maxPosition
    ensures CheckPreTradeRisk(position, totalPnl, cfg, side, qty) == ALLOWED <==>
            WithinLimits(position, totalPnl, cfg, side, qty)
  {
    SignedIs(side, qty);
    hide Signed;
    if qty <= cfg.maxOrderSize {
      assert ToInt32(qty) == qty && ToInt32(cfg.maxPosition) == cfg.maxPosition;
      assert ToInt32(position + Signed(side, qty)) == position + Signed(side, qty);
    }
  }

  /** Which refusal is returned: of the size first, then of the position, then of the loss. */
  lemma RefusalIs(position: int, totalPnl: real, cfg: RiskCfg, side: Side, qty: nat)
    requires CfgOk(cfg) && side != NoSide && Abs(position) <= cfg.maxPosition
    ensures var small, near := qty <= cfg.maxOrderSize, Abs(position + Signed(side, qty)) <= cfg.maxPosition;
            var risk := CheckPreTradeRisk(position, totalPnl, cfg, side, qty);
            && (risk == ORDER_TOO_LARGE <==> !small)
            && (risk == POSITION_TOO_LARGE <==> small && !near)
            && (risk == LOSS_TOO_LARGE <==> small && near && totalPnl < cfg.maxLoss)
  {
    SignedIs(side, qty);
    hide Signed;
    if qty <= cfg.maxOrderSize {
      assert ToInt32(qty) == qty && ToInt32(cfg.maxPosition) == cfg.maxPosition;
      assert ToInt32(position + Signed(side, qty)) == position + Signed(side, qty);
    }
  }

  /** A position limit beyond 31 bits is negative as a signed number, and not even an order of nothing is allowed. */
  lemma HugeLimitRefuses(cfg: RiskCfg)
    requires Stored(cfg) && cfg.maxPosition >= TWO_31
    ensures CheckPreTradeRisk(0, cfg.maxLoss, cfg, Buy, 0) != ALLOWED && WithinLimits(0, cfg.maxLoss, cfg, Buy, 0)
  {
    SignedIs(Buy, 0);
  }

  /**
   * Otherwise, an order that forms the first sum beyond 31 bits is allowed: in 32 bits that sum is the least number,
   * which the absolute value leaves negative.
   */
  lemma LeastNumberPasses(position: int, cfg: RiskCfg, qty: nat)
    requires Stored(cfg) && cfg.maxPosition < TWO_31 && 0 <= position <= cfg.maxPosition
    requires qty == TWO_31 - position <= cfg.maxOrderSize
    ensures CheckPreTradeRisk(position, cfg.maxLoss, cfg, Buy, qty) == ALLOWED
    ensures !WithinLimits(position, cfg.maxLoss, cfg, Buy, qty)
  {
    SignedIs(Buy, qty);
    SignedIs(Buy, ToInt32(qty));
    hide Signed;
    assert ToInt32(position + ToInt32(qty)) == 0 - TWO_31;
  }

  /** For instance, of an order two billion times the allowed position. */
  lemma RiskWraps()
    ensures var cfg := RiskCfg(0x8000_0000, 1, 0.0);
            && Stored(cfg) && !CfgOk(cfg)
            && CheckPreTradeRisk(0, 0.0, cfg, Buy, 0x8000_0000) == ALLOWED
            && !WithinLimits(0, 0.0, cfg, Buy, 0x8000_0000)
  {
    LeastNumberPasses(0, RiskCfg(0x8000_0000, 1, 0.0), 0x8000_0000);
  }

  /** The check is right for every position, profit, side and quantity if and only if the limits are such. */
  lemma CheckIsRightIff(cfg: RiskCfg)
    requires Stored(cfg)
    ensures CheckIsRight(cfg) <==> CfgOk(cfg)
  {
    if CfgOk(cfg) {
      forall position: int, totalPnl: real, side: Side, qty: nat | side != NoSide && Abs(position) <= cfg.maxPosition
        ensures CheckPreTradeRisk(position, totalPnl, cfg, side, qty) == ALLOWED <==>
                WithinLimits(position, totalPnl, cfg, side, qty)
      {
        RiskIsExact(position, totalPnl, cfg, side, qty);
      }
    } else if cfg.maxPosition >= TWO_31 {
      HugeLimitRefuses(cfg);
      assert !CheckIsRight(cfg) by {
        assert Abs(0) <= cfg.maxPosition;
      }
    } else {
      LeastNumberPasses(cfg.maxPosition, cfg, TWO_31 - cfg.maxPosition);
      assert !CheckIsRight(cfg) by {
        assert Abs(cfg.maxPosition) <= cfg.maxPosition;
      }
    }
  }

  /** No sum that the check forms leaves the signed 32 bits, which the language leaves undefined. */
  ghost predicate NeverOverflows(cfg: RiskCfg) {
    forall position: int, side: Side, qty: nat {:trigger Signed(side, qty), Abs(position)} ::
      side != NoSide && Abs(position) <= cfg.maxPosition && qty <= cfg.maxOrderSize ==>
        -TWO_31 <= position + Signed(side, qty) < TWO_31
  }

  /** The limits at which the check is right are those at which no sum overflows, even if overflow were to wrap. */
  lemma NeverOverflowsIff(cfg: RiskCfg)
    ensures NeverOverflows(cfg) <==> CfgOk(cfg)
  {
    if CfgOk(cfg) {
      forall position: int, side: Side, qty: nat |
        side != NoSide && Abs(position) <= cfg.maxPosition && qty <= cfg.maxOrderSize
        ensures -TWO_31 <= position + Signed(side, qty) < TWO_31
      {
        SignedIs(side, qty);
      }
    } else {
      SignedIs(Buy, cfg.maxOrderSize);
      assert Abs(cfg.maxPosition) <= cfg.maxPosition;
    }
  }

  // ----- one slot

  /** What moving an order leads to: the slot, the next order id and the requests sent. */
  datatype Moved = Moved(order: OMOrder, nextOrderId: nat, sent: seq<Request>)

  /** moveOrder: a live order at another price is cancelled, an idle slot gets a new order if risk allows. */
  function Move(o: OMOrder, nextOrderId: nat, client: nat, side: Side, price: int, qty: nat,
      risk: RiskCheckResult): Moved {
    match o.state
    case LIVE =>
      if o.price != price then Moved(o.(state := PENDING_CANCEL), nextOrderId, [CancelOrder(ClientKey(client, o.id))])
      else Moved(o, nextOrderId, [])
    case UNSET =>
      if price != PRICE_INVALID && risk == ALLOWED then NewOrder(nextOrderId, client, side, price, qty)
          else Moved(o, nextOrderId, [])
    case DEAD =>
      if price != PRICE_INVALID && risk == ALLOWED then NewOrder(nextOrderId, client, side, price, qty)
          else Moved(o, nextOrderId, [])
    case _ => Moved(o, nextOrderId, [])
  }

  function NewOrder(nextOrderId: nat, client: nat, side: Side, price: int, qty: nat): Moved {
    Moved(OMOrder(nextOrderId, side, price, qty, PENDING_NEW), nextOrderId + 1,
          [New(ClientKey(client, nextOrderId), side, price, qty)])
  }

  /** onOrderUpdate for the slot that the response's side selects. */
  function Updated(o: OMOrder, r: Response): OMOrder {
    match r.kind
    case ACCEPTED => o.(state := LIVE)
    case CANCELED => o.(state := DEAD)
    case FILLED => o.(qty := r.leavesQty, state := if r.leavesQty == 0 then DEAD else o.state)
    case CANCEL_REJECTED => o
  }

  /** onOrderUpdate: a rejected cancel carries no side and selects a slot nobody uses. */
  function Noticed(d: Desk, r: Response): Desk {
    if r.side == NoSide then d else d.With(r.side, Updated(d.On(r.side), r))
  }

  /** The orders of all tickers. */
  class OrderManager {
    const clientId: nat
    var tickerSideOrder: seq<Desk>
    var nextOrderId: nat
    var requests: seq<(nat, Request)>

    constructor (clientId: nat, tickers: nat)
      ensures this.clientId == clientId && nextOrderId == 1 && requests == []
      ensures |tickerSideOrder| == tickers && forall t :: 0 <= t < tickers ==> tickerSideOrder[t] == Desk(Unset, Unset)
    {
      this.clientId := clientId;
      tickerSideOrder := seq(tickers, _ => Desk(Unset, Unset));
      nextOrderId, requests := 1, [];
    }

    /** newOrder. */
    method SendNew(ticker: nat, side: Side, price: int, qty: nat)
      requires ticker < |tickerSideOrder| && side != NoSide
      modifies this
      ensures var m := NewOrder(old(nextOrderId), clientId, side, price, qty);
              && tickerSideOrder == old(tickerSideOrder)[ticker := old(tickerSideOrder[ticker]).With(side, m.order)]
              && nextOrderId == m.nextOrderId && requests == old(requests) + [(ticker, m.sent[0])]
    {
      requests := requests + [(ticker, New(ClientKey(clientId, nextOrderId), side, price, qty))];
      var order := OMOrder(nextOrderId, side, price, qty, PENDING_NEW);
      tickerSideOrder := tickerSideOrder[ticker := tickerSideOrder[ticker].With(side, order)];
      nextOrderId := nextOrderId + 1;
    }

    /** cancelOrder. */
    method SendCancel(ticker: nat, side: Side)
      requires ticker < |tickerSideOrder| && side != NoSide
      modifies this`tickerSideOrder, this`requests
      ensures var o := old(tickerSideOrder[ticker]).On(side);
              && tickerSideOrder == old(tickerSideOrder)[ticker :=
                old(tickerSideOrder[ticker]).With(side, o.(state := PENDING_CANCEL))]
              && requests == old(requests) + [(ticker, CancelOrder(ClientKey(clientId, o.id)))]
    {
      var order := tickerSideOrder[ticker].On(side);
      requests := requests + [(ticker, CancelOrder(ClientKey(clientId, order.id)))];
      tickerSideOrder := tickerSideOrder[ticker := tickerSideOrder[ticker].With(side, order.(state := PENDING_CANCEL))];
    }

    /** moveOrder. */
    method MoveOrder(ticker: nat, side: Side, price: int, qty: nat, risk: RiskCheckResult)
      requires ticker < |tickerSideOrder| && side != NoSide
      modifies this
      ensures var m := Move(old(tickerSideOrder[ticker]).On(side), old(nextOrderId), clientId, side, price, qty, risk);
              && tickerSideOrder == old(tickerSideOrder)[ticker := old(tickerSideOrder[ticker]).With(side, m.order)]
              && nextOrderId == m.nextOrderId
              && requests == old(requests) + (if m.sent == [] then [] else [(ticker, m.sent[0])])
      ensures price == PRICE_INVALID ==>
                forall i :: |old(requests)| <= i < |requests| ==> requests[i].1.CancelOrder?
    {
      var order := tickerSideOrder[ticker].On(side);
      Untouched(tickerSideOrder, ticker, side);
      match order.state {
        case LIVE =>
          if order.price != price {
            SendCancel(ticker, side);
          }
        case UNSET =>
          if price != PRICE_INVALID && risk == ALLOWED {
            SendNew(ticker, side, price, qty);
          }
        case DEAD =>
          if price != PRICE_INVALID && risk == ALLOWED {
            SendNew(ticker, side, price, qty);
          }
        case _ =>
      }
    }

    /** moveOrders: first the buy slot, then the sell slot. */
    method MoveOrders(ticker: nat, bidPrice: int, askPrice: int, clip: nat, position: int, totalPnl: real, cfg: RiskCfg)
      requires ticker < |tickerSideOrder|
      modifies this
      ensures var d := old(tickerSideOrder[ticker]);
              var b := Move(d.buy, old(nextOrderId), clientId, Buy, bidPrice, clip,
                  CheckPreTradeRisk(position, totalPnl, cfg, Buy, clip));
              var a := Move(d.sell, b.nextOrderId, clientId, Sell, askPrice, clip,
                  CheckPreTradeRisk(position, totalPnl, cfg, Sell, clip));
              && tickerSideOrder == old(tickerSideOrder)[ticker := Desk(b.order, a.order)]
                && nextOrderId == a.nextOrderId
              && requests == old(requests) + (if b.sent == [] then [] else [(ticker, b.sent[0])])
                             + (if a.sent == [] then [] else [(ticker, a.sent[0])])
      ensures forall i :: |old(requests)| <= i < |requests| && requests[i].1.New? ==>
                var r := requests[i].1;
                && r.qty == clip && r.price != PRICE_INVALID
                && ((r.side == Buy && r.price == bidPrice) || (r.side == Sell && r.price == askPrice))
    {
      MoveOrder(ticker, Buy, bidPrice, clip, CheckPreTradeRisk(position, totalPnl, cfg, Buy, clip));
      MoveOrder(ticker, Sell, askPrice, clip, CheckPreTradeRisk(position, totalPnl, cfg, Sell, clip));
    }

    /** onOrderUpdate. */
    method OnOrderUpdate(r: Response)
      requires r.ticker < |tickerSideOrder|
      modifies this`tickerSideOrder
      ensures tickerSideOrder == old(tickerSideOrder)[r.ticker := Noticed(old(tickerSideOrder[r.ticker]), r)]
    {
      Untouched(tickerSideOrder, r.ticker, Buy);
      if r.side == NoSide {
        return;
      }
      var order := tickerSideOrder[r.ticker].On(r.side);
      match r.kind {
        case ACCEPTED => order := order.(state := LIVE);
        case CANCELED => order := order.(state := DEAD);
        case FILLED =>
          order := order.(qty := r.leavesQty);
          if order.qty == 0 {
            order := order.(state := DEAD);
          }
        case CANCEL_REJECTED =>
      }
      tickerSideOrder := tickerSideOrder[r.ticker := tickerSideOrder[r.ticker].With(r.side, order)];
    }
  }

  lemma Untouched(desks: seq<Desk>, ticker: nat, side: Side)
    requires ticker < |desks| && side != NoSide
    ensures desks[ticker := desks[ticker].With(side, desks[ticker].On(side))] == desks
    ensures desks[ticker := desks[ticker]] == desks
  {
    assert desks[ticker].With(side, desks[ticker].On(side)) == desks[ticker];
  }
}
