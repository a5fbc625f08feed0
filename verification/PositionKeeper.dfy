/** Position, average entry prices and profit of one instrument, against the history of its fills and marks. */
module PositionKeepers {
  import opened Types

  /** An execution of one of the client's orders, or a change of the best bid and offer. */
  datatype Event = Fill(side: Side, price: int, qty: nat) | Quotes(bid: int, ask: int)

  function PositionOf(h: seq<Event>): int {
    if h == [] then 0
    else
      var e := h[|h| - 1];
      PositionOf(h[..|h| - 1]) + if e.Fill? then SideValue(e.side) * e.qty else 0
  }

  /** What all fills together have paid in: sales count as income, purchases as expense. */
  function Cash(h: seq<Event>): real {
    if h == [] then 0.0
    else
      var e := h[|h| - 1];
      Cash(h[..|h| - 1]) - if e.Fill? then Paid(e.side, e.price, e.qty) else 0.0
  }

  /** What a fill costs; a sale costs a negative amount. */
  function Paid(side: Side, price: int, qty: nat): real {
    (SideValue(side) * qty) as real * price as real
  }

  predicate Marks(position: int, e: Event) {
    e.Fill? || (position != 0 && e.bid != PRICE_INVALID && e.ask != PRICE_INVALID)
  }

  function MarkOf(e: Event): real {
    match e
    case Fill(_, price, _) => price as real
    case Quotes(bid, ask) => (bid + ask) as real * 0.5
  }

  /**
   * The price at which the position is valued: that of the last fill, or the last middle of two valid prices while a
   * position was open.
   */
  function LastMark(h: seq<Event>): real {
    if h == [] then 0.0
    else
      var init, e := h[..|h| - 1], h[|h| - 1];
      if Marks(PositionOf(init), e) then MarkOf(e) else LastMark(init)
  }

  /**
   * The average price at which the open position was entered: weighted by quantity when the position grows, the same
   * when it shrinks, and the price of the fill when it changes sign.
   */
  function EntryPrice(h: seq<Event>): real {
    if h == [] then 0.0
    else
      var init, e := h[..|h| - 1], h[|h| - 1];
      if e.Quotes? then EntryPrice(init) else Averaged(PositionOf(init), EntryPrice(init), e.side, e.price, e.qty)
  }

  /** What the fills so far amount to. */
  datatype Account = Account(position: int, cash: real, average: real)

  function AccountOf(h: seq<Event>): Account {
    Account(PositionOf(h), Cash(h), EntryPrice(h))
  }

  function Cost(price: real, qty: nat): real {
    price * qty as real
  }

  /** Cash plus the value of the position. */
  function Worth(a: Account, mark: real): real {
    a.cash + a.position as real * mark
  }

  /** What closing part of a position with a fill on the given side yields. */
  function Gain(closed: nat, average: real, price: int, side: Side): real {
    closed as real * (average - price as real) * SideValue(side) as real
  }

  function Averaged(p: int, average: real, side: Side, price: int, qty: nat): real {
    if p * SideValue(side) >= 0 then
      if Abs(p) + qty == 0 then 0.0
      else (Cost(average, Abs(p)) + Cost(price as real, qty)) / (Abs(p) + qty) as real
    else if qty <= Abs(p) then average
    else price as real
  }

  function Filled(a: Account, side: Side, price: int, qty: nat): Account {
    Account(a.position + SideValue(side) * qty, a.cash - Paid(side, price, qty),
            Averaged(a.position, a.average, side, price, qty))
  }

  /**
   * The open costs are those of entering the position at its average price; realised profit is cash plus open costs.
   */
  ghost predicate Balanced(a: Account, buyCost: real, sellCost: real, realized: real) {
    && buyCost == (if a.position > 0 then Cost(a.average, a.position) else 0.0)
    && sellCost == (if a.position < 0 then Cost(a.average, -a.position) else 0.0)
    && realized == a.cash + buyCost - sellCost
  }

  class PositionInfo {
    var position: int
    var realPnl: real
    var unrealPnl: real
    var totalPnl: real
    var openVwapBuy: real
    var openVwapSell: real
    var volume: nat
    ghost var history: seq<Event>

    /** Profit so far is cash plus the value of the position at the last mark; the books are balanced. */
    ghost predicate Valid()
      reads this
    {
      && position == PositionOf(history)
      && Balanced(AccountOf(history), openVwapBuy, openVwapSell, realPnl)
      && totalPnl == Worth(AccountOf(history), LastMark(history))
      && totalPnl == realPnl + unrealPnl
    }

    constructor ()
      ensures Valid() && history == []
    {
      position, realPnl, unrealPnl, totalPnl, openVwapBuy, openVwapSell, volume := 0, 0.0, 0.0, 0.0, 0.0, 0.0, 0;
      history := [];
    }

    /** addFill, up to the profit not yet realised. */
    method Enter(side: Side, price: int, execQty: nat, ghost before: Account, ghost after: Account)
      requires side != NoSide && before.position == position && Balanced(before, openVwapBuy, openVwapSell, realPnl)
      requires after == Filled(before, side, price, execQty)
      modifies this`position, this`volume, this`openVwapBuy, this`openVwapSell, this`realPnl
      ensures position == after.position && volume == old(volume) + execQty
      ensures Balanced(after, openVwapBuy, openVwapSell, realPnl)
    {
      var oldPosition := position;
      position := position + execQty * SideValue(side);
      volume := volume + execQty;
      PositionAfter(before, side, price, execQty);
      Opposed(oldPosition, side);
      if oldPosition * SideValue(side) >= 0 {
        GrownBalanced(before, openVwapBuy, openVwapSell, realPnl, side, price, execQty);
        hide Balanced, Filled, Gain, Cost;
        if side == Buy {
          openVwapBuy := openVwapBuy + Cost(price as real, execQty);
        } else {
          openVwapSell := openVwapSell + Cost(price as real, execQty);
        }
      } else {
        AverageIs(before, openVwapBuy, openVwapSell, realPnl);
        Signs(oldPosition, side, execQty);
        ReducedBalanced(before, openVwapBuy, openVwapSell, realPnl, side, price, execQty);
        hide Balanced, Filled, Gain, Cost;
        var oppSideVwap := (if side == Buy then openVwapSell else openVwapBuy) / Abs(oldPosition) as real;
        if side == Buy {
          openVwapSell := Cost(oppSideVwap, Abs(position));
        } else {
          openVwapBuy := Cost(oppSideVwap, Abs(position));
        }
        realPnl := realPnl + Gain(Min(execQty, Abs(oldPosition)), oppSideVwap, price, side);
        if position * oldPosition < 0 {
          if side == Buy {
            openVwapBuy, openVwapSell := Cost(price as real, Abs(position)), 0.0;
          } else {
            openVwapSell, openVwapBuy := Cost(price as real, Abs(position)), 0.0;
          }
        }
      }
    }

    /** addFill. */
    method AddFill(side: Side, price: int, execQty: nat)
      requires Valid() && side != NoSide
      modifies this
      ensures Valid() && history == old(history) + [Fill(side, price, execQty)]
      ensures volume == old(volume) + execQty
      ensures totalPnl == Worth(AccountOf(history), price as real)
    {
      ghost var e := Fill(side, price, execQty);
      HistoryStep(history, e);
      hide Balanced, Filled, PositionOf, Cash, LastMark, EntryPrice, Worth;
      Enter(side, price, execQty, AccountOf(history), AccountOf(history + [e]));
      history := history + [e];
      if position == 0 {
        FlatBalanced(AccountOf(history), openVwapBuy, openVwapSell, realPnl);
        openVwapBuy, openVwapSell, unrealPnl := 0.0, 0.0, 0.0;
      } else {
        unrealPnl := Unrealized(price as real, AccountOf(history));
      }
      totalPnl := unrealPnl + realPnl;
    }

    /** updateBBO. */
    method UpdateBBO(bid: int, ask: int)
      requires Valid()
      modifies this
      ensures Valid() && history == old(history) + [Quotes(bid, ask)] && volume == old(volume)
      ensures position == old(position) && AccountOf(history) == old(AccountOf(history)) && realPnl == old(realPnl)
      ensures position == 0 || bid == PRICE_INVALID || ask == PRICE_INVALID ==> totalPnl == old(totalPnl)
      ensures position != 0 && bid != PRICE_INVALID && ask != PRICE_INVALID ==>
                exists mark :: mark - bid as real == ask as real - mark && totalPnl == Worth(AccountOf(history), mark)
    {
      MarkIsMiddle(bid, ask);
      HistoryStep(history, Quotes(bid, ask));
      hide Balanced, Filled, PositionOf, Cash, LastMark, EntryPrice, Worth;
      history := history + [Quotes(bid, ask)];
      if position != 0 && bid != PRICE_INVALID && ask != PRICE_INVALID {
        unrealPnl := Unrealized((bid + ask) as real * 0.5, AccountOf(history));
        totalPnl := unrealPnl + realPnl;
      }
    }

    /** The profit that closing the position at the given price would realise. */
    method Unrealized(price: real, ghost a: Account) returns (r: real)
      requires position != 0 && a.position == position && Balanced(a, openVwapBuy, openVwapSell, realPnl)
      ensures realPnl + r == Worth(a, price)
    {
      var size := Abs(position) as real;
      Quotient(a.average, size);
      if position > 0 {
        r := (price - openVwapBuy / size) * size;
      } else {
        r := (openVwapSell / size - price) * size;
      }
    }
  }

  /** The mark of a quote is as far from the bid as from the ask. */
  lemma MarkIsMiddle(bid: int, ask: int)
    ensures MarkOf(Quotes(bid, ask)) - bid as real == ask as real - MarkOf(Quotes(bid, ask))
  {
  }

  lemma HistoryStep(h: seq<Event>, e: Event)
    ensures var g := h + [e];
            && AccountOf(g) == (if e.Fill? then Filled(AccountOf(h), e.side, e.price, e.qty) else AccountOf(h))
            && LastMark(g) == (if Marks(PositionOf(h), e) then MarkOf(e) else LastMark(h))
  {
    hide Paid, Averaged, Marks, MarkOf;
    assert (h + [e])[..|h|] == h;
  }

  lemma PositionAfter(a: Account, side: Side, price: int, qty: nat)
    ensures Filled(a, side, price, qty).position == a.position + SideValue(side) * qty
  {
  }

  lemma Quotient(average: real, n: real)
    requires n != 0.0
    ensures average * n / n == average
  {
  }

  /** Adding to a position adds the price of the fill to its cost. */
  lemma GrownBalanced(a: Account, buyCost: real, sellCost: real, realized: real, side: Side, price: int, qty: nat)
    requires side != NoSide && a.position * SideValue(side) >= 0 && Balanced(a, buyCost, sellCost, realized)
    ensures var cost := Cost(price as real, qty);
            Balanced(Filled(a, side, price, qty),
                     if side == Buy then buyCost + cost else buyCost, if side == Sell then sellCost + cost
                         else sellCost, realized)
  {
    var n := (Abs(a.position) + qty) as real;
    var x := Cost(a.average, Abs(a.position)) + Cost(price as real, qty);
    if n != 0.0 {
      assert x / n * n == x;
    }
  }

  lemma FlatBalanced(a: Account, buyCost: real, sellCost: real, realized: real)
    requires a.position == 0 && Balanced(a, buyCost, sellCost, realized)
    ensures buyCost == sellCost == 0.0 && realized == a.cash && forall mark :: Worth(a, mark) == a.cash
  {
  }

  lemma GainIs(closed: nat, average: real, price: int, side: Side)
    requires side != NoSide
    ensures Gain(closed, average, price, side)
         == if side == Buy then Cost(average, closed) - Cost(price as real, closed)
             else Cost(price as real, closed) - Cost(average, closed)
  {
  }

  lemma CostSplits(x: real, a: nat, b: nat)
    requires b <= a
    ensures Cost(x, a - b) == Cost(x, a) - Cost(x, b)
  {
  }

  /** The open cost per unit is the average entry price. */
  lemma AverageIs(a: Account, buyCost: real, sellCost: real, realized: real)
    requires a.position != 0 && Balanced(a, buyCost, sellCost, realized)
    ensures (if a.position < 0 then sellCost else buyCost) / Abs(a.position) as real == a.average
  {
    Quotient(a.average, Abs(a.position) as real);
  }

  /**
   * Reducing or turning a position realises the difference between its average price and the fill's on what is closed.
   */
  lemma ReducedBalanced(a: Account, buyCost: real, sellCost: real, realized: real, side: Side, price: int, qty: nat)
    requires a.position != 0 && side == (if a.position < 0 then Buy else Sell)
    requires Balanced(a, buyCost, sellCost, realized)
    ensures var n := if side == Buy then a.position + qty else a.position - qty;
            && (n == 0 ==> Cost(a.average, Abs(n)) == 0.0)
            && Balanced(Filled(a, side, price, qty),
                        if n <= 0 then 0.0 else Cost(if side == Buy then price as real else a.average, n),
                        if n >= 0 then 0.0 else Cost(if side == Sell then price as real else a.average, -n),
                        realized + Gain(Min(qty, Abs(a.position)), a.average, price, side))
  {
    var size := Abs(a.position);
    GainIs(Min(qty, size), a.average, price, side);
    CostSplits(a.average, if qty <= size then size else qty, Min(qty, size));
    CostSplits(price as real, if qty <= size then size else qty, Min(qty, size));
    PaidIs(side, price, qty);
    CostOfNone(a.average);
    Signs(a.position, side, qty);
    ReducedFilled(a, side, price, qty);
    hide Gain, Cost, Paid, Filled;
  }

  lemma CostOfNone(x: real)
    ensures Cost(x, 0) == 0.0
  {
  }

  lemma Opposed(p: int, side: Side)
    requires side != NoSide
    ensures p * SideValue(side) < 0 <==> p != 0 && side == (if p < 0 then Buy else Sell)
  {
  }

  lemma Signs(p: int, side: Side, qty: nat)
    requires p != 0 && side == (if p < 0 then Buy else Sell)
    ensures var n := p + SideValue(side) * qty;
            && (n * p < 0 <==> qty > Abs(p))
            && n == (if side == Buy then qty - Abs(p) else Abs(p) - qty)
  {
  }

  lemma ReducedFilled(a: Account, side: Side, price: int, qty: nat)
    requires a.position != 0 && side == (if a.position < 0 then Buy else Sell)
    ensures var b := Filled(a, side, price, qty);
            && b.position == (if side == Buy then qty - Abs(a.position) else Abs(a.position) - qty)
            && b.cash == a.cash - Paid(side, price, qty)
            && b.average == if qty <= Abs(a.position) then a.average else price as real
  {
    hide Paid, Cost;
  }

  lemma PaidIs(side: Side, price: int, qty: nat)
    requires side != NoSide
    ensures Paid(side, price, qty) == if side == Buy then Cost(price as real, qty) else -Cost(price as real, qty)
  {
  }
}
