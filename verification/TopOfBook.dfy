/** The best bid and offer a client keeps next to its book, and when it agrees with the book. */
module TopOfBook {
  import opened Types
  import opened PriceTime
  import opened Replication

  datatype Quote = Quote(price: int, qty: nat)

  const NoQuote: Quote := Quote(PRICE_INVALID, QTY_INVALID)

  datatype BBO = BBO(bid: Quote, ask: Quote) {
    function On(side: Side): Quote { if side == Buy then bid else ask }
  }

  /** The total quantity of all orders of s that have the given price. */
  function QtyAt<K>(s: seq<Entry<K>>, price: int): nat {
    if s == [] then 0 else (if s[0].order.price == price then s[0].order.qty else 0) + QtyAt(s[1..], price)
  }

  /** What the quote of a side should show; quantities are kept in 32 bits. */
  function Top<K>(s: seq<Entry<K>>): Quote {
    if s == [] then NoQuote else Quote(s[0].order.price, QtyAt(s, s[0].order.price) % TWO_32)
  }

  /** The update is at or inside the best price of a non-empty side, which is when the code refreshes its quote. */
  predicate Touches(side: Side, s: seq<Public>, u: Update) {
    s != [] && u.side == side && AtLeast(side, u.price, s[0].order.price)
  }

  /** The quote of a side after an update. */
  function NextQuote(side: Side, p: Pub, quote: Quote, u: Update): Quote {
    if u.kind != TRADE && Touches(side, p.On(side), u) then Top(Apply(p, u).On(side)) else quote
  }

  function NextBBO(p: Pub, bbo: BBO, u: Update): BBO {
    BBO(NextQuote(Buy, p, bbo.bid, u), NextQuote(Sell, p, bbo.ask, u))
  }

  // ----- quantities at a price

  lemma {:induction false} NoneAt<K>(s: seq<Entry<K>>, price: int)
    requires forall i :: 0 <= i < |s| ==> s[i].order.price != price
    ensures QtyAt(s, price) == 0
  {
    if s != [] {
      NoneAt(s[1..], price);
    }
  }

  lemma {:induction false} QtyAtConcat<K>(a: seq<Entry<K>>, b: seq<Entry<K>>, price: int)
    ensures QtyAt(a + b, price) == QtyAt(a, price) + QtyAt(b, price)
  {
    if a == [] {
      assert a + b == b;
    } else {
      assert (a + b)[1..] == a[1..] + b;
      QtyAtConcat(a[1..], b, price);
    }
  }

  // ----- one update

  /** Queueing an order behind the best price leaves the top alone. */
  lemma InsertBehind(side: Side, s: seq<Public>, e: Public)
    requires Wf(side, s) && s != [] && e.order.side == side && !AtLeast(side, e.order.price, s[0].order.price)
    ensures Top(Insert(s, e)) == Top(s)
  {
    var r := Rank(s, side, e.order.price);
    RankIsBoundary(s, side, e.order.price);
    assert r > 0;
    var best := s[0].order.price;
    QtyAtConcat(s[..r], [e], best);
    QtyAtConcat(s[..r] + [e], s[r..], best);
    QtyAtConcat(s[..r], s[r..], best);
    assert s == s[..r] + s[r..];
  }

  lemma {:induction false} WithQtyBehind(s: seq<Public>, id: nat, qty: nat, price: int)
    requires forall i :: 0 <= i < |s| && s[i].key == id ==> s[i].order.price != price
    ensures QtyAt(WithQty(s, id, qty), price) == QtyAt(s, price)
  {
    if s != [] {
      WithQtyBehind(s[1..], id, qty, price);
    }
  }

  lemma {:induction false} WithoutBehind(s: seq<Public>, id: nat, price: int)
    requires forall i :: 0 <= i < |s| && s[i].key == id ==> s[i].order.price != price
    ensures QtyAt(Without(s, id), price) == QtyAt(s, price)
  {
    if s != [] {
      WithoutBehind(s[1..], id, price);
      var head := if s[0].key == id then [] else [s[0]];
      QtyAtConcat(head, Without(s[1..], id), price);
    }
  }

  /** Changing or removing an order behind the best price leaves the top alone. */
  lemma ChangeBehind(side: Side, s: seq<Public>, id: nat, price: int, qty: nat)
    requires Wf(side, s) && Holds(s, id, price) && s != [] && !AtLeast(side, price, s[0].order.price)
    ensures Top(WithQty(s, id, qty)) == Top(s) && Top(Without(s, id)) == Top(s)
  {
    var i := IndexOf(s, id);
    var best := s[0].order.price;
    forall j | 0 <= j < |s| && s[j].key == id
      ensures j == i
    {
      assert j != i ==> Queued(side, s[if i < j then i else j], s[if i < j then j else i]);
    }
    assert i > 0;
    WithQtyBehind(s, id, qty, best);
    WithoutBehind(s, id, best);
    WithoutIndex(side, s, i);
  }

  /** An update of one side leaves the other alone. */
  lemma OtherSide(p: Pub, u: Update, side: Side)
    requires GoodPub(p) && Fits(p, u) && side != NoSide && u.side != side
    ensures Apply(p, u).On(side) == p.On(side)
  {
    if u.kind == MODIFY || u.kind == CANCEL {
      var i := IndexOf(p.On(u.side), u.id);
      assert p.On(u.side)[i].key == u.id;
      NotOnBoth(p, u.side, i);
      WithoutAbsent(p.On(side), u.id);
      assert forall j :: 0 <= j < |p.On(side)| ==> WithQty(p.On(side), u.id, u.qty)[j] == p.On(side)[j];
    }
  }

  lemma NotOnBoth(p: Pub, side: Side, i: nat)
    requires GoodPub(p) && side != NoSide && i < |p.On(side)|
    ensures !HasKey(p.On(Opposite(side)), p.On(side)[i].key)
  {
    if side == Sell {
      forall j | 0 <= j < |p.bids|
        ensures p.bids[j].key != p.asks[i].key
      {
        assert !HasKey(p.asks, p.bids[j].key);
      }
    }
  }

  /** An update that does not touch a side changes its top only if it opens the side. */
  lemma UntouchedTop(p: Pub, u: Update, side: Side)
    requires GoodPub(p) && Fits(p, u) && side != NoSide && !Touches(side, p.On(side), u)
    requires !(u.kind == ADD && u.side == side && p.On(side) == [])
    ensures Top(Apply(p, u).On(side)) == Top(p.On(side))
  {
    hide Wf, Insert, Without, Top;
    if u.side != side {
      OtherSide(p, u, side);
    } else {
      match u.kind
      case ADD => InsertBehind(side, p.On(side), Entry(u.id, OrderOf(u)));
      case MODIFY => ChangeBehind(side, p.On(side), u.id, u.price, u.qty);
      case CANCEL => ChangeBehind(side, p.On(side), u.id, u.price, u.qty);
      case _ =>
    }
  }

  /** The updates after which the quote of a side is out of date: the first order of a side, and a CLEAR. */
  ghost predicate Stale(p: Pub, side: Side, u: Update) {
    || (u.kind == ADD && u.side == side && p.On(side) == [])
    || (u.kind == CLEAR && p.On(side) != [] && !Touches(side, p.On(side), u))
  }

  /** All prices of a side, and that of the update, differ from the mark for "no price". */
  ghost predicate RealPrices(p: Pub, side: Side, u: Update) {
    (forall i :: 0 <= i < |p.On(side)| ==> p.On(side)[i].order.price != PRICE_INVALID)
        && (u.kind == ADD ==> u.price != PRICE_INVALID)
  }

  /**
   * A quote that agrees with its side agrees again after an update exactly when the update is not one of the two kinds.
   */
  lemma AgreementKeptIff(p: Pub, quote: Quote, u: Update, side: Side)
    requires GoodPub(p) && (u.kind == CLEAR || Fits(p, u)) && side != NoSide && RealPrices(p, side, u)
    requires quote == Top(p.On(side))
    ensures NextQuote(side, p, quote, u) == Top(Apply(p, u).On(side)) <==> !Stale(p, side, u)
  {
    if u.kind != CLEAR {
      if u.kind == ADD && u.side == side && p.On(side) == [] {
        var e := Entry(u.id, OrderOf(u));
        assert Insert(p.On(side), e) == [e];
      } else if !Touches(side, p.On(side), u) {
        UntouchedTop(p, u, side);
      } else if u.kind == TRADE {
        assert Apply(p, u) == p;
      }
    }
  }

  // ----- whole streams

  /** The quote of a side after a stream, kept from the given book and quote on. */
  function QuoteAfter(side: Side, p: Pub, quote: Quote, us: seq<Update>): Quote
    decreases |us|
  {
    if us == [] then quote else QuoteAfter(side, Apply(p, us[0]), NextQuote(side, p, quote, us[0]), us[1..])
  }

  /** Whether the side was opened by an ADD since an update last touched it. */
  ghost predicate OpenedUnseen(side: Side, p: Pub, unseen: bool, us: seq<Update>)
    decreases |us|
  {
    if us == [] then unseen
    else
      var u := us[0];
      OpenedUnseen(side, Apply(p, u),
                   if u.kind == ADD && u.side == side && p.On(side) == [] then true
                   else if u.kind != TRADE && Touches(side, p.On(side), u) then false
                   else unseen,
                   us[1..])
  }

  /** The quote of a side is either right, or was never set since the side was opened. */
  ghost predicate QuoteOk(side: Side, p: Pub, quote: Quote, unseen: bool) {
    if unseen then p.On(side) != [] && quote == NoQuote else quote == Top(p.On(side))
  }

  lemma QuoteStep(side: Side, p: Pub, quote: Quote, unseen: bool, u: Update)
    requires GoodPub(p) && Fits(p, u) && side != NoSide && QuoteOk(side, p, quote, unseen)
    ensures QuoteOk(side, Apply(p, u), NextQuote(side, p, quote, u),
                    if u.kind == ADD && u.side == side && p.On(side) == [] then true
                    else if u.kind != TRADE && Touches(side, p.On(side), u) then false
                    else unseen)
  {
    hide Wf, QtyAt;
    if u.kind == ADD && u.side == side && p.On(side) == [] {
      assert Apply(p, u).On(side) != [];
    } else if u.kind == TRADE {
    } else if !Touches(side, p.On(side), u) {
      UntouchedTop(p, u, side);
      if unseen {
        UntouchedStays(p, u, side);
      }
    }
  }

  lemma UntouchedStays(p: Pub, u: Update, side: Side)
    requires GoodPub(p) && Fits(p, u) && side != NoSide && !Touches(side, p.On(side), u) && p.On(side) != []
    ensures Apply(p, u).On(side) != []
  {
    hide QtyAt, Rank;
    if u.side != side {
      OtherSide(p, u, side);
    } else if u.kind == CANCEL {
      var i := IndexOf(p.On(side), u.id);
      WithoutIndex(side, p.On(side), i);
    }
  }

  /**
   * Along a whole incremental stream the quote of a side shows the best price and its total quantity, except from
   * the ADD that opens an empty side to the next update at or inside its best price: there it shows nothing.
   */
  lemma {:induction false} QuoteAlongStream(side: Side, p: Pub, quote: Quote, unseen: bool, us: seq<Update>)
    requires GoodPub(p) && FitsAll(p, us) && side != NoSide && QuoteOk(side, p, quote, unseen)
    ensures var s := ApplyAll(p, us).On(side);
            QuoteAfter(side, p, quote, us) == if OpenedUnseen(side, p, unseen, us) then NoQuote else Top(s)
    ensures OpenedUnseen(side, p, unseen, us) ==> ApplyAll(p, us).On(side) != []
    decreases |us|
  {
    hide Top, NextQuote, Fits, GoodPub, QuoteOk;
    if us == [] {
      QuoteMeans(side, p, quote, unseen);
    } else {
      QuoteStep(side, p, quote, unseen, us[0]);
      FitKeepsGood(p, us[0]);
      QuoteAlongStream(side, Apply(p, us[0]), NextQuote(side, p, quote, us[0]),
                       if us[0].kind == ADD && us[0].side == side && p.On(side) == [] then true
                       else if us[0].kind != TRADE && Touches(side, p.On(side), us[0]) then false
                       else unseen, us[1..]);
    }
  }

  lemma QuoteMeans(side: Side, p: Pub, quote: Quote, unseen: bool)
    requires QuoteOk(side, p, quote, unseen)
    ensures quote == if unseen then NoQuote else Top(p.On(side))
    ensures unseen ==> p.On(side) != []
  {
  }

  /** Update i of the stream is at or inside the best price of the side as it then is, and is not a TRADE. */
  ghost predicate TouchesAt(side: Side, p: Pub, us: seq<Update>, i: nat) {
    i < |us| && us[i].kind != TRADE && Touches(side, ApplyAll(p, us[..i]).On(side), us[i])
  }

  lemma {:induction false} QuoteConcat(side: Side, p: Pub, quote: Quote, a: seq<Update>, b: seq<Update>)
    ensures QuoteAfter(side, p, quote, a + b) == QuoteAfter(side, ApplyAll(p, a), QuoteAfter(side, p, quote, a), b)
    decreases |a|
  {
    if a == [] {
      assert a + b == b;
    } else {
      hide NextQuote;
      assert (a + b)[1..] == a[1..] + b;
      QuoteConcat(side, Apply(p, a[0]), NextQuote(side, p, quote, a[0]), a[1..], b);
    }
  }

  lemma QuoteOne(side: Side, p: Pub, quote: Quote, u: Update)
    ensures QuoteAfter(side, p, quote, [u]) == NextQuote(side, p, quote, u)
  {
    assert [u][1..] == [];
    assert QuoteAfter(side, Apply(p, u), NextQuote(side, p, quote, u), []) == NextQuote(side, p, quote, u);
  }

  /**
   * Whatever the quote of a side showed before, even left wrong by a CLEAR: after an update at or inside the best
   * price, the rest of the stream leaves it as if it had been right all along, showing the best price and its total
   * quantity, or nothing from the ADD that opens the side again to the next such update.
   */
  lemma TouchRestores(side: Side, p: Pub, quote: Quote, us: seq<Update>, i: nat)
    requires GoodPub(p) && FitsAll(p, us) && side != NoSide && TouchesAt(side, p, us, i)
    ensures QuoteAfter(side, p, quote, us)
         == if OpenedUnseen(side, ApplyAll(p, us[..i + 1]), false, us[i + 1..]) then NoQuote
            else Top(ApplyAll(p, us).On(side))
  {
    var a, u, b := us[..i], us[i], us[i + 1..];
    var before, after := ApplyAll(p, a), ApplyAll(p, us[..i + 1]);
    assert us == us[..i + 1] + b && us[..i + 1] == a + [u];
    ApplyConcat(p, us[..i + 1], b);
    ApplyConcat(p, a, [u]);
    ApplyOne(before, u);
    FitAllKeepsGood(p, us[..i + 1]);
    QuoteConcat(side, p, quote, us[..i + 1], b);
    QuoteConcat(side, p, quote, a, [u]);
    QuoteOne(side, before, QuoteAfter(side, p, quote, a), u);
    hide Apply, Fits, GoodPub, FitsAll;
    QuoteAlongStream(side, after, Top(after.On(side)), false, b);
  }

  /** Until such an update the quote stays what it was. */
  lemma {:induction false} UntouchedQuoteStays(side: Side, p: Pub, quote: Quote, us: seq<Update>)
    requires forall i: nat :: i < |us| ==> !TouchesAt(side, p, us, i)
    ensures QuoteAfter(side, p, quote, us) == quote
    decreases |us|
  {
    if us != [] {
      assert us[..0] == [];
      assert !TouchesAt(side, p, us, 0);
      var rest := us[1..];
      forall i: nat | i < |rest|
        ensures !TouchesAt(side, Apply(p, us[0]), rest, i)
      {
        assert !TouchesAt(side, p, us, i + 1);
        assert us[..i + 1][0] == us[0] && us[..i + 1][1..] == rest[..i];
      }
      UntouchedQuoteStays(side, Apply(p, us[0]), quote, rest);
    }
  }
}
