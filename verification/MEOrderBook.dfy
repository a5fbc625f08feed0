/** The exchange's order book: the matching loop on the linked structure. */
module MEOrderBooks {
  import opened Types
  import opened MemPools
  import opened Rings
  import opened PriceTime
  import opened Shapes
  import opened LinkedBooks
  import opened Matching
  import opened BookRuns
  import opened PriceSlots
  import opened SlotLookups

  class MEOrderBook {
    const tickerId: nat
    const book: LinkedBook<ClientKey>
    var nextMarketOrderId: nat
    var clientResponses: seq<Response>
    var marketUpdates: seq<Update>

    ghost function Repr(): set<object> {
      {this, book, book.orderPool, book.orderPool.store, book.levelPool, book.levelPool.store, book.priceIndex}
    }

    /** The abstract book. */
    ghost function State(): Book
      reads Repr()
    {
      Book(tickerId, book.View(Buy), book.View(Sell), nextMarketOrderId)
    }

    ghost predicate Valid()
      reads Repr()
    {
      book.Valid() && Good(State())
    }

    constructor (tickerId: nat, maxLevels: nat, maxOrders: nat)
      requires maxLevels > 0 && maxOrders > 0
      ensures Valid() && State() == Book(tickerId, [], [], 1) && clientResponses == [] && marketUpdates == []
      ensures fresh(Repr()) && book.priceIndex.Length == book.levelPool.store.Length == maxLevels
      ensures book.orderPool.store.Length == maxOrders
    {
      this.tickerId := tickerId;
      var blank := MktOrder(ID_INVALID, NoSide, PRICE_INVALID, QTY_INVALID, PRIORITY_INVALID);
      var b := new LinkedBook(maxLevels, maxOrders, Entry(ClientKey(0, ID_INVALID), blank));
      book := b;
      nextMarketOrderId := 1;
      clientResponses, marketUpdates := [], [];
      EmptyGood(tickerId);
      new;
      hide LinkedBook.Valid, LinkedBook.View, LiveSet, Good;
      assert book.Valid() && book.View(Buy) == [] && book.View(Sell) == [];
    }

    method SendClientResponse(r: Response)
      modifies this`clientResponses
      ensures clientResponses == old(clientResponses) + [r]
    {
      clientResponses := clientResponses + [r];
    }

    method SendMarketUpdate(u: Update)
      modifies this`marketUpdates
      ensures marketUpdates == old(marketUpdates) + [u]
    {
      marketUpdates := marketUpdates + [u];
    }

    /** match: one fill of the taker against the order in block itr, the head of the opposite side. */
    method Match(t: Taker, itr: nat, leavesQty: nat) returns (leaves: nat)
      requires book.Valid() && t.ticker == tickerId && t.side != NoSide
      requires Wf(Opposite(t.side), book.View(Opposite(t.side)))
      requires itr < book.orderPool.store.Length && !book.orderPool.store[itr].isFree
      requires var opp := book.View(Opposite(t.side)); opp != [] && book.Snap().Order(itr) == opp[0]
      modifies this`clientResponses, this`marketUpdates, book, book.levelPool.store, book.orderPool.store,
          book.priceIndex
      ensures book.Valid() && book.View(t.side) == old(book.View(t.side))
      ensures var opp := old(book.View(Opposite(t.side)));
              var fill := Min(leavesQty, opp[0].order.qty);
              && leaves == leavesQty - fill
              && book.View(Opposite(t.side)) ==
                   (if fill == opp[0].order.qty then opp[1..] else [Reduced(opp[0], fill)] + opp[1..])
              && clientResponses == old(clientResponses) + FillResponses(t, opp[0], leavesQty)
              && marketUpdates == old(marketUpdates) + FillUpdates(t, opp[0], leavesQty)
      ensures LiveSet(book.orderPool.Blocks()) <= old(LiveSet(book.orderPool.Blocks()))
      ensures LiveSet(book.levelPool.Blocks()) <= old(LiveSet(book.levelPool.Blocks()))
    {
      hide OkBut, Wf, SideView, Without, WithQty, LiveSet;
      ghost var opp := book.View(Opposite(t.side));
      var order := book.orderPool.store[itr].item.val;
      var orderQty := order.order.qty;
      var fillQty := Min(leavesQty, orderQty);
      leaves := leavesQty - fillQty;
      HeadChanges(Opposite(t.side), opp, orderQty - fillQty);
      book.SetQty(itr, orderQty - fillQty);

      SendClientResponse(Response(FILLED, t.key, t.ticker, t.reportedId, t.side, order.order.price, fillQty, leaves));
      SendClientResponse(Response(FILLED, order.key, t.ticker, order.order.id, order.order.side, order.order.price,
                                  fillQty, orderQty - fillQty));
      SendMarketUpdate(Update(TRADE, ID_INVALID, t.ticker, t.side, order.order.price, fillQty, PRIORITY_INVALID));
      if orderQty - fillQty == 0 {
        SendMarketUpdate(Update(CANCEL, order.order.id, t.ticker, order.order.side, order.order.price, orderQty,
            PRIORITY_INVALID));
        book.RemoveOrder(itr);
      } else {
        SendMarketUpdate(Update(MODIFY, order.order.id, t.ticker, order.order.side, order.order.price,
                                orderQty - fillQty, order.order.priority));
      }
    }

    /** Between two turns of checkForMatch's loop: both sides are sound, and whole is the match it is a part of. */
    ghost predicate Underway(t: Taker, leaves: nat, rs: seq<Response>, us: seq<Update>, whole: Matched)
      reads Repr()
    {
      && book.Valid() && t.ticker == tickerId && t.side != NoSide
      && Wf(Opposite(t.side), book.View(Opposite(t.side)))
      && Onward(t, book.View(Opposite(t.side)), leaves, clientResponses, marketUpdates, rs, us, whole)
    }

    /** One turn of checkForMatch's loop: a fill against the best order, unless the taker does not cross it. */
    method MatchBest(t: Taker, leavesQty: nat, ghost rs: seq<Response>, ghost us: seq<Update>, ghost whole: Matched)
        returns (crosses: bool, leaves: nat)
      requires Underway(t, leavesQty, rs, us, whole) && leavesQty > 0 && book.Best(Opposite(t.side)) != NULL
      modifies this`clientResponses, this`marketUpdates, book, book.levelPool.store, book.orderPool.store,
          book.priceIndex
      ensures Underway(t, leaves, rs, us, whole) && book.View(t.side) == old(book.View(t.side))
      ensures crosses ==> leaves < leavesQty
      ensures !crosses ==> leaves == leavesQty && Exhausted(t, leaves, book.View(Opposite(t.side)))
      ensures LiveSet(book.orderPool.Blocks()) <= old(LiveSet(book.orderPool.Blocks()))
      ensures LiveSet(book.levelPool.Blocks()) <= old(LiveSet(book.levelPool.Blocks()))
    {
      hide OkBut, SideView, LiveSet, Wf, Onward, Crosses, FillResponses, FillUpdates;
      ghost var opp, responses, updates := book.View(Opposite(t.side)), clientResponses, marketUpdates;
      var itr := book.BestOrder(Opposite(t.side));
      crosses := Crosses(t.side, t.price, book.orderPool.store[itr].item.val.order.price);
      leaves := leavesQty;
      if crosses {
        leaves := Match(t, itr, leavesQty);
        MatchStep(t, opp, leavesQty, responses, updates, book.View(Opposite(t.side)), leaves, clientResponses,
            marketUpdates, rs, us, whole);
      }
    }

    /** checkForMatch: matches the taker against the opposite side until it stops crossing or nothing is left. */
    method CheckForMatch(t: Taker, qty: nat) returns (leaves: nat)
      requires book.Valid() && t.ticker == tickerId && t.side != NoSide
      requires Wf(Opposite(t.side), book.View(Opposite(t.side)))
      modifies this`clientResponses, this`marketUpdates, book, book.levelPool.store, book.orderPool.store,
          book.priceIndex
      ensures book.Valid() && book.View(t.side) == old(book.View(t.side))
      ensures var m := MatchAll(t, old(book.View(Opposite(t.side))), qty);
              && leaves == m.leaves && book.View(Opposite(t.side)) == m.opposite
              && clientResponses == old(clientResponses) + m.responses
              && marketUpdates == old(marketUpdates) + m.updates
      ensures LiveSet(book.orderPool.Blocks()) <= old(LiveSet(book.orderPool.Blocks()))
      ensures LiveSet(book.levelPool.Blocks()) <= old(LiveSet(book.levelPool.Blocks()))
    {
      leaves := qty;
      ghost var other := Opposite(t.side);
      ghost var whole := MatchAll(t, book.View(other), qty);
      ghost var rs, us := clientResponses, marketUpdates;
      hide LinkedBook.Valid, LinkedBook.View, LiveSet, MatchAll, Wf, Onward, Crosses;
      MatchBegins(t, book.View(other), qty, rs, us);
      while leaves != 0 && book.Best(Opposite(t.side)) != NULL
        invariant Underway(t, leaves, rs, us, whole) && book.View(t.side) == old(book.View(t.side))
        invariant LiveSet(book.orderPool.Blocks()) <= old(LiveSet(book.orderPool.Blocks()))
        invariant LiveSet(book.levelPool.Blocks()) <= old(LiveSet(book.levelPool.Blocks()))
        decreases leaves
      {
        var crosses;
        crosses, leaves := MatchBest(t, leaves, rs, us, whole);
        if !crosses {
          break;
        }
      }
      book.BestIffResting(other);
      NoFurtherMatch(t, book.View(other), leaves, clientResponses, marketUpdates, rs, us, whole);
    }

    /** The end of add: rests the remainder at the end of the queue that its price slot leads to. */
    method Rest(key: ClientKey, side: Side, price: int, id: nat, leaves: nat)
      requires book.Valid() && side != NoSide && book.Room(price)
      requires !HasKey(book.View(Buy), key) && !HasKey(book.View(Sell), key)
      modifies this`marketUpdates, book, book.levelPool, book.levelPool.store
      modifies book.orderPool, book.orderPool.store, book.priceIndex
      ensures var b, n := Book(tickerId, old(book.View(Buy)), old(book.View(Sell)), id), book.priceIndex.Length;
              var e := SlotEntry(b, key, side, price, leaves, n);
              && Book(tickerId, book.View(Buy), book.View(Sell), id) == RestBySlot(b, key, side, price, leaves, n)
              && marketUpdates == old(marketUpdates)
                + [Update(ADD, id, tickerId, side, price, leaves, e.order.priority)]
              && (SlotQueue(b.bids, b.asks, side, price, n) == (side, price) ==> book.Valid())
    {
      hide OkBut, SideView, LiveSet, Appended, NextPriority, SlotQueue;
      SlotLeadsTo(book.Snap(), side, price);
      FreshKey(book.Snap(), key);
      var priority := book.GetNextPriority(price, side);
      book.Add(Entry(key, MktOrder(id, side, price, leaves, priority)));
      SendMarketUpdate(Update(ADD, id, tickerId, side, price, leaves, priority));
    }

    /**
     * add: acknowledges a new order, matches it and rests what is left. The book is what the abstract add makes of it
     * if and only if the order does not outlast what it crosses, or no order it leaves behind is at another price of
     * its slot.
     */
    method Add(key: ClientKey, side: Side, price: int, qty: nat)
      requires Valid() && Admissible(State(), New(key, side, price, qty))
      requires RoomToRest(State(), key, side, price, qty, book.priceIndex.Length, book.orderPool.store.Length,
                          book.levelPool.store.Length)
      modifies Repr()
      ensures var s := AddBySlot(old(State()), key, side, price, qty, book.priceIndex.Length);
              && State() == s.book
              && clientResponses == old(clientResponses) + s.responses
              && marketUpdates == old(marketUpdates) + s.updates
      ensures var b := old(State());
              var free := FreeToRest(b, key, side, price, qty, book.priceIndex.Length);
              && (State() == Matching.Add(b, key, side, price, qty).book <==> free)
              && (free ==> Valid())
              && (free ==>
                    AddBySlot(b, key, side, price, qty, book.priceIndex.Length)
                    == Matching.Add(b, key, side, price, qty))
    {
      ghost var b := State();
      ghost var n := book.priceIndex.Length;
      hide OkBut, SideView, LiveSet, Wf, Good, Admissible, MatchAll, HasKey, SlotQueue, RestBySlot, SlotFree, RoomFor;
      hide AddBySlot, Matching.Add, BookToRest, Rests, SlotEntry, OneLevelPerSlot, Rested, RoomToRest, FreeToRest;
      var id := nextMarketOrderId;
      nextMarketOrderId := nextMarketOrderId + 1;
      SendClientResponse(Response(ACCEPTED, key, tickerId, id, side, price, 0, qty));
      ghost var responses, updates := clientResponses, marketUpdates;
      SlotsApartNow(book.Snap(), b, n);
      MatchAndRest(key, side, price, qty, id, b);
      RestedMeans(b, key, side, price, qty, n, State(), responses, clientResponses, updates, marketUpdates,
          book.Valid());
      AddIsFaithfulIff(b, key, side, price, qty, n);
    }

    /** The part of add after the acknowledgement. */
    method MatchAndRest(key: ClientKey, side: Side, price: int, qty: nat, id: nat, ghost b: Book)
      requires book.Valid() && Good(b) && Admissible(b, New(key, side, price, qty))
      requires b == Book(tickerId, book.View(Buy), book.View(Sell), id)
      requires RoomToRest(b, key, side, price, qty, book.priceIndex.Length, book.orderPool.store.Length,
               book.levelPool.store.Length)
      modifies this`clientResponses, this`marketUpdates, book, book.levelPool, book.levelPool.store
      modifies book.orderPool, book.orderPool.store, book.priceIndex
      ensures Rested(b, key, side, price, qty, book.priceIndex.Length,
              Book(tickerId, book.View(Buy), book.View(Sell), id + 1),
                     old(clientResponses), clientResponses, old(marketUpdates), marketUpdates, book.Valid())
    {
      ghost var n := book.priceIndex.Length;
      ghost var c := BookToRest(b, key, side, price, qty);
      ghost var m := MatchAll(TakerOf(b, key, side, price), b.On(Opposite(side)), qty);
      ghost var responses, updates := clientResponses, marketUpdates;
      GoodForAdd(b, key, side, price, qty);
      BeforeRest(b, key, side, price, qty);
      NotLive(c, key);
      assert c == b.With(Opposite(side), m.opposite);
      hide OkBut, SideView, LiveSet, Wf, Good, Admissible, MatchAll, HasKey, SlotQueue, RestBySlot, SlotFree, RoomFor;
      hide AddBySlot, Matching.Add, BookToRest, Rests, SlotEntry, OneLevelPerSlot, Rested, RoomToRest, FreeToRest;
      var leaves := CheckForMatch(Taker(tickerId, key, side, price, id % TWO_32), qty);
      assert c == Book(tickerId, book.View(Buy), book.View(Sell), id);
      if leaves == 0 {
        NothingRested(b, key, side, price, qty, n, m, responses, updates);
      } else {
        RestRemainder(key, side, price, id, leaves, b, qty, m, responses, updates);
      }
    }

    /** The last part of add, when something is left of the order. */
    method RestRemainder(key: ClientKey, side: Side, price: int, id: nat, leaves: nat, ghost b: Book, ghost qty: nat,
                         ghost m: Matched, ghost responses: seq<Response>, ghost updates: seq<Update>)
      requires book.Valid() && Good(b) && side != NoSide && id == b.nextId && leaves == m.leaves > 0
      requires tickerId == b.ticker
      requires m == MatchAll(TakerOf(b, key, side, price), b.On(Opposite(side)), qty)
      requires BookToRest(b, key, side, price, qty) == Book(tickerId, book.View(Buy), book.View(Sell), b.nextId)
      requires !HasKey(book.View(Buy), key) && !HasKey(book.View(Sell), key)
      requires RoomToRest(b, key, side, price, qty, book.priceIndex.Length, book.orderPool.store.Length,
               book.levelPool.store.Length)
      requires clientResponses == responses + m.responses && marketUpdates == updates + m.updates
      modifies this`marketUpdates, book, book.levelPool, book.levelPool.store
      modifies book.orderPool, book.orderPool.store, book.priceIndex
      ensures Rested(b, key, side, price, qty, book.priceIndex.Length,
                     Book(tickerId, book.View(Buy), book.View(Sell), b.nextId + 1),
                     responses, clientResponses, updates, marketUpdates, book.Valid())
    {
      ghost var n := book.priceIndex.Length;
      hide OkBut, SideView, LiveSet, MatchAll, HasKey, SlotQueue, RestBySlot, RoomFor;
      hide AddBySlot, BookToRest, Rests, SlotEntry, OneLevelPerSlot, Rested, RoomToRest, FreeToRest;
      RoomLeft(b, key, side, price, qty, n, book.orderPool.store.Length, book.levelPool.store.Length, m);
      RoomIsThere(book.Snap(), price, book.orderPool.store.Length, book.levelPool.store.Length);
      Rest(key, side, price, id, leaves);
      RemainderRested(b, key, side, price, qty, n, m, Book(tickerId, book.View(Buy), book.View(Sell), b.nextId),
                      responses, clientResponses, updates, marketUpdates, book.Valid());
    }

    /** cancel: takes a live order out of the book, or rejects. */
    method Cancel(key: ClientKey)
      requires Valid()
      modifies this`clientResponses, this`marketUpdates, book, book.levelPool.store, book.orderPool.store,
          book.priceIndex
      ensures Valid()
      ensures var s := Matching.Cancel(old(State()), key);
              && State() == s.book
              && clientResponses == old(clientResponses) + s.responses
              && marketUpdates == old(marketUpdates) + s.updates
    {
      hide OkBut, SideView, LiveSet, Good, Without, Matching.Cancel;
      ghost var b := State();
      CancelKeepsGood(b, key);
      if key !in book.lookup {
        NotFound(book.Snap(), b, key);
        SendClientResponse(Response(CANCEL_REJECTED, key, tickerId, ID_INVALID, NoSide, PRICE_INVALID, QTY_INVALID,
            QTY_INVALID));
      } else {
        Found(book.Snap(), b, key);
        var o := book.lookup[key];
        var order := book.orderPool.store[o].item.val.order;
        var response := Response(CANCELED, key, tickerId, order.id, order.side, order.price, QTY_INVALID, order.qty);
        var update := Update(CANCEL, order.id, tickerId, order.side, order.price, 0, order.priority);
        book.RemoveOrder(o);
        SendMarketUpdate(update);
        SendClientResponse(response);
      }
    }
  }

  /** The pools have exactly as many blocks in use as orders rest, and as there are different resting prices. */
  lemma BlocksInUse(x: MEOrderBook)
    requires x.Valid()
    ensures var b := x.State();
            && |LiveSet(x.book.orderPool.Blocks())| == |b.bids| + |b.asks|
            && |LiveSet(x.book.levelPool.Blocks())| == |PricesOf(b.bids) + PricesOf(b.asks)|
  {
    GoodKeysOnce(x.State());
    hide OkBut, SideView, Good, LiveSet;
    OrderCountExact(x.book.Snap());
    LevelCountExact(x.book.Snap());
  }

  lemma GoodKeysOnce(b: Book)
    requires Good(b)
    ensures KeysOnce(b.bids, b.asks)
  {
    forall i, j | 0 <= i < j < |b.bids|
      ensures b.bids[i].key != b.bids[j].key
    {
      assert Queued(Buy, b.bids[i], b.bids[j]);
    }
    forall i, j | 0 <= i < j < |b.asks|
      ensures b.asks[i].key != b.asks[j].key
    {
      assert Queued(Sell, b.asks[i], b.asks[j]);
    }
    forall i, j | 0 <= i < |b.bids| && 0 <= j < |b.asks|
      ensures b.bids[i].key != b.asks[j].key
    {
      assert Apart(b.bids[i], b.asks[j]);
    }
  }

  /** The counterexample carried out on the linked structure: the better bid is behind the worse one. */
  method ClashingBook() returns (x: MEOrderBook)
    ensures fresh(x) && x.State() == Book(0, [FirstBid, SecondBid], [], 3)
  {
    x := new MEOrderBook(0, 256, 1000);
    ExampleAdds();
    hide OkBut, SideView, Good, AddBySlot, Matching.Add, RoomToRest, FreeToRest, Admissible;
    x.Add(KeyOne, Buy, 100, 5);
    x.Add(KeyTwo, Buy, 356, 7);
  }

  lemma ExampleAdds()
    ensures var b, c := Book(0, [], [], 1), Book(0, [FirstBid], [], 2);
            && Admissible(b, New(KeyOne, Buy, 100, 5)) && RoomToRest(b, KeyOne, Buy, 100, 5, 256, 1000, 256)
            && FreeToRest(b, KeyOne, Buy, 100, 5, 256)
            && AddBySlot(b, KeyOne, Buy, 100, 5, 256).book == c
            && Admissible(c, New(KeyTwo, Buy, 356, 7)) && RoomToRest(c, KeyTwo, Buy, 356, 7, 256, 1000, 256)
            && AddBySlot(c, KeyTwo, Buy, 356, 7, 256).book == Book(0, [FirstBid, SecondBid], [], 3)
  {
    SlotClashExample();
    assert PricesOf<ClientKey>([]) == {};
    assert PricesOf([FirstBid]) == {100};
    var b, c := Book(0, [], [], 1), Book(0, [FirstBid], [], 2);
    assert Beyond(b, KeyOne, Buy, 100) == b;
    assert Beyond(c, KeyTwo, Buy, 356) == c;
  }

  lemma EmptyGood(ticker: nat)
    ensures Good(Book(ticker, [], [], 1))
  {
  }

  lemma GoodForAdd(b: Book, key: ClientKey, side: Side, price: int, qty: nat)
    requires Good(b) && Admissible(b, New(key, side, price, qty))
    ensures side != NoSide && Wf(Opposite(side), b.On(Opposite(side)))
    ensures !HasKey(b.bids, key) && !HasKey(b.asks, key)
  {
  }

  lemma NotFound(s: Shape<ClientKey>, b: Book, key: ClientKey)
    requires Ok(s) && b.bids == SideView(s, Buy) && b.asks == SideView(s, Sell) && key !in s.lookup
    ensures Matching.Cancel(b, key) ==
      Step(b, [Response(CANCEL_REJECTED, key, b.ticker, ID_INVALID, NoSide, PRICE_INVALID, QTY_INVALID, QTY_INVALID)],
          [])
  {
    hide OkBut, SideView;
    if IndexOf(b.bids, key) < |b.bids| {
      ViewInLookup(s, Buy, IndexOf(b.bids, key));
    }
    if IndexOf(b.asks, key) < |b.asks| {
      ViewInLookup(s, Sell, IndexOf(b.asks, key));
    }
  }

  lemma Found(s: Shape<ClientKey>, b: Book, key: ClientKey)
    requires Ok(s) && b.bids == SideView(s, Buy) && b.asks == SideView(s, Sell) && key in s.lookup
    ensures s.lookup[key] < |s.orders| && !s.orders[s.lookup[key]].isFree && s.Order(s.lookup[key]).key == key
    ensures var o := s.Order(s.lookup[key]).order;
            && o.side != NoSide
            && Matching.Cancel(b, key) ==
                 Step(b.With(o.side, Without(b.On(o.side), key)),
                      [Response(CANCELED, key, b.ticker, o.id, o.side, o.price, QTY_INVALID, o.qty)],
                      [Update(CANCEL, o.id, b.ticker, o.side, o.price, 0, o.priority)])
  {
    assert LookupOk(s, key);
    hide OkBut, SideView, Without;
    var e := s.Order(s.lookup[key]);
    LiveInView(s, s.lookup[key]);
    var v := SideView(s, e.order.side);
    assert IndexOf(v, key) < |v| by {
      var i :| 0 <= i < |v| && v[i] == e;
    }
    ViewInLookup(s, e.order.side, IndexOf(v, key));
    if e.order.side == Sell && IndexOf(b.bids, key) < |b.bids| {
      ViewInLookup(s, Buy, IndexOf(b.bids, key));
    }
  }

  /** If a new order outlasts what it crosses, there is room for the rest in the book it leaves behind. */
  ghost predicate RoomToRest(b: Book, key: ClientKey, side: Side, price: int, qty: nat, n: nat, orderBlocks: nat,
                             levelBlocks: nat)
  {
    Outlasts(b, key, side, price, qty) ==>
      var c := Beyond(b, key, side, price);
      n > 0 && RoomFor(c.bids, c.asks, price, n, orderBlocks, levelBlocks)
  }

  lemma RoomLeft(b: Book, key: ClientKey, side: Side, price: int, qty: nat, n: nat, orderBlocks: nat, levelBlocks: nat,
                 m: Matched)
    requires RoomToRest(b, key, side, price, qty, n, orderBlocks, levelBlocks) && Good(b) && side != NoSide
    requires m == MatchAll(TakerOf(b, key, side, price), b.On(Opposite(side)), qty) && m.leaves > 0
    ensures var c := BookToRest(b, key, side, price, qty);
            n > 0 && RoomFor(c.bids, c.asks, price, n, orderBlocks, levelBlocks)
  {
    RestsBeyond(b, key, side, price, qty);
    hide RoomFor, Outlasts, Beyond;
  }

  /** What the code of add has done after the acknowledgement; sound tells whether the structures agree. */
  ghost predicate Rested(b: Book, key: ClientKey, side: Side, price: int, qty: nat, n: nat, after: Book,
                         responses: seq<Response>, responses': seq<Response>,
                         updates: seq<Update>, updates': seq<Update>, sound: bool)
  {
    && n > 0
    && var c, s := BookToRest(b, key, side, price, qty), AddBySlot(b, key, side, price, qty, n);
       && after == s.book
       && s.responses != [] && responses' == responses + s.responses[1..] && updates' == updates + s.updates
       && s.responses[0] == Response(ACCEPTED, key, b.ticker, b.nextId, side, price, 0, qty)
       && ((Rests(b, key, side, price, qty) ==> SlotQueue(c.bids, c.asks, side, price, n) == (side, price)) ==> sound)
  }

  lemma RestedMeans(b: Book, key: ClientKey, side: Side, price: int, qty: nat, n: nat, after: Book,
                    responses: seq<Response>, responses': seq<Response>, updates: seq<Update>, updates': seq<Update>,
                    sound: bool)
    requires Rested(b, key, side, price, qty, n, after, responses, responses', updates, updates', sound)
    requires responses != []
    requires responses[|responses| - 1] == Response(ACCEPTED, key, b.ticker, b.nextId, side, price, 0, qty)
    ensures n > 0
    ensures var c, s := BookToRest(b, key, side, price, qty), AddBySlot(b, key, side, price, qty, n);
            && after == s.book
            && responses' == responses[..|responses| - 1] + s.responses && updates' == updates + s.updates
            && ((Rests(b, key, side, price, qty) ==> SlotQueue(c.bids, c.asks, side, price, n) == (side, price)) ==>
              sound)
  {
    hide AddBySlot, BookToRest, Rests, SlotQueue, OneLevelPerSlot;
  }

  lemma NothingRested(b: Book, key: ClientKey, side: Side, price: int, qty: nat, n: nat, m: Matched,
                      responses: seq<Response>, updates: seq<Update>)
    requires n > 0 && m == MatchAll(TakerOf(b, key, side, price), b.On(Opposite(side)), qty) && m.leaves == 0
    ensures Rested(b, key, side, price, qty, n, BookToRest(b, key, side, price, qty).(nextId := b.nextId + 1),
                   responses, responses + m.responses, updates, updates + m.updates, true)
  {
    AddWithoutRest(b, key, side, price, qty, n, m);
    hide AddBySlot, BookToRest, Rests, SlotQueue, OneLevelPerSlot, MatchAll;
  }

  lemma RemainderRested(b: Book, key: ClientKey, side: Side, price: int, qty: nat, n: nat, m: Matched, rested: Book,
                        responses: seq<Response>, responses': seq<Response>,
                        updates: seq<Update>, updates': seq<Update>, sound: bool)
    requires n > 0 && m == MatchAll(TakerOf(b, key, side, price), b.On(Opposite(side)), qty) && m.leaves > 0
    requires var c := BookToRest(b, key, side, price, qty);
             && rested == RestBySlot(c, key, side, price, m.leaves, n)
             && (SlotQueue(c.bids, c.asks, side, price, n) == (side, price) ==> sound)
             && responses' == responses + m.responses
             && updates' == updates + m.updates + [Update(ADD, b.nextId, b.ticker, side, price, m.leaves,
                                                          SlotEntry(c, key, side, price, m.leaves, n).order.priority)]
    ensures Rested(b, key, side, price, qty, n, rested.(nextId := b.nextId + 1), responses, responses', updates,
            updates', sound)
  {
    AddWithRest(b, key, side, price, qty, n, m);
    hide AddBySlot, BookToRest, Rests, SlotQueue, OneLevelPerSlot, MatchAll, RestBySlot, SlotEntry;
  }

  lemma NotLive(b: Book, key: ClientKey)
    requires !Live(b, key)
    ensures !HasKey(b.bids, key) && !HasKey(b.asks, key)
  {
  }

  /** Live prices are in different slots, as long as the structures agree. */
  lemma SlotsApartNow(s: Shape<ClientKey>, b: Book, n: nat)
    requires Ok(s) && n == |s.index| && b.bids == SideView(s, Buy) && b.asks == SideView(s, Sell)
    ensures n > 0 && OneLevelPerSlot(b, n)
  {
    assert |s.index| > 0;
    hide OkBut, SideView;
    SidesApartNow(s, Buy, Buy, n);
    SidesApartNow(s, Sell, Sell, n);
    SidesApartNow(s, Buy, Sell, n);
  }

  lemma SidesApartNow(s: Shape<ClientKey>, side: Side, other: Side, n: nat)
    requires Ok(s) && n == |s.index| > 0 && side != NoSide && other != NoSide
    ensures SlotsApart(SideView(s, side), SideView(s, other), n)
  {
    hide OkBut, SideView;
    var a, b := SideView(s, side), SideView(s, other);
    forall i, j | 0 <= i < |a| && 0 <= j < |b| && Slot(a[i].order.price, n) == Slot(b[j].order.price, n)
      ensures a[i].order.price == b[j].order.price
    {
      var l := OrderIndexed(s, side, i);
      var m := OrderIndexed(s, other, j);
    }
  }

  /** Room counted in orders and prices is room counted in blocks. */
  lemma RoomIsThere<K(!new)>(s: Shape<K>, price: int, orderBlocks: nat, levelBlocks: nat)
    requires Ok(s) && |s.index| > 0
    requires RoomFor(SideView(s, Buy), SideView(s, Sell), price, |s.index|, orderBlocks, levelBlocks)
    ensures |LiveSet(s.orders)| < orderBlocks - 1
    ensures s.index[Slot(price, |s.index|)] == NULL ==> |LiveSet(s.levels)| < levelBlocks - 1
  {
    OrderCount(s);
    LevelCount(s);
    SlotLeadsTo(s, Buy, price);
  }

  lemma FreshKey<K(!new)>(s: Shape<K>, key: K)
    requires Ok(s) && !HasKey(SideView(s, Buy), key) && !HasKey(SideView(s, Sell), key)
    ensures key !in s.lookup
  {
    if key in s.lookup {
      assert LookupOk(s, key);
      LiveInView(s, s.lookup[key]);
    }
  }

  /** What is left to match, and what has been sent since rs and us, together make the whole match. */
  ghost predicate Onward(t: Taker, s: seq<Resting>, leaves: nat, responses: seq<Response>, updates: seq<Update>,
      rs: seq<Response>, us: seq<Update>, whole: Matched)
  {
    var m := MatchAll(t, s, leaves);
    && m.leaves == whole.leaves && m.opposite == whole.opposite
    && responses + m.responses == rs + whole.responses && updates + m.updates == us + whole.updates
  }

  /** Nothing more can be matched. */
  ghost predicate Exhausted(t: Taker, leaves: nat, s: seq<Resting>) {
    leaves == 0 || s == [] || !Crosses(t.side, t.price, s[0].order.price)
  }

  lemma MatchBegins(t: Taker, s: seq<Resting>, qty: nat, rs: seq<Response>, us: seq<Update>)
    ensures Onward(t, s, qty, rs, us, rs, us, MatchAll(t, s, qty))
  {
  }

  /** One turn of the loop does what the head of the recursion does, and keeps the side well formed. */
  lemma MatchStep(t: Taker, s: seq<Resting>, leaves: nat, responses: seq<Response>, updates: seq<Update>,
      s': seq<Resting>, leaves': nat, responses': seq<Response>, updates': seq<Update>, rs: seq<Response>,
      us: seq<Update>, whole: Matched)
    requires Wf(Opposite(t.side), s) && s != [] && leaves > 0 && Crosses(t.side, t.price, s[0].order.price)
    requires Onward(t, s, leaves, responses, updates, rs, us, whole)
    requires var fill := Min(leaves, s[0].order.qty);
             && leaves' == leaves - fill
             && s' == (if fill == s[0].order.qty then s[1..] else [Reduced(s[0], fill)] + s[1..])
    requires responses' == responses + FillResponses(t, s[0], leaves)
    requires updates' == updates + FillUpdates(t, s[0], leaves)
    ensures Wf(Opposite(t.side), s') && leaves' < leaves
    ensures Onward(t, s', leaves', responses', updates', rs, us, whole)
  {
    var fill := Min(leaves, s[0].order.qty);
    if fill == s[0].order.qty {
      SuffixWf(Opposite(t.side), s, 1);
    } else {
      ReducedWf(Opposite(t.side), s, 0, fill);
    }
    hide FillResponses, FillUpdates;
  }

  /** When the loop ends, nothing is left to match. */
  lemma NoFurtherMatch(t: Taker, s: seq<Resting>, leaves: nat, responses: seq<Response>, updates: seq<Update>,
      rs: seq<Response>, us: seq<Update>, whole: Matched)
    requires Exhausted(t, leaves, s) && Onward(t, s, leaves, responses, updates, rs, us, whole)
    ensures leaves == whole.leaves && s == whole.opposite
    ensures responses == rs + whole.responses && updates == us + whole.updates
  {
    assert responses + [] == responses && updates + [] == updates;
  }

  /** Changing or removing the head by its key touches nothing else. */
  lemma HeadChanges(side: Side, s: seq<Resting>, qty: nat)
    requires Wf(side, s) && s != []
    ensures s[0].order.side == side
    ensures var e := s[0].(order := s[0].order.(qty := qty));
            && WithQty(s, s[0].key, qty) == [e] + s[1..]
            && Without(WithQty(s, s[0].key, qty), s[0].key) == s[1..]
  {
    var t := WithQty(s, s[0].key, qty);
    forall i | 0 < i < |s|
      ensures s[i].key != s[0].key
    {
      assert Queued(side, s[0], s[i]);
    }
    assert t[1..] == s[1..];
    assert Without(t, s[0].key) == Without(t[1..], s[0].key);
    WithoutAbsent(s[1..], s[0].key);
  }
}
