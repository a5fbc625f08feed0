/** The client's order book: replay of market data on the linked structure, with the best bid and offer beside it. */
module MarketOrderBooks {
  import opened Types
  import opened MemPools
  import opened Rings
  import opened PriceTime
  import opened Shapes
  import opened LinkedBooks
  import opened Replication
  import opened SlotLookups
  import opened TopOfBook
  import opened Matching
  import opened BookRuns
  import Exchange = MEOrderBooks

  // ----- the structure seen from its pools

  /** The blocks of t are those of s, with some released. */
  ghost predicate SameItems<T>(s: Heap<T>, t: Heap<T>) {
    |t| == |s| && forall i: nat :: i < |s| ==> t[i].item == s[i].item
  }

  /** The blocks of t are those of s, with those of part released. */
  ghost predicate Freed<T>(s: Heap<T>, t: Heap<T>, part: seq<nat>) {
    && |t| == |s|
    && forall i: nat {:trigger t[i]} :: i < |s| ==>
         t[i].item == s[i].item && (t[i].isFree <==> s[i].isFree || i in part)
  }

  lemma ReleasedNext<T>(s: Heap<T>, t: Heap<T>, part: seq<nat>, x: nat)
    requires Freed(s, t, part) && x < |s|
    ensures Freed(s, t[x := t[x].(isFree := true)], part + [x])
  {
  }

  lemma StillLive<T>(s: Heap<T>, t: Heap<T>, ring: seq<nat>, i: nat)
    requires IsRing(s, ring) && 1 <= i < |ring| && Freed(s, t, ring[1..i])
    ensures ring[i] < |t| && !t[ring[i]].isFree
    ensures t[ring[i]].item.next == (if i + 1 < |ring| then ring[i + 1] else ring[0])
    ensures ring[1..i + 1] == ring[1..i] + [ring[i]] && ring[i] != ring[0]
  {
    assert LinkedAt(s, ring, i);
  }

  lemma HeadLast<T>(s: Heap<T>, t: Heap<T>, ring: seq<nat>)
    requires IsRing(s, ring) && ring != [] && Freed(s, t, ring[1..])
    ensures ring[0] < |t| && !t[ring[0]].isFree
    ensures Freed(s, t[ring[0] := t[ring[0]].(isFree := true)], ring)
  {
    assert LinkedAt(s, ring, 0);
    assert ring == [ring[0]] + ring[1..];
    var u := t[ring[0] := t[ring[0]].(isFree := true)];
    forall i: nat | i < |s|
      ensures u[i].item == s[i].item && (u[i].isFree <==> s[i].isFree || i in ring)
    {
      assert i in ring <==> i == ring[0] || i in ring[1..];
    }
  }

  /** A live order block is the one its key finds. */
  lemma LiveIsFound<K(!new)>(s: Shape<K>, o: nat)
    requires Ok(s) && o < |s.orders| && !s.orders[o].isFree
    ensures s.Order(o).key in s.lookup && s.lookup[s.Order(o).key] == o
  {
    assert HomeOk(s, o);
  }

  lemma FoundIsLive<K(!new)>(s: Shape<K>, key: K)
    requires Ok(s) && key in s.lookup
    ensures s.lookup[key] < |s.orders| && !s.orders[s.lookup[key]].isFree && s.Order(s.lookup[key]).key == key
  {
    assert LookupOk(s, key);
  }

  /** A live level block is in the list of its side. */
  lemma LiveLevelIsListed<K(!new)>(s: Shape<K>, l: nat)
    requires Ok(s) && l < |s.levels| && !s.levels[l].isFree
    ensures s.Level(l).side != NoSide && l in s.RingOf(s.Level(l).side)
  {
    assert LevelOk(s, l);
  }

  /** The index is empty exactly when the book is. */
  lemma IndexEmptyIff<K(!new)>(s: Shape<K>)
    requires Ok(s)
    ensures (forall i :: 0 <= i < |s.index| ==> s.index[i] == NULL) <==>
            SideView(s, Buy) == [] && SideView(s, Sell) == []
  {
    if SideView(s, Buy) != [] {
      OrderIsIndexed(s, Buy);
    }
    if SideView(s, Sell) != [] {
      OrderIsIndexed(s, Sell);
    }
    forall i: nat | i < |s.index| && s.index[i] != NULL
      ensures SideView(s, Buy) != [] || SideView(s, Sell) != []
    {
      assert IndexOk(s, i);
      hide OkBut, SideView;
      var e := LevelInView(s, s.index[i]);
    }
  }

  lemma OrderIsIndexed<K(!new)>(s: Shape<K>, side: Side)
    requires Ok(s) && side != NoSide && SideView(s, side) != []
    ensures exists i :: 0 <= i < |s.index| && s.index[i] != NULL
  {
    var l := s.RingOf(side)[0];
    assert l in s.RingOf(side) && l in s.fifo && LevelOk(s, l);
  }

  /** The structure left by CLEAR is sound exactly when nothing is left in the price index. */
  lemma ClearedOkIff<K(!new)>(s: Shape<K>)
    requires LiveSet(s.orders) == {} && LiveSet(s.levels) == {} && |s.index| > 0
    requires s.lookup == map[] && s.fifo == map[] && s.bids == s.asks == NULL && s.bidRing == s.askRing == []
    ensures Ok(s) <==> forall i :: 0 <= i < |s.index| ==> s.index[i] == NULL
  {
    if forall i :: 0 <= i < |s.index| ==> s.index[i] == NULL {
      EmptyOk(s);
    } else {
      var i: nat :| 0 <= i < |s.index| && s.index[i] != NULL;
      assert !IndexOk(s, i);
    }
  }

  /** The total quantity of the orders at the given blocks. */
  ghost function QtySum<K>(orders: Heap<Entry<K>>, f: seq<nat>): nat {
    if f == [] then 0
    else QtySum(orders, f[..|f| - 1]) + if f[|f| - 1] < |orders| then orders[f[|f| - 1]].item.val.order.qty else 0
  }

  lemma {:induction false} QtySumIs<K>(orders: Heap<Entry<K>>, f: seq<nat>, price: int)
    requires forall o :: o in f ==> o < |orders| && orders[o].item.val.order.price == price
    ensures QtySum(orders, f) == QtyAt(Entries(orders, f), price)
  {
    if f != [] {
      var init, o := f[..|f| - 1], f[|f| - 1];
      assert forall p :: p in init ==> p in f;
      QtySumIs(orders, init, price);
      assert f == init + [o] && o in f;
      EntriesConcat(orders, init, [o]);
      assert Entries(orders, [o]) == [orders[o].item.val];
      QtyAtConcat(Entries(orders, init), Entries(orders, [o]), price);
    }
  }

  /** The quote of a side is the price of its first level and the sum over that level's orders. */
  lemma TopIsFirstLevel<K(!new)>(s: Shape<K>, side: Side)
    requires Ok(s) && side != NoSide && s.HeadOf(side) != NULL
    ensures 0 <= s.HeadOf(side) < |s.levels| && s.HeadOf(side) in s.fifo
    ensures var l: nat := s.HeadOf(side);
            && IsRing(s.orders, s.fifo[l]) && s.fifo[l] != [] && s.Level(l).first == s.fifo[l][0]
            && Top(SideView(s, side)) == Quote(s.Level(l).price, QtySum(s.orders, s.fifo[l]) % TWO_32)
  {
    var ring := s.RingOf(side);
    var l := ring[0];
    FirstLevel(s, side);
    hide OkBut, LiveSet, IsRing, QtySum;
    var f, price := s.fifo[l], s.Level(l).price;
    QtySumIs(s.orders, f, price);
    FlatAround(s.orders, s.fifo, ring, 0);
    var rest := Flat(s.orders, s.fifo, ring[1..]);
    FirstLevelOnly(s, side);
    assert ring[..0] == [];
    assert Flat(s.orders, s.fifo, []) == [];
    hide Ok, Flat, Entries, Top;
    assert SideView(s, side) == Entries(s.orders, f) + rest;
    TopOfConcat(Entries(s.orders, f), rest, price);
  }

  lemma TopOfConcat<K>(a: seq<Entry<K>>, b: seq<Entry<K>>, price: int)
    requires a + b != [] && (a + b)[0].order.price == price && forall i :: 0 <= i < |b| ==> b[i].order.price != price
    ensures Top(a + b) == Quote(price, QtyAt(a, price) % TWO_32)
  {
    NoneAt(b, price);
    QtyAtConcat(a, b, price);
  }

  lemma FirstLevel<K(!new)>(s: Shape<K>, side: Side)
    requires Ok(s) && side != NoSide && s.HeadOf(side) != NULL
    ensures var ring := s.RingOf(side);
            && ring != [] && s.HeadOf(side) == ring[0] < |s.levels| && ring[0] in s.fifo
            && var l, f := ring[0], s.fifo[ring[0]];
               && IsRing(s.orders, f) && f != [] && s.Level(l).first == f[0]
               && (forall o :: o in f ==> o < |s.orders| && s.Order(o).order.price == s.Level(l).price)
               && SideView(s, side) != [] && SideView(s, side)[0].order.price == s.Level(l).price
  {
    var l := s.RingOf(side)[0];
    assert l in s.RingOf(side) && LevelOk(s, l) && RungOk(s, side, l);
    HeadView(s, side);
    forall o | o in s.fifo[l]
      ensures MemberOk(s, l, o)
    {
    }
    assert MemberOk(s, l, s.fifo[l][0]);
  }

  /** No order behind the first level has its price. */
  lemma FirstLevelOnly<K(!new)>(s: Shape<K>, side: Side)
    requires Ok(s) && side != NoSide && s.RingOf(side) != [] && s.RingOf(side)[0] < |s.levels|
    ensures var rest := Flat(s.orders, s.fifo, s.RingOf(side)[1..]);
            forall i :: 0 <= i < |rest| ==> rest[i].order.price != s.Level(s.RingOf(side)[0]).price
  {
    var ring := s.RingOf(side);
    var rest := Flat(s.orders, s.fifo, ring[1..]);
    forall i | 0 <= i < |rest|
      ensures rest[i].order.price != s.Level(ring[0]).price
    {
      var l := FlatPrice(s, NULL, NULL, ring[1..], i);
      var k :| 0 <= k < |ring[1..]| && ring[1..][k] == l;
      assert Ordered(side, s.levels, ring[0], ring[k + 1]);
    }
  }

  class MarketOrderBook {
    const tickerId: nat
    const maxIds: nat
    const book: LinkedBook<nat>
    var bbo: BBO

    ghost function Repr(): set<object> {
      {this, book, book.orderPool, book.orderPool.store, book.levelPool, book.levelPool.store, book.priceIndex}
    }

    /** The abstract book. */
    ghost function State(): Pub
      reads Repr()
    {
      Pub(book.View(Buy), book.View(Sell), 0)
    }

    function SizesOf(): Sizes {
      Sizes(book.priceIndex.Length, book.orderPool.store.Length, book.levelPool.store.Length, maxIds)
    }

    /** The structure is sound, and every order is found under its own id, which has a slot in the array of orders. */
    ghost predicate Valid()
      reads Repr()
    {
      book.Valid() && forall id :: id in book.lookup ==> id < maxIds
    }

    constructor (tickerId: nat, maxLevels: nat, maxOrders: nat, maxIds: nat)
      requires maxLevels > 0 && maxOrders > 0
      ensures Valid() && State() == Pub([], [], 0) && bbo == BBO(NoQuote, NoQuote) && fresh(Repr())
      ensures SizesOf() == Sizes(maxLevels, maxOrders, maxLevels, maxIds)
    {
      this.tickerId, this.maxIds := tickerId, maxIds;
      book := new LinkedBook(maxLevels, maxOrders, Entry(ID_INVALID,
          MktOrder(ID_INVALID, NoSide, PRICE_INVALID, QTY_INVALID, PRIORITY_INVALID)));
      bbo := BBO(NoQuote, NoQuote);
    }

    /** CLEAR, the orders: every live order block is released exactly once. */
    method ReleaseOrders()
      requires Valid()
      modifies book`lookup, book.orderPool.store
      ensures book.lookup == map[] && book.orderPool.Valid()
      ensures LiveSet(book.orderPool.Blocks()) == {} && SameItems(old(book.orderPool.Blocks()), book.orderPool.Blocks())
    {
      ghost var s := book.Snap();
      var pool := book.orderPool;
      for id := 0 to maxIds
        invariant book.lookup == s.lookup && pool.Valid() && SameItems(s.orders, pool.Blocks())
        invariant forall o: nat :: o < |s.orders| ==>
                    (pool.Blocks()[o].isFree <==> s.orders[o].isFree || s.Order(o).key < id)
      {
        hide OkBut, LiveSet;
        forall o: nat | o < |s.orders| && !s.orders[o].isFree && s.Order(o).key == id
          ensures id in s.lookup && s.lookup[id] == o
        {
          LiveIsFound(s, o);
        }
        if id in book.lookup {
          FoundIsLive(s, id);
          pool.Deallocate(book.lookup[id]);
        }
      }
      forall o: nat | o < |s.orders|
        ensures pool.Blocks()[o].isFree
      {
        if !s.orders[o].isFree {
          LiveIsFound(s, o);
        }
      }
      book.lookup := map[];
    }

    /** CLEAR, the levels of one side: a walk from behind the head back to it releases every level exactly once. */
    method ReleaseLevels(side: Side, ghost ring: seq<nat>)
      requires book.levelPool.Valid() && IsRing(book.levelPool.Blocks(), ring)
      requires book.Best(side) == if ring == [] then NULL else ring[0]
      modifies book.levelPool.store
      ensures book.levelPool.Valid() && Freed(old(book.levelPool.Blocks()), book.levelPool.Blocks(), ring)
    {
      hide LiveSet, IsRing, Freed;
      var pool := book.levelPool;
      ghost var s := pool.Blocks();
      NoneReleased(s);
      if book.Best(side) == NULL {
        return;
      }
      Starts(s, ring);
      var first: nat := book.Best(side);
      var l: nat := pool.store[first].item.next;
      ghost var i := 1;
      while l != first
        invariant pool.Valid() && 1 <= i <= |ring| && l == (if i < |ring| then ring[i] else ring[0])
        invariant Freed(s, pool.Blocks(), ring[1..i])
        decreases |ring| - i
      {
        StillLive(s, pool.Blocks(), ring, i);
        ReleasedNext(s, pool.Blocks(), ring[1..i], l);
        pool.Deallocate(l);
        l := pool.store[l].item.next;
        i := i + 1;
      }
      WholeLap(s, ring, i);
      HeadLast(s, pool.Blocks(), ring);
      pool.Deallocate(first);
    }

    /** What CLEAR leaves of a book s: the structure is gone, the blocks and the price index are as they were. */
    ghost predicate Cleared(s: Shape<nat>)
      reads Repr()
    {
      && book.Separate() && book.orderPool.Valid() && book.levelPool.Valid()
      && Ok(s) && book.priceIndex[..] == s.index && book.lookup == map[] && book.bids == book.asks == NULL
      && book.bidRing == book.askRing == [] && book.fifo == map[]
      && SameItems(s.orders, book.orderPool.Blocks()) && SameItems(s.levels, book.levelPool.Blocks())
      && LiveSet(book.orderPool.Blocks()) == {} && LiveSet(book.levelPool.Blocks()) == {}
      && book.orderPool.nextFreeIndex < |s.orders| && s.orders[book.orderPool.nextFreeIndex].isFree
    }

    method ReleaseBothSides(ghost bidRing: seq<nat>, ghost askRing: seq<nat>)
      requires book.levelPool.Valid() && IsRing(book.levelPool.Blocks(), bidRing)
      requires IsRing(book.levelPool.Blocks(), askRing)
      requires book.bids == (if bidRing == [] then NULL else bidRing[0])
      requires book.asks == (if askRing == [] then NULL else askRing[0])
      requires forall l :: l in bidRing ==> l !in askRing
      modifies book.levelPool.store
      ensures book.levelPool.Valid() && Freed(old(book.levelPool.Blocks()), book.levelPool.Blocks(), bidRing + askRing)
    {
      hide Freed, IsRing, LiveSet;
      ghost var before := book.levelPool.Blocks();
      ReleaseLevels(Buy, bidRing);
      ghost var mid := book.levelPool.Blocks();
      OtherRing(before, mid, bidRing, askRing);
      ReleaseLevels(Sell, askRing);
      BothFreed(before, mid, book.levelPool.Blocks(), bidRing, askRing);
    }

    /** CLEAR. */
    method Clear()
      requires Valid()
      modifies book, book.orderPool.store, book.levelPool.store
      ensures State() == Pub([], [], 0) && book.lookup == map[] && book.Best(Buy) == book.Best(Sell) == NULL
      ensures LiveSet(book.orderPool.Blocks()) == {} && LiveSet(book.levelPool.Blocks()) == {}
      ensures Valid() <==> old(State()) == Pub([], [], 0)
      ensures Cleared(old(book.Snap()))
    {
      ghost var s := book.Snap();
      hide Ok, LiveSet, SideView, Freed, IsRing, SameItems;
      RingsLinked(s);
      ReleaseOrders();
      ReleaseBothSides(s.bidRing, s.askRing);
      AllReleased(s, book.levelPool.Blocks());
      book.bids, book.asks := NULL, NULL;
      book.bidRing, book.askRing, book.fifo := [], [], map[];
      ClearedShape(s, book.Snap());
    }

    /** The block allocated for the first order after CLEAR, and the code of addOrder up to its branches. */
    method AllocateAfterClear(u: Update, ghost s: Shape<nat>) returns (o: nat)
      requires Cleared(s) && book.orderPool.store.Length > 1
      modifies book.orderPool, book.orderPool.store
      ensures book.orderPool.Valid() && o < |s.orders| == book.orderPool.store.Length && s.orders[o].isFree
      ensures book.orderPool.store[o] == ObjectBlock(Node(Entry(u.id, OrderOf(u)), NULL, NULL), false)
      ensures forall i: nat :: i < |s.orders| && i != o ==> book.orderPool.store[i].item == s.orders[i].item
    {
      var ok;
      ok, o := book.orderPool.Allocate(Node(Entry(u.id, OrderOf(u)), NULL, NULL));
    }

    /**
     * onMarketUpdate for the first ADD after a CLEAR: it is seen if and only if no order was in its price slot before
     * the CLEAR. Otherwise it is queued at a released level; it is found by its id, but the heads stay null.
     */
    method AddAfterClear(u: Update, ghost s: Shape<nat>)
      requires Cleared(s) && u.kind == ADD && u.side != NoSide && u.id < maxIds
      requires book.orderPool.store.Length > 1 && book.levelPool.store.Length > 1
      modifies book, book.orderPool, book.orderPool.store, book.levelPool, book.levelPool.store, book.priceIndex
      ensures u.id in book.lookup
      ensures SlotUsed(SideView(s, Buy), SideView(s, Sell), u.price, |s.index|) ==>
                State() == Pub([], [], 0) && book.Best(Buy) == book.Best(Sell) == NULL
      ensures !SlotUsed(SideView(s, Buy), SideView(s, Sell), u.price, |s.index|) ==>
                book.View(u.side) == [Entry(u.id, OrderOf(u))] && book.View(Opposite(u.side)) == []
    {
      hide OkBut, SideView, LiveSet, SlotUsed, SameItems;
      SlotLeadsTo(s, u.side, u.price);
      SameSizes(s.levels, book.levelPool.Blocks());
      var o := AllocateAfterClear(u, s);
      var l := book.OrdersAtPrice(u.price);
      if l == NULL {
        OpenAfterClear(u, o);
      } else {
        StaleLevel(s, book.levelPool.Blocks(), l, o);
        book.QueueAt(o, l);
        NothingSeen(book.Snap());
      }
    }

    /** The other branch of addOrder after CLEAR: the order opens a level at an empty slot. */
    method OpenAfterClear(u: Update, o: nat)
      requires book.Separate() && book.levelPool.Valid() && LiveSet(book.levelPool.Blocks()) == {}
      requires book.levelPool.store.Length > 1
      requires book.orderPool.Valid() && book.bids == book.asks == NULL && book.bidRing == book.askRing == []
      requires book.fifo == map[]
      requires o < book.orderPool.store.Length && u.side != NoSide
      requires book.orderPool.store[o] == ObjectBlock(Node(Entry(u.id, OrderOf(u)), NULL, NULL), false)
      modifies book, book.orderPool.store, book.levelPool, book.levelPool.store, book.priceIndex
      ensures u.id in book.lookup
      ensures book.View(u.side) == [Entry(u.id, OrderOf(u))] && book.View(Opposite(u.side)) == []
    {
      hide LiveSet;
      WriteNext(book.orderPool, o, o);
      WritePrev(book.orderPool, o, o);
      var ok, x := book.levelPool.Allocate(Node(LevelVal(u.side, u.price, o), NULL, NULL));
      ghost var k := book.AddOrdersAtPrice(x);
      book.lookup := book.lookup[u.id := o];
      book.fifo := book.fifo[x := [o]];
      OnlyOrderSeen(book.Snap(), u.side, x, o);
    }

    /** The quantities of a queue, added up in 32 bits from the first order round. */
    method QueueQty(first: nat, ghost f: seq<nat>) returns (qty: nat)
      requires IsRing(book.orderPool.Blocks(), f) && f != [] && f[0] == first
      ensures qty == QtySum(book.orderPool.Blocks(), f) % TWO_32
    {
      hide IsRing, QtySum;
      var pool := book.orderPool;
      ghost var orders := pool.Blocks();
      NextInQueue(orders, f, 0);
      qty := pool.store[first].item.val.order.qty % TWO_32;
      var order := pool.store[first].item.next;
      ghost var i := 1;
      while order != first
        invariant 1 <= i <= |f| && order == (if i < |f| then f[i] else f[0])
        invariant qty == QtySum(orders, f[..i]) % TWO_32
        decreases |f| - i
      {
        NextInQueue(orders, f, i);
        SumWraps(QtySum(orders, f[..i]), pool.store[order].item.val.order.qty);
        qty := (qty + pool.store[order].item.val.order.qty) % TWO_32;
        order := pool.store[order].item.next;
        i := i + 1;
      }
      WholeLap(orders, f, i);
      assert f[..i] == f;
    }

    /** The quote of one side, as updateBBO computes it. */
    method QuoteOf(side: Side) returns (quote: Quote)
      requires side != NoSide && (book.Best(side) == NULL || book.Valid())
      ensures book.Best(side) == NULL ==> quote == NoQuote
      ensures book.Best(side) != NULL ==> quote == Top(book.View(side))
    {
      if book.Best(side) == NULL {
        return NoQuote;
      }
      TopIsFirstLevel(book.Snap(), side);
      hide Ok, OkBut, SideView, Top, LiveSet, IsRing, QtySum;
      var level := book.levelPool.store[book.Best(side)].item.val;
      var qty := QueueQty(level.first, book.fifo[book.Best(side)]);
      return Quote(level.price, qty);
    }

    /** updateBBO. */
    method UpdateBBO(updateBid: bool, updateAsk: bool)
      requires book.Valid() || book.Best(Buy) == book.Best(Sell) == NULL
      modifies this`bbo
      ensures bbo.bid == if !updateBid then old(bbo.bid) else if book.Best(Buy) == NULL then NoQuote
              else Top(book.View(Buy))
      ensures bbo.ask == if !updateAsk then old(bbo.ask) else if book.Best(Sell) == NULL then NoQuote
              else Top(book.View(Sell))
    {
      hide OkBut, SideView, Top;
      if updateBid {
        var quote := QuoteOf(Buy);
        bbo := bbo.(bid := quote);
      }
      if updateAsk {
        var quote := QuoteOf(Sell);
        bbo := bbo.(ask := quote);
      }
    }

    /** Whether the update is at or inside the best price of a non-empty side. */
    method IsTouched(side: Side, u: Update) returns (touched: bool)
      requires book.Valid() && side != NoSide
      ensures touched == Touches(side, book.View(side), u)
    {
      hide OkBut, SideView;
      HeadView(book.Snap(), side);
      BestPrice(book.Snap(), side);
      touched := book.Best(side) != NULL && u.side == side
                 && AtLeast(side, u.price, book.levelPool.store[book.Best(side)].item.val.price);
    }

    /** The book part of onMarketUpdate, for everything but CLEAR. */
    method ApplyUpdate(u: Update)
      requires Valid() && Accepted(this, u) && u.kind != CLEAR
      modifies Repr() - {this}
      ensures Valid() && State().bids == Apply(old(State()), u).bids && State().asks == Apply(old(State()), u).asks
    {
      hide OkBut, SideView, Insert, Appended, Without, WithQty, LiveSet;
      ghost var p := State();
      match u.kind {
        case ADD =>
          AppendedIsInsert(p.On(u.side), Entry(u.id, OrderOf(u)));
          book.Add(Entry(u.id, OrderOf(u)));
        case MODIFY =>
          FoundById(book.Snap(), p, u.id, u.qty);
          book.SetQty(book.lookup[u.id], u.qty);
        case CANCEL =>
          FoundById(book.Snap(), p, u.id, u.qty);
          book.RemoveOrder(book.lookup[u.id]);
        case _ =>
      }
    }

    /**
     * onMarketUpdate: the book follows the update, and so do the quotes as far as the flags allow. The structure
     * stays sound unless a CLEAR met a book that was not empty.
     */
    method OnMarketUpdate(u: Update)
      requires Valid() && Accepted(this, u)
      modifies Repr()
      ensures State().bids == Apply(old(State()), u).bids && State().asks == Apply(old(State()), u).asks
      ensures bbo == NextBBO(old(State()), old(bbo), u)
      ensures forall side {:trigger bbo.On(side)} ::
                side != NoSide && u.kind != TRADE && Touches(side, old(State()).On(side), u) ==>
                  bbo.On(side) == Top(State().On(side))
      ensures u.kind == CLEAR ==> Cleared(old(book.Snap()))
      ensures Valid() <==> u.kind != CLEAR || old(State()) == Pub([], [], 0)
    {
      hide OkBut, SideView, Top, LiveSet, Accepted;
      var bidUpdated := IsTouched(Buy, u);
      var askUpdated := IsTouched(Sell, u);
      if u.kind == TRADE {
        return;
      }
      if u.kind == CLEAR {
        Clear();
        EmptyTops();
      } else {
        ApplyUpdate(u);
        HeadView(book.Snap(), Buy);
        HeadView(book.Snap(), Sell);
        EmptyTops();
      }
      UpdateBBO(bidUpdated, askUpdated);
    }

    /**
     * The loop of the trade engine over the updates of one ticker: the book follows a whole stream as long as its
     * orders can be added, the quotes are those of the abstract stream, and if the stream is that of the exchange
     * for some requests, the book shows exactly the orders that rest there.
     */
    method FollowUpdates(us: seq<Update>, ghost p: Pub)
      requires Valid() && p.bids == State().bids && p.asks == State().asks
      requires GoodPub(p) && FitsAll(p, us) && CanFollow(p, us, SizesOf())
      modifies Repr()
      ensures Valid() && State().bids == ApplyAll(p, us).bids && State().asks == ApplyAll(p, us).asks
      ensures bbo == BBO(QuoteAfter(Buy, p, old(bbo).bid, us), QuoteAfter(Sell, p, old(bbo).ask, us))
      ensures forall b: Book, rs: seq<Request> {:trigger Run(b, rs)} ::
                Good(b) && Mirrors(p, b) && AllAdmissible(b, rs) && us == Run(b, rs).updates ==>
                  State().bids == Project(Run(b, rs).book.bids) && State().asks == Project(Run(b, rs).book.asks)
    {
      ghost var q := p;
      assert us[0..] == us;
      hide OkBut, SideView, LiveSet, Accepted, Apply, ApplyAll, QuoteAfter, Fits, FitsAll, CanAdd, CanFollow, NextBBO,
          GoodPub;
      for i := 0 to |us|
        invariant Valid() && q.bids == State().bids && q.asks == State().asks
        invariant GoodPub(q) && FitsAll(q, us[i..]) && CanFollow(q, us[i..], SizesOf())
        invariant ApplyAll(q, us[i..]) == ApplyAll(p, us)
        invariant QuoteAfter(Buy, q, bbo.bid, us[i..]) == QuoteAfter(Buy, p, old(bbo).bid, us)
        invariant QuoteAfter(Sell, q, bbo.ask, us[i..]) == QuoteAfter(Sell, p, old(bbo).ask, us)
      {
        assert us[i..][0] == us[i] && us[i..][1..] == us[i + 1..];
        OneFollowed(q, us[i..], bbo, SizesOf());
        FittingIsAccepted(this, q, us[i]);
        NextIdDoesNotMatter(q, State(), bbo, us[i]);
        NotCleared(q, us[i]);
        OnMarketUpdate(us[i]);
        q := Apply(q, us[i]);
      }
      assert us[|us|..] == [];
      NothingFollows(q, bbo);
      forall b: Book, rs: seq<Request> | Good(b) && Mirrors(p, b) && AllAdmissible(b, rs) && us == Run(b, rs).updates
        ensures State().bids == Project(Run(b, rs).book.bids) && State().asks == Project(Run(b, rs).book.asks)
      {
        RunMirrored(b, rs, p);
      }
    }
  }

  const OrderOne: Update := Update(ADD, 1, 0, Buy, 100, 5, 1)
  const OrderTwo: Update := Update(ADD, 2, 0, Buy, 100, 7, 1)
  const ClearAll: Update :=
    Update(CLEAR, ID_INVALID, 0, NoSide, PRICE_INVALID, QTY_INVALID, PRIORITY_INVALID)

  /** A book of 256 slots in which one order rests. */
  method BookWithOne() returns (m: MarketOrderBook)
    ensures fresh(m) && fresh(m.Repr()) && m.Valid() && m.SizesOf() == Sizes(256, 1000, 256, 1000)
    ensures m.State() == Pub([Entry(1, OrderOf(OrderOne))], [], 0)
  {
    m := new MarketOrderBook(0, 256, 1000, 1000);
    FirstIsAccepted(m, OrderOne);
    assert Insert<nat>([], Entry(1, OrderOf(OrderOne))) == [Entry(1, OrderOf(OrderOne))];
    hide OkBut, SideView, LiveSet, Ok, Accepted, Insert, NextBBO;
    m.OnMarketUpdate(OrderOne);
  }

  /** Order 1 rests at 100, the book is cleared, and order 2 comes at 100: it is filed, but nobody sees it. */
  method OrderLostAfterClear() returns (m: MarketOrderBook)
    ensures fresh(m) && 2 in m.book.lookup
    ensures m.State() == Pub([], [], 0) && m.book.Best(Buy) == m.book.Best(Sell) == NULL
  {
    m := BookWithOne();
    ghost var s := m.book.Snap();
    OneInSlot(m.State().bids, m.State().asks, 100, 256);
    ClearFits(m, ClearAll);
    hide OkBut, SideView, LiveSet, Ok, Accepted, SlotUsed, NextBBO;
    m.OnMarketUpdate(ClearAll);
    m.AddAfterClear(OrderTwo, s);
  }

  /** What the exchange's stream, or a snapshot, may ask of the structure. */
  ghost predicate Accepted(m: MarketOrderBook, u: Update)
    reads m.Repr()
  {
    match u.kind
    case ADD =>
      && u.side != NoSide && u.id < m.maxIds && u.id !in m.book.lookup && m.book.priceIndex.Length > 0
      && m.book.Target(u.side, u.price) == (u.side, u.price) && m.book.Room(u.price)
    case MODIFY => u.id in m.book.lookup
    case CANCEL => u.id in m.book.lookup
    case _ => true
  }

  /** An id that finds an order is on the side of that order only. */
  lemma FoundById(s: Shape<nat>, p: Pub, id: nat, qty: nat)
    requires Ok(s) && id in s.lookup && p.bids == SideView(s, Buy) && p.asks == SideView(s, Sell)
    ensures s.lookup[id] < |s.orders| && !s.orders[s.lookup[id]].isFree && s.Order(s.lookup[id]).key == id
    ensures var side := s.Order(s.lookup[id]).order.side;
            && side != NoSide
            && WithQty(p.On(Opposite(side)), id, qty) == p.On(Opposite(side))
            && Without(p.On(Opposite(side)), id) == p.On(Opposite(side))
  {
    FoundIsLive(s, id);
    LiveInView(s, s.lookup[id]);
    hide OkBut, SideView;
    var other := Opposite(s.Order(s.lookup[id]).order.side);
    forall i | 0 <= i < |p.On(other)|
      ensures p.On(other)[i].key != id
    {
      ViewInLookup(s, other, i);
    }
    WithoutAbsent(p.On(other), id);
    assert WithQty(p.On(other), id, qty) == p.On(other);
  }

  lemma NoneReleased<T>(s: Heap<T>)
    ensures Freed(s, s, [])
  {
  }

  lemma Starts<T>(s: Heap<T>, ring: seq<nat>)
    requires IsRing(s, ring) && ring != []
    ensures ring[0] < |s| && s[ring[0]].item.next == (if 1 < |ring| then ring[1] else ring[0])
    ensures ring[1..1] == []
  {
    assert LinkedAt(s, ring, 0);
  }

  /** A walk that is back at the head has passed every other node. */
  lemma WholeLap<T>(s: Heap<T>, ring: seq<nat>, i: nat)
    requires IsRing(s, ring) && 1 <= i <= |ring| && (if i < |ring| then ring[i] else ring[0]) == ring[0]
    ensures i == |ring| && ring[1..i] == ring[1..]
  {
    assert forall k :: 1 <= k < |ring| ==> ring[0] != ring[k];
  }

  /** Releasing one ring leaves another one linked. */
  lemma OtherRing<T>(s: Heap<T>, t: Heap<T>, released: seq<nat>, ring: seq<nat>)
    requires IsRing(s, ring) && Freed(s, t, released) && forall l :: l in released ==> l !in ring
    ensures IsRing(t, ring)
  {
    forall i: nat | i < |ring|
      ensures LinkedAt(t, ring, i)
    {
      assert LinkedAt(s, ring, i);
      assert ring[i] in ring;
    }
  }

  lemma NothingSeen<K(!new)>(s: Shape<K>)
    requires s.bidRing == [] && s.askRing == []
    ensures SideView(s, Buy) == [] && SideView(s, Sell) == []
  {
  }

  /** The two sides are separate rings, each reached from its head. */
  lemma RingsLinked<K(!new)>(s: Shape<K>)
    requires Ok(s)
    ensures IsRing(s.levels, s.bidRing) && IsRing(s.levels, s.askRing)
    ensures s.bids == (if s.bidRing == [] then NULL else s.bidRing[0])
    ensures s.asks == (if s.askRing == [] then NULL else s.askRing[0])
    ensures forall l :: l in s.bidRing ==> l !in s.askRing
  {
    SidesApart(s);
    SideLinked(s, Buy);
    SideLinked(s, Sell);
  }

  /** What CLEAR makes of a shape shows no order, and agrees with its index exactly when no order was there. */
  lemma ClearedShape<K(!new)>(s: Shape<K>, t: Shape<K>)
    requires Ok(s) && t.index == s.index && LiveSet(t.orders) == {} && LiveSet(t.levels) == {}
    requires t.lookup == map[] && t.fifo == map[] && t.bids == t.asks == NULL && t.bidRing == t.askRing == []
    ensures Ok(t) <==> SideView(s, Buy) == [] && SideView(s, Sell) == []
    ensures SideView(t, Buy) == [] && SideView(t, Sell) == []
  {
    assert |s.index| > 0;
    hide LiveSet, SideView, Ok;
    IndexEmptyIff(s);
    ClearedOkIff(t);
    NothingSeen(t);
  }

  lemma SideLinked<K(!new)>(s: Shape<K>, side: Side)
    requires Ok(s) && side != NoSide
    ensures IsRing(s.levels, s.RingOf(side))
    ensures s.HeadOf(side) == (if s.RingOf(side) == [] then NULL else s.RingOf(side)[0])
  {
  }

  /** No level is on both sides. */
  lemma SidesApart<K(!new)>(s: Shape<K>)
    requires Ok(s)
    ensures forall l :: l in s.bidRing ==> l !in s.askRing
  {
    forall side, l | side != NoSide && l in s.RingOf(side)
      ensures RungOk(s, side, l)
    {
      var i :| 0 <= i < |s.RingOf(side)| && s.RingOf(side)[i] == l;
      assert LadderOk(s, side);
    }
    forall l | l in s.bidRing
      ensures l !in s.askRing
    {
      assert RungOk(s, Buy, l);
      assert l in s.askRing ==> RungOk(s, Sell, l);
    }
  }

  lemma BothFreed<T>(s: Heap<T>, mid: Heap<T>, t: Heap<T>, bidRing: seq<nat>, askRing: seq<nat>)
    requires Freed(s, mid, bidRing) && Freed(mid, t, askRing)
    ensures Freed(s, t, bidRing + askRing)
  {
  }

  lemma AllReleased<K(!new)>(s: Shape<K>, t: Heap<LevelVal>)
    requires Ok(s) && Freed(s.levels, t, s.bidRing + s.askRing)
    ensures LiveSet(t) == {} && SameItems(s.levels, t)
  {
    forall l: nat | l < |t|
      ensures t[l].isFree
    {
      if !s.levels[l].isFree {
        LiveLevelIsListed(s, l);
      }
    }
  }

  lemma NextInQueue<K>(orders: Heap<Entry<K>>, f: seq<nat>, i: nat)
    requires IsRing(orders, f) && i < |f|
    ensures f[i] < |orders| && orders[f[i]].item.next == (if i + 1 < |f| then f[i + 1] else f[0])
    ensures QtySum(orders, f[..i + 1]) == QtySum(orders, f[..i]) + orders[f[i]].item.val.order.qty
    ensures QtySum(orders, f[..0]) == 0
  {
    assert LinkedAt(orders, f, i);
    assert f[..i + 1][..i] == f[..i];
  }

  lemma SameSizes<T>(s: Heap<T>, t: Heap<T>)
    requires SameItems(s, t)
    ensures |t| == |s|
  {
  }

  /** The level that a stale slot leads to, and the FIFO it once had, are in blocks that a new order does not share. */
  lemma StaleLevel<K(!new)>(s: Shape<K>, levels: Heap<LevelVal>, l: nat, o: nat)
    requires Ok(s) && SameItems(s.levels, levels) && l in s.index && o < |s.orders| && s.orders[o].isFree
    ensures l < |levels|
    ensures var first := levels[l].item.val.first;
            && 0 <= first < |s.orders| && first != o
            && 0 <= s.orders[first].item.prev < |s.orders| && s.orders[first].item.prev != o
  {
    var i :| 0 <= i < |s.index| && s.index[i] == l;
    assert IndexOk(s, i) && LevelOk(s, l);
    var f := s.fifo[l];
    assert LinkedAt(s.orders, f, 0) && LinkedAt(s.orders, f, Rings.Before(0, |f|));
  }

  /** A side with one level and one order. */
  lemma OnlyOrderSeen<K(!new)>(s: Shape<K>, side: Side, x: nat, o: nat)
    requires side != NoSide && s.RingOf(side) == [x] && s.RingOf(Opposite(side)) == [] && o < |s.orders|
    requires x in s.fifo && s.fifo[x] == [o]
    ensures SideView(s, side) == [s.Order(o)] && SideView(s, Opposite(side)) == []
  {
    assert Flat(s.orders, s.fifo, [x]) == Entries(s.orders, [o]) + Flat(s.orders, s.fifo, []);
    assert Entries(s.orders, [o]) == [s.Order(o)] + Entries(s.orders, []);
  }

  lemma ClearFits(m: MarketOrderBook, u: Update)
    requires u.kind == CLEAR
    ensures Accepted(m, u)
  {
  }

  /** The first order of a new book can always be added. */
  lemma FirstIsAccepted(m: MarketOrderBook, u: Update)
    requires m.Valid() && m.State() == Pub([], [], 0) && u.kind == ADD && u.side != NoSide && u.qty > 0
    requires u.priority == 1
    requires m.SizesOf().slots > 0 && m.SizesOf().orderBlocks > 1 && m.SizesOf().levelBlocks > 1 && u.id < m.maxIds
    ensures Accepted(m, u)
  {
    assert PricesOf<nat>([]) == {};
    FittingIsAccepted(m, Pub([], [], 0), u);
  }

  lemma OneInSlot(bids: seq<Public>, asks: seq<Public>, price: int, n: nat)
    requires n > 0 && bids != [] && bids[0].order.price == price
    ensures SlotUsed(bids, asks, price, n)
  {
  }

  lemma NotCleared(p: Pub, u: Update)
    requires Fits(p, u)
    ensures u.kind != CLEAR
  {
  }

  lemma NothingFollows(p: Pub, bbo: BBO)
    ensures ApplyAll(p, []) == p && QuoteAfter(Buy, p, bbo.bid, []) == bbo.bid
    ensures QuoteAfter(Sell, p, bbo.ask, []) == bbo.ask
  {
  }

  lemma EmptyTops()
    ensures Top<nat>([]) == NoQuote
  {
  }

  lemma SumWraps(a: nat, b: nat)
    ensures (a % TWO_32 + b) % TWO_32 == (a + b) % TWO_32
  {
    assert a == a / TWO_32 * TWO_32 + a % TWO_32;
    var k, c := a / TWO_32, a % TWO_32 + b;
    Shifted(c, k);
  }

  lemma {:induction false} Shifted(c: nat, k: nat)
    ensures (c + k * TWO_32) % TWO_32 == c % TWO_32
  {
    if k > 0 {
      Shifted(c, k - 1);
      assert c + k * TWO_32 == (c + (k - 1) * TWO_32) + TWO_32;
    }
  }

  /** The price at the head of a side is the best price of its orders. */
  lemma BestPrice<K(!new)>(s: Shape<K>, side: Side)
    requires Ok(s) && side != NoSide
    ensures s.HeadOf(side) != NULL ==>
              && 0 <= s.HeadOf(side) < |s.levels| && SideView(s, side) != []
              && s.Level(s.HeadOf(side)).price == SideView(s, side)[0].order.price
  {
    HeadView(s, side);
    if s.HeadOf(side) != NULL {
      var l := s.RingOf(side)[0];
      assert l in s.RingOf(side) && LevelOk(s, l);
      assert MemberOk(s, l, s.fifo[l][0]);
    }
  }

  /** The sizes of a book: slots of its price index, blocks of its pools, slots for order ids. */
  datatype Sizes = Sizes(slots: nat, orderBlocks: nat, levelBlocks: nat, ids: nat)

  /** The order of an update can be added: its id fits, blocks are left, and its slot holds no other price or side. */
  ghost predicate CanAdd(p: Pub, u: Update, z: Sizes) {
    && z.slots > 0 && u.id < z.ids
    && RoomFor(p.bids, p.asks, u.price, z.slots, z.orderBlocks, z.levelBlocks)
    && SlotQueue(p.bids, p.asks, u.side, u.price, z.slots) == (u.side, u.price)
  }

  /** Everything that a stream adds can be added when it is its turn. */
  ghost predicate CanFollow(p: Pub, us: seq<Update>, z: Sizes)
    decreases |us|
  {
    us == [] || ((us[0].kind == ADD ==> CanAdd(p, us[0], z)) && CanFollow(Apply(p, us[0]), us[1..], z))
  }

  /** An update that fits the abstract book is accepted by the structure. */
  lemma FittingIsAccepted(m: MarketOrderBook, p: Pub, u: Update)
    requires m.Valid() && p.bids == m.book.View(Buy) && p.asks == m.book.View(Sell)
    requires GoodPub(p) && Fits(p, u) && (u.kind == ADD ==> CanAdd(p, u, m.SizesOf()))
    ensures Accepted(m, u)
  {
    hide OkBut, SideView, LiveSet, Rank, SlotQueue, RoomFor;
    var s := m.book.Snap();
    if u.kind == ADD {
      SlotLeadsTo(s, u.side, u.price);
      Exchange.RoomIsThere(s, u.price, m.book.orderPool.store.Length, m.book.levelPool.store.Length);
      Exchange.FreshKey(s, u.id);
    } else if u.kind == MODIFY || u.kind == CANCEL {
      ViewInLookup(s, u.side, IndexOf(p.On(u.side), u.id));
    }
  }

  /** What one update leaves of a stream, and of the quotes at its end. */
  lemma OneFollowed(p: Pub, us: seq<Update>, bbo: BBO, z: Sizes)
    requires GoodPub(p) && FitsAll(p, us) && CanFollow(p, us, z) && us != []
    ensures Fits(p, us[0]) && (us[0].kind == ADD ==> CanAdd(p, us[0], z))
    ensures var q := Apply(p, us[0]);
            && GoodPub(q) && FitsAll(q, us[1..]) && CanFollow(q, us[1..], z)
            && ApplyAll(q, us[1..]) == ApplyAll(p, us)
            && QuoteAfter(Buy, q, NextBBO(p, bbo, us[0]).bid, us[1..]) == QuoteAfter(Buy, p, bbo.bid, us)
            && QuoteAfter(Sell, q, NextBBO(p, bbo, us[0]).ask, us[1..]) == QuoteAfter(Sell, p, bbo.ask, us)
  {
    hide CanAdd, NextQuote;
    FitKeepsGood(p, us[0]);
  }

  /** Sides and quotes after an update do not depend on the ids handed out so far. */
  lemma NextIdDoesNotMatter(p: Pub, q: Pub, bbo: BBO, u: Update)
    requires p.bids == q.bids && p.asks == q.asks
    ensures Apply(p, u).bids == Apply(q, u).bids && Apply(p, u).asks == Apply(q, u).asks
    ensures NextBBO(p, bbo, u) == NextBBO(q, bbo, u)
  {
  }
}
