/**
 * The linked order book: circular lists of price levels and of orders in pool blocks, indexed by price slot and
 * by order key. The exchange and the trading clients run the same code over different order records.
 */
module LinkedBooks {
  import opened Types
  import opened MemPools
  import opened Rings
  import opened PriceTime
  import opened Shapes
  import opened ShapeInsert
  import opened ShapeRemove

  method WriteNext<T>(pool: MemPool<Node<T>>, p: nat, v: int)
    requires p < pool.store.Length
    modifies pool.store
    ensures pool.Blocks() == SetNext(old(pool.Blocks()), p, v)
    ensures old(pool.Valid()) ==> pool.Valid()
    ensures LiveSet(pool.Blocks()) == old(LiveSet(pool.Blocks()))
  {
    pool.Write(p, pool.store[p].item.(next := v));
  }

  method WritePrev<T>(pool: MemPool<Node<T>>, p: nat, v: int)
    requires p < pool.store.Length
    modifies pool.store
    ensures pool.Blocks() == SetPrev(old(pool.Blocks()), p, v)
    ensures old(pool.Valid()) ==> pool.Valid()
    ensures LiveSet(pool.Blocks()) == old(LiveSet(pool.Blocks()))
  {
    pool.Write(p, pool.store[p].item.(prev := v));
  }

  /** Links x after target. */
  method LinkAfter<T>(pool: MemPool<Node<T>>, target: nat, x: nat)
    requires target < pool.store.Length && x < pool.store.Length && x != target
    requires 0 <= pool.store[target].item.next < pool.store.Length && pool.store[target].item.next != x
    modifies pool.store
    ensures pool.Blocks() == Splice(old(pool.Blocks()), target, x, old(pool.store[target].item.next))
    ensures old(pool.Valid()) ==> pool.Valid()
    ensures LiveSet(pool.Blocks()) == old(LiveSet(pool.Blocks()))
  {
    WritePrev(pool, x, target);
    WritePrev(pool, pool.store[target].item.next, x);
    WriteNext(pool, x, pool.store[target].item.next);
    WriteNext(pool, target, x);
  }

  /** Links x before target. */
  method LinkBefore<T>(pool: MemPool<Node<T>>, target: nat, x: nat)
    requires target < pool.store.Length && x < pool.store.Length && x != target
    requires 0 <= pool.store[target].item.prev < pool.store.Length && pool.store[target].item.prev != x
    modifies pool.store
    ensures pool.Blocks() == Splice(old(pool.Blocks()), old(pool.store[target].item.prev), x, target)
    ensures old(pool.Valid()) ==> pool.Valid()
    ensures LiveSet(pool.Blocks()) == old(LiveSet(pool.Blocks()))
  {
    WritePrev(pool, x, pool.store[target].item.prev);
    WriteNext(pool, x, target);
    WriteNext(pool, pool.store[target].item.prev, x);
    WritePrev(pool, target, x);
  }

  /** Links x after the last node of the ring that starts at first, in the order of writes used for FIFOs. */
  method LinkLast<T>(pool: MemPool<Node<T>>, first: nat, x: nat)
    requires first < pool.store.Length && x < pool.store.Length && x != first
    requires 0 <= pool.store[first].item.prev < pool.store.Length && pool.store[first].item.prev != x
    modifies pool.store
    ensures pool.Blocks() == Splice(old(pool.Blocks()), old(pool.store[first].item.prev), x, first)
    ensures old(pool.Valid()) ==> pool.Valid()
    ensures LiveSet(pool.Blocks()) == old(LiveSet(pool.Blocks()))
  {
    WriteNext(pool, pool.store[first].item.prev, x);
    WritePrev(pool, x, pool.store[first].item.prev);
    WriteNext(pool, x, first);
    WritePrev(pool, first, x);
  }

  lemma EmptyOk<K(!new)>(s: Shape<K>)
    requires LiveSet(s.orders) == {} && LiveSet(s.levels) == {} && |s.index| > 0
    requires s.lookup == map[] && s.fifo == map[] && s.bids == s.asks == NULL && s.bidRing == s.askRing == []
    requires forall i :: 0 <= i < |s.index| ==> s.index[i] == NULL
    ensures Ok(s)
  {
    forall i: nat | i < |s.orders|
      ensures s.orders[i].isFree
    {
      assert i !in LiveSet(s.orders);
    }
    forall i: nat | i < |s.levels|
      ensures s.levels[i].isFree
    {
      assert i !in LiveSet(s.levels);
    }
  }

  lemma LinkedIntro<K>(s: Shape<K>, t: Shape<K>, x: nat, k: nat)
    requires x < |s.levels| && !s.levels[x].isFree && LadderOk(s, s.Level(x).side) && |s.index| > 0
    requires var side := s.Level(x).side; var ring := s.RingOf(side);
             && k <= |ring| && x !in ring && (forall i :: 0 <= i < |ring| ==> ring[i] < |s.levels|)
             && t.levels == LinkedLevels(s.levels, ring, x, k)
             && t.RingOf(side) == ring[..k] + [x] + ring[k..]
             && t.HeadOf(side) == (if k == 0 then x else ring[0])
             && OtherSideSame(s, t, side)
    requires t.index == s.index[Slot(s.Level(x).price, |s.index|) := x]
    ensures Linked(s, t, x, k)
  {
    LinkedLevelsRing(s.levels, s.RingOf(s.Level(x).side), x, k);
  }

  class LinkedBook<K(==,!new)> {
    const orderPool: MemPool<Node<Entry<K>>>
    const levelPool: MemPool<Node<LevelVal>>
    const priceIndex: array<int>
    var lookup: map<K, nat>
    var bids: int
    var asks: int
    ghost var bidRing: seq<nat>
    ghost var askRing: seq<nat>
    ghost var fifo: map<nat, seq<nat>>

    ghost predicate Separate() {
      && orderPool as object != levelPool && orderPool.store as object != levelPool.store
      && priceIndex as object != orderPool.store && priceIndex as object != levelPool.store
      && priceIndex.Length > 0
    }

    ghost function Snap(): Shape<K>
      reads this, orderPool.store, levelPool.store, priceIndex
    {
      Shape(orderPool.Blocks(), levelPool.Blocks(), priceIndex[..], lookup, bids, asks, bidRing, askRing, fifo)
    }

    /** All structures agree, and both pools have a block to hand out. */
    ghost predicate Valid()
      reads this, orderPool, orderPool.store, levelPool, levelPool.store, priceIndex
    {
      Separate() && orderPool.Valid() && levelPool.Valid() && Ok(Snap())
    }

    /** The resting orders of a side in the order in which they are served. */
    ghost function View(side: Side): seq<Entry<K>>
      reads this, orderPool.store, levelPool.store, priceIndex
    {
      SideView(Snap(), side)
    }

    constructor (maxLevels: nat, maxOrders: nat, blank: Entry<K>)
      requires maxLevels > 0 && maxOrders > 0
      ensures Valid() && fresh(orderPool) && fresh(orderPool.store) && fresh(levelPool) && fresh(levelPool.store)
      ensures fresh(priceIndex)
      ensures View(Buy) == [] && View(Sell) == [] && lookup == map[]
      ensures LiveSet(orderPool.Blocks()) == {} && LiveSet(levelPool.Blocks()) == {}
      ensures orderPool.store.Length == maxOrders && levelPool.store.Length == priceIndex.Length == maxLevels
    {
      orderPool := new MemPool(maxOrders, Node(blank, NULL, NULL));
      levelPool := new MemPool(maxLevels, Node(LevelVal(NoSide, PRICE_INVALID, NULL), NULL, NULL));
      priceIndex := new int[maxLevels](_ => NULL);
      lookup := map[];
      bids, asks := NULL, NULL;
      bidRing, askRing, fifo := [], [], map[];
      new;
      EmptyOk(Snap());
    }

    function SlotOf(price: int): nat
      requires priceIndex.Length > 0
    {
      Slot(price, priceIndex.Length)
    }

    function Best(side: Side): int
      reads this
    {
      if side == Buy then bids else asks
    }

    /** There is a best level exactly when an order rests. */
    lemma BestIffResting(side: Side)
      requires Valid() && side != NoSide
      ensures Best(side) == NULL <==> View(side) == []
    {
      hide OkBut, SideView;
      HeadView(Snap(), side);
    }

    /** getOrdersAtPrice: whatever level is indexed at the slot of the price. */
    function OrdersAtPrice(price: int): int
      requires priceIndex.Length > 0
      reads priceIndex
    {
      priceIndex[SlotOf(price)]
    }

    /** The walk of addOrdersAtPrice from the head to the place of level x, at most one lap. */
    method FindRung(x: nat, best: nat) returns (target: nat, addAfter: bool, ghost k: nat)
      requires x < levelPool.store.Length && !levelPool.store[x].isFree
      requires Separate() && Snap().Level(x).side != NoSide
      requires LadderOk(Snap(), Snap().Level(x).side)
      requires var ring := Snap().RingOf(Snap().Level(x).side);
               && ring != [] && best == ring[0] && x !in ring
               && forall i: nat :: i < |ring| && ring[i] < levelPool.store.Length
                    ==> Snap().Level(ring[i]).price != Snap().Level(x).price
      ensures Fits(Snap(), x, k)
      ensures var ring := Snap().RingOf(Snap().Level(x).side);
              && addAfter == (k == |ring|)
              && target == if k == |ring| then ring[0] else ring[k]
    {
      ghost var s := Snap();
      ghost var side := s.Level(x).side;
      ghost var ring := s.RingOf(side);
      var lvl := levelPool.store[x].item.val;
      target, k := best, 0;
      RingMembers(s.levels, ring);
      assert LinkedAt(s.levels, ring, 0);
      addAfter := Better(lvl.side, levelPool.store[target].item.val.price, lvl.price);
      if addAfter {
        target, k := levelPool.store[target].item.next, 1;
        addAfter := Better(lvl.side, levelPool.store[target].item.val.price, lvl.price);
      }
      while addAfter && target != best
        invariant k <= |ring| && target == (if k == |ring| then ring[0] else ring[k])
        invariant forall i {:trigger Ordered(side, s.levels, ring[i], x)} :: 0 <= i < k ==>
                  Ordered(side, s.levels, ring[i], x)
        invariant addAfter ==> k > 0
        invariant !addAfter ==> k < |ring| && Ordered(side, s.levels, x, ring[k])
        decreases |ring| - k, addAfter
      {
        assert LinkedAt(s.levels, ring, k);
        addAfter := Better(lvl.side, levelPool.store[target].item.val.price, lvl.price);
        if addAfter {
          target, k := levelPool.store[target].item.next, k + 1;
        }
      }
      if k < |ring| {
        forall i | k <= i < |ring|
          ensures Ordered(side, s.levels, x, ring[i])
        {
          assert k < i ==> Ordered(side, s.levels, ring[k], ring[i]);
        }
      }
    }

    /** "Add after target": a lap that ended at the head links x between the last level and the head. */
    method InsertAfter(x: nat, best: nat, last: nat)
      requires Separate() && levelPool.Valid()
      requires x < levelPool.store.Length && best < levelPool.store.Length && last < levelPool.store.Length
      requires x != best && x != last
      requires levelPool.store[best].item.prev == last && levelPool.store[last].item.next == best
      modifies levelPool.store
      ensures levelPool.Valid() && LiveSet(levelPool.Blocks()) == old(LiveSet(levelPool.Blocks()))
      ensures levelPool.Blocks() == Splice(old(levelPool.Blocks()), last, x, best)
    {
      var target: nat := levelPool.store[best].item.prev;
      LinkAfter(levelPool, target, x);
    }

    /** "Add before target", moving the head when x is more aggressive than the old one. */
    method InsertBefore(x: nat, best: nat, target: nat, prev: nat)
      requires Separate() && levelPool.Valid()
      requires x < levelPool.store.Length && best < levelPool.store.Length
      requires target < levelPool.store.Length && prev < levelPool.store.Length
      requires x != target && x != prev && x != best && levelPool.store[target].item.prev == prev
      requires levelPool.store[target].item.next == best && target == best ==> prev == best
      requires Snap().Level(x).side != NoSide
      requires Better(Snap().Level(x).side, Snap().Level(x).price, Snap().Level(best).price) ==> target == best
      modifies this`bids, this`asks, levelPool.store
      ensures levelPool.Valid() && LiveSet(levelPool.Blocks()) == old(LiveSet(levelPool.Blocks()))
      ensures levelPool.Blocks() == Splice(old(levelPool.Blocks()), prev, x, target)
      ensures var lvl := old(Snap()).Level(x);
              && Best(lvl.side) == (if target == best && Better(lvl.side, lvl.price, old(Snap()).Level(best).price)
                                    then x else old(Best(lvl.side)))
              && Best(Opposite(lvl.side)) == old(Best(Opposite(lvl.side)))
    {
      var lvl := levelPool.store[x].item.val;
      LinkBefore(levelPool, target, x);
      if Better(lvl.side, lvl.price, levelPool.store[best].item.val.price) {
        // The program redirects the old head's next link if it points to the old head; by now it never does.
        var next := levelPool.store[target].item.next;
        assert next != best;
        WriteNext(levelPool, target, if next == best then x else next);
        SetBest(lvl.side, x);
      }
    }

    /** The part of addOrdersAtPrice for a side that has levels already. */
    method LinkRung(x: nat, best: nat) returns (ghost k: nat)
      requires x < levelPool.store.Length && !levelPool.store[x].isFree
      requires Separate() && levelPool.Valid() && Snap().Level(x).side != NoSide
      requires LadderOk(Snap(), Snap().Level(x).side)
      requires var ring := Snap().RingOf(Snap().Level(x).side);
               && ring != [] && best == ring[0] && x !in ring
               && forall i: nat :: i < |ring| && ring[i] < levelPool.store.Length
                    ==> Snap().Level(ring[i]).price != Snap().Level(x).price
      modifies this`bids, this`asks, levelPool.store
      ensures levelPool.Valid() && LiveSet(levelPool.Blocks()) == old(LiveSet(levelPool.Blocks()))
      ensures Fits(old(Snap()), x, k)
      ensures var s := old(Snap()); var side := s.Level(x).side;
              && (forall i :: 0 <= i < |s.RingOf(side)| ==> s.RingOf(side)[i] < |s.levels|)
              && levelPool.Blocks() == LinkedLevels(s.levels, s.RingOf(side), x, k)
              && Best(side) == (if k == 0 then x else best)
              && Best(Opposite(side)) == old(Best(Opposite(side)))
    {
      ghost var s := Snap();
      ghost var side := s.Level(x).side;
      ghost var ring := s.RingOf(side);
      var target, addAfter;
      target, addAfter, k := FindRung(x, best);
      RingMembers(s.levels, ring);
      assert LinkedAt(s.levels, ring, 0);
      if addAfter {
        assert LinkedAt(s.levels, ring, |ring| - 1);
        InsertAfter(x, best, levelPool.store[best].item.prev);
      } else {
        assert LinkedAt(s.levels, ring, k);
        assert k > 0 ==> Ordered(side, s.levels, ring[0], x);
        assert k == 0 ==> Ordered(side, s.levels, x, ring[0]);
        InsertBefore(x, best, target, levelPool.store[target].item.prev);
      }
    }

    /** The first level of a side is linked to itself. */
    method LinkFirst(x: nat)
      requires Separate() && levelPool.Valid() && x < levelPool.store.Length
      modifies levelPool.store
      ensures levelPool.Valid() && LiveSet(levelPool.Blocks()) == old(LiveSet(levelPool.Blocks()))
      ensures levelPool.Blocks() == LinkedLevels(old(levelPool.Blocks()), [], x, 0)
    {
      WriteNext(levelPool, x, x);
      WritePrev(levelPool, x, x);
    }

    /** addOrdersAtPrice: links level x, already holding its first order, into its side and the price index. */
    method AddOrdersAtPrice(x: nat) returns (ghost k: nat)
      requires Separate() && levelPool.Valid()
      requires x < levelPool.store.Length && !levelPool.store[x].isFree && Snap().Level(x).side != NoSide
      requires LadderOk(Snap(), Snap().Level(x).side)
      requires var ring := Snap().RingOf(Snap().Level(x).side);
               && x !in ring
               && forall i: nat :: i < |ring| && ring[i] < levelPool.store.Length
                    ==> Snap().Level(ring[i]).price != Snap().Level(x).price
      modifies this`bids, this`asks, this`bidRing, this`askRing, levelPool.store, priceIndex
      ensures levelPool.Valid() && LiveSet(levelPool.Blocks()) == old(LiveSet(levelPool.Blocks()))
      ensures Fits(old(Snap()), x, k) && Linked(old(Snap()), Snap(), x, k)
    {
      hide SameExceptLinks, LiveSet, IsRing, LinkedLevels, Linked;
      ghost var s := Snap();
      var lvl := levelPool.store[x].item.val;
      ghost var ring := s.RingOf(lvl.side);
      RingMembers(s.levels, ring);
      priceIndex[SlotOf(lvl.price)] := x;
      var best := Best(lvl.side);
      if best == NULL {
        k := 0;
        SetBest(lvl.side, x);
        LinkFirst(x);
      } else {
        LadderFrame(s, Snap(), lvl.side);
        k := LinkRung(x, best);
      }
      SetRing(lvl.side, ring[..k] + [x] + ring[k..]);
      LinkedIntro(s, Snap(), x, k);
    }

    method SetBest(side: Side, head: int)
      modifies this`bids, this`asks
      ensures Snap() == if side == Buy then old(Snap()).(bids := head) else old(Snap()).(asks := head)
    {
      if side == Buy {
        bids := head;
      } else {
        asks := head;
      }
    }

    ghost method SetRing(side: Side, ring: seq<nat>)
      modifies this`bidRing, this`askRing
      ensures Snap() == if side == Buy then old(Snap()).(bidRing := ring) else old(Snap()).(askRing := ring)
    {
      if side == Buy {
        bidRing := ring;
      } else {
        askRing := ring;
      }
    }

    /** The side and price of the queue that the slot of a price leads to; those asked for when it is empty. */
    ghost function Target(side: Side, price: int): (Side, int)
      requires priceIndex.Length > 0
      reads this, orderPool.store, levelPool.store, priceIndex
    {
      var l := OrdersAtPrice(price);
      if 0 <= l < levelPool.store.Length then (Snap().Level(l).side, Snap().Level(l).price) else (side, price)
    }

    /** There is a block left for one more order, and for its level if its slot is empty. */
    ghost predicate Room(price: int)
      requires priceIndex.Length > 0
      reads this, orderPool, orderPool.store, levelPool, levelPool.store, priceIndex
    {
      && |LiveSet(orderPool.Blocks())| < orderPool.store.Length - 1
      && (OrdersAtPrice(price) == NULL ==> |LiveSet(levelPool.Blocks())| < levelPool.store.Length - 1)
    }

    /** Hands out a level block for the first order o at its price. */
    method NewLevel(o: nat) returns (x: nat)
      requires Separate() && levelPool.Valid() && OkBut(Snap(), o, NULL) && o < orderPool.store.Length
      requires var e := Snap().Order(o); e.order.side != NoSide && OrdersAtPrice(e.order.price) == NULL
      requires |LiveSet(levelPool.Blocks())| < levelPool.store.Length - 1
      modifies levelPool, levelPool.store
      ensures levelPool.Valid() && x < levelPool.store.Length
      ensures var e := Snap().Order(o);
              levelPool.store[x] == ObjectBlock(Node(LevelVal(e.order.side, e.order.price, o), NULL, NULL), false)
      ensures LevelAllocated(old(Snap()), Snap(), x) && OkBut(Snap(), o, x) && LadderOk(Snap(), Snap().Level(x).side)
      ensures x !in Snap().bidRing && x !in Snap().askRing
      ensures forall l :: l in Snap().RingOf(Snap().Level(x).side) && l < levelPool.store.Length
                ==> Snap().Level(l).price != Snap().Level(x).price
    {
      hide Flat, LiveSet;
      ghost var s := Snap();
      var e := orderPool.store[o].item.val;
      var ok;
      ok, x := levelPool.Allocate(Node(LevelVal(e.order.side, e.order.price, o), NULL, NULL));
      LevelAllocatedOk(s, Snap(), o, x);
      NewPrice(Snap(), o, x, e.order.side, e.order.price);
    }

    /** addOrder for an order, already linked to itself, at a new price. */
    method AddOrderAtNewLevel(o: nat)
      requires Separate() && orderPool.Valid() && levelPool.Valid() && OkBut(Snap(), o, NULL)
      requires o < orderPool.store.Length && !orderPool.store[o].isFree && IsRing(Snap().orders, [o])
      requires var e := Snap().Order(o);
               e.order.side != NoSide && e.key !in lookup && OrdersAtPrice(e.order.price) == NULL
      requires |LiveSet(levelPool.Blocks())| < levelPool.store.Length - 1
      modifies this, levelPool, levelPool.store, priceIndex
      ensures Valid()
      ensures var e := old(Snap()).Order(o);
              && View(e.order.side) == Insert(old(View(e.order.side)), e)
              && View(Opposite(e.order.side)) == old(View(Opposite(e.order.side)))
              && lookup == old(lookup)[e.key := o]
    {
      hide OkBut, Flat, Insert, LiveSet, LadderOk, IsRing;
      var x := NewLevel(o);
      ghost var s := Snap();
      var key := orderPool.store[o].item.val.key;
      ghost var k := AddOrdersAtPrice(x);
      lookup := lookup[key := o];
      fifo := fifo[x := [o]];
      OpenedAll(s, Snap(), o, x, k, s.Order(o).order.side);
    }

    /** The part of addOrder for a level that exists: links order o last in its FIFO and files it under its key. */
    method QueueAt(o: nat, l: nat)
      requires o < orderPool.store.Length && l < levelPool.store.Length
      requires var first := levelPool.store[l].item.val.first;
               && 0 <= first < orderPool.store.Length && first != o
               && 0 <= orderPool.store[first].item.prev < orderPool.store.Length
                 && orderPool.store[first].item.prev != o
      modifies this`lookup, orderPool.store
      ensures var first: nat := levelPool.store[l].item.val.first;
              orderPool.Blocks() == Splice(old(orderPool.Blocks()), old(orderPool.store[first].item.prev), o, first)
      ensures old(orderPool.Valid()) ==> orderPool.Valid()
      ensures LiveSet(orderPool.Blocks()) == old(LiveSet(orderPool.Blocks()))
      ensures lookup == old(lookup)[old(orderPool.store[o].item.val.key) := o]
    {
      hide LiveSet;
      var key := orderPool.store[o].item.val.key;
      LinkLast(orderPool, levelPool.store[l].item.val.first, o);
      lookup := lookup[key := o];
    }

    /** addOrder for an order whose price slot leads to level l, which need not have its side and price. */
    method AddOrderAtLevel(o: nat, l: nat)
      requires Separate() && orderPool.Valid() && levelPool.Valid() && OkBut(Snap(), o, NULL)
      requires o < orderPool.store.Length && !orderPool.store[o].isFree && Snap().Order(o).key !in lookup
      requires l in fifo && l < levelPool.store.Length
      modifies this`lookup, this`fifo, orderPool.store
      ensures orderPool.Valid() && LiveSet(orderPool.Blocks()) == old(LiveSet(orderPool.Blocks()))
      ensures var e, side := old(Snap()).Order(o), Snap().Level(l).side;
              && View(side) == Appended(old(View(side)), e, side, Snap().Level(l).price)
              && View(Opposite(side)) == old(View(Opposite(side)))
              && lookup == old(lookup)[e.key := o]
      ensures Belongs(old(Snap()), o, l) ==> Valid()
    {
      hide SideView, Appended, LiveSet, LadderOk;
      ghost var s := Snap();
      ghost var f := fifo[l];
      assert LevelOk(s, l);
      assert LinkedAt(s.orders, f, 0) && LinkedAt(s.orders, f, |f| - 1);
      assert MemberOk(s, l, f[0]) && MemberOk(s, l, f[|f| - 1]);
      QueueAt(o, l);
      SpliceLast(s.orders, f, o);
      fifo := fifo[l := f + [o]];
      JoinedAll(s, Snap(), o, l);
    }

    /** Hands out an order block for e. */
    method AllocateOrder(e: Entry<K>) returns (o: nat)
      requires Valid() && |LiveSet(orderPool.Blocks())| < orderPool.store.Length - 1
      modifies orderPool, orderPool.store
      ensures orderPool.Valid() && o < orderPool.store.Length && !orderPool.store[o].isFree && Snap().Order(o) == e
      ensures OkBut(Snap(), o, NULL) && LiveSet(orderPool.Blocks()) == old(LiveSet(orderPool.Blocks())) + {o}
      ensures View(Buy) == old(View(Buy)) && View(Sell) == old(View(Sell))
    {
      hide OkBut, SideView;
      ghost var s := Snap();
      var ok;
      ok, o := orderPool.Allocate(Node(e, NULL, NULL));
      OrderAllocatedOk(s, Snap(), o);
      OrderAllocatedView(s, Snap(), o, Buy);
      OrderAllocatedView(s, Snap(), o, Sell);
    }

    method LinkAlone(o: nat)
      requires Separate() && orderPool.Valid() && OkBut(Snap(), o, NULL) && o < orderPool.store.Length
      requires !orderPool.store[o].isFree
      modifies orderPool.store
      ensures orderPool.Valid() && LiveSet(orderPool.Blocks()) == old(LiveSet(orderPool.Blocks()))
      ensures !orderPool.store[o].isFree && Snap().Order(o) == old(Snap()).Order(o)
      ensures OkBut(Snap(), o, NULL) && IsRing(Snap().orders, [o])
      ensures View(Buy) == old(View(Buy)) && View(Sell) == old(View(Sell))
    {
      hide OkBut, SideView, LiveSet;
      ghost var s := Snap();
      WriteNext(orderPool, o, o);
      WritePrev(orderPool, o, o);
      assert Snap().orders == Alone(s.orders, o);
      AloneIsRing(s.orders, o);
      PendingRelinkedOk(s, Snap(), o);
    }

    /**
     * addOrder: queues an allocated order last at the level that its price slot leads to, opening a level if there is
     * none. Unless that level has another side or price, the structure is sound again.
     */
    method AddOrder(o: nat)
      requires Separate() && orderPool.Valid() && levelPool.Valid() && OkBut(Snap(), o, NULL)
      requires o < orderPool.store.Length && !orderPool.store[o].isFree
      requires var e := Snap().Order(o);
               e.order.side != NoSide && e.key !in lookup
               && (OrdersAtPrice(e.order.price) == NULL ==> |LiveSet(levelPool.Blocks())| < levelPool.store.Length - 1)
      modifies this, levelPool, levelPool.store, orderPool.store, priceIndex
      ensures var e := old(Snap()).Order(o);
              var (side, price) := old(Target(e.order.side, e.order.price));
              && side != NoSide
              && View(side) == Appended(old(View(side)), e, side, price)
              && View(Opposite(side)) == old(View(Opposite(side)))
              && lookup == old(lookup)[e.key := o]
              && ((side, price) == (e.order.side, e.order.price) ==> Valid())
      ensures LiveSet(orderPool.Blocks()) == old(LiveSet(orderPool.Blocks()))
    {
      hide OkBut, SideView, LiveSet, IsRing, Rank;
      var l := OrdersAtPrice(orderPool.store[o].item.val.order.price);
      if l == NULL {
        LinkAlone(o);
        AddOrderAtNewLevel(o);
      } else {
        SlotStanding(Snap(), o, NULL, orderPool.store[o].item.val.order.price);
        LevelStandsAt(Snap(), o, NULL, l);
        AddOrderAtLevel(o, l);
      }
    }

    /** Allocates an order and queues it: the allocation in add followed by addOrder. */
    method Add(e: Entry<K>)
      requires Valid() && e.order.side != NoSide && e.key !in lookup && Room(e.order.price)
      modifies this, levelPool, levelPool.store, orderPool, orderPool.store, priceIndex
      ensures var (side, price) := old(Target(e.order.side, e.order.price));
              && side != NoSide
              && View(side) == Appended(old(View(side)), e, side, price)
              && View(Opposite(side)) == old(View(Opposite(side)))
              && ((side, price) == (e.order.side, e.order.price) ==> Valid())
      ensures lookup.Keys == old(lookup.Keys) + {e.key}
    {
      hide OkBut, SideView, Appended, IsRing, LiveSet;
      var o := AllocateOrder(e);
      AddOrder(o);
    }

    /** The first order of the best level of a side. */
    method BestOrder(side: Side) returns (o: nat)
      requires Valid() && side != NoSide && Best(side) != NULL
      ensures o < orderPool.store.Length && !orderPool.store[o].isFree && View(side) != []
      ensures Snap().Order(o) == View(side)[0] == orderPool.store[o].item.val
    {
      hide OkBut, SideView;
      HeadView(Snap(), side);
      o := levelPool.store[Best(side)].item.val.first;
    }

    /** getNextPriority: one more than the last order of the level that the price slot leads to, or one. */
    method GetNextPriority(price: int, ghost side: Side) returns (priority: nat)
      requires Valid() && side != NoSide
      ensures var (d, p) := Target(side, price); priority == NextPriority(View(d), d, p)
    {
      var l := OrdersAtPrice(price);
      ghost var s := Snap();
      if l == NULL {
        NewPrice(s, NULL, NULL, side, price);
        NobodyAtPrice(s, NULL, NULL, side, price);
        return 1;
      }
      assert IndexOk(s, Slot(price, |s.index|)) && LevelOk(s, l);
      ghost var d := s.Level(l).side;
      ghost var k :| 0 <= k < |s.RingOf(d)| && s.RingOf(d)[k] == l;
      LastAtPrice(s, NULL, NULL, d, k);
      assert LinkedAt(s.orders, s.fifo[l], 0);
      var first := levelPool.store[l].item.val.first;
      var last := orderPool.store[first].item.prev;
      return orderPool.store[last].item.val.order.priority + 1;
    }

    /** Takes level l, whose neighbours are p and q, out of its list, moving the head when it was the head. */
    method UnlinkLevel(side: Side, l: nat, p: nat, q: nat)
      requires Separate() && levelPool.Valid() && l < levelPool.store.Length && p < levelPool.store.Length
      requires q < levelPool.store.Length
      requires levelPool.store[l].item.prev == p && levelPool.store[l].item.next == q && p != l && q != l
      modifies levelPool.store, this`bids, this`asks
      ensures levelPool.Valid() && LiveSet(levelPool.Blocks()) == old(LiveSet(levelPool.Blocks()))
      ensures levelPool.Blocks() == Unlink(old(levelPool.Blocks()), p, l, q)
      ensures Best(side) == (if old(Best(side)) == l then q else old(Best(side)))
      ensures side != NoSide ==> Best(Opposite(side)) == old(Best(Opposite(side)))
    {
      WriteNext(levelPool, levelPool.store[l].item.prev, levelPool.store[l].item.next);
      WritePrev(levelPool, levelPool.store[l].item.next, levelPool.store[l].item.prev);
      if l == Best(side) {
        SetBest(side, levelPool.store[l].item.next);
      }
      WritePrev(levelPool, l, NULL);
      WriteNext(levelPool, l, NULL);
    }

    /** removeOrdersAtPrice: unlinks the level indexed at the price and releases its block. */
    method RemoveOrdersAtPrice(side: Side, price: int, ghost i: nat)
      requires Separate() && levelPool.Valid() && side != NoSide && LadderOk(Snap(), side)
      requires var l := OrdersAtPrice(price); var ring := Snap().RingOf(side);
               i < |ring| && ring[i] == l && l < levelPool.store.Length
               && Snap().Level(l).side == side && Snap().Level(l).price == price
      modifies this`bids, this`asks, this`bidRing, this`askRing, levelPool.store, priceIndex
      ensures levelPool.Valid() && Unlinked(old(Snap()), Snap(), old(OrdersAtPrice(price)), i)
      ensures LiveSet(levelPool.Blocks()) == old(LiveSet(levelPool.Blocks())) - {old(OrdersAtPrice(price))}
    {
      ghost var s := Snap();
      ghost var ring := s.RingOf(side);
      var l: nat := OrdersAtPrice(price);
      assert LinkedAt(s.levels, ring, i);
      if levelPool.store[l].item.next == l {
        LoneLevel(s, side, i);
        SetBest(side, NULL);
      } else {
        NeighbourLevels(s, side, i);
        UnlinkLevel(side, l, levelPool.store[l].item.prev, levelPool.store[l].item.next);
      }
      priceIndex[SlotOf(price)] := NULL;
      ghost var u := levelPool.Blocks();
      levelPool.Deallocate(l);
      SetRing(side, Cut(ring, i));
      UnlinkedIntro(s, Snap(), u, l, i);
    }

    /** Takes order o, whose neighbours are p and q, out of the FIFO of level l. */
    method UnlinkOrder(o: nat, l: nat, p: nat, q: nat)
      requires Separate() && orderPool.Valid() && levelPool.Valid()
      requires o < orderPool.store.Length && p < orderPool.store.Length && q < orderPool.store.Length
      requires l < levelPool.store.Length
      requires orderPool.store[o].item.prev == p && orderPool.store[o].item.next == q && p != o && q != o
      modifies orderPool.store, levelPool.store
      ensures orderPool.Valid() && LiveSet(orderPool.Blocks()) == old(LiveSet(orderPool.Blocks()))
      ensures levelPool.Valid() && LiveSet(levelPool.Blocks()) == old(LiveSet(levelPool.Blocks()))
      ensures orderPool.Blocks() == Unlink(old(orderPool.Blocks()), p, o, q)
      ensures var lvl := old(Snap()).Level(l);
              levelPool.Blocks() == old(levelPool.Blocks())[l := old(levelPool.Blocks())[l].(item :=
                old(levelPool.Blocks())[l].item.(val := lvl.(first := if lvl.first == o then q else lvl.first)))]
    {
      var before, after := orderPool.store[o].item.prev, orderPool.store[o].item.next;
      WriteNext(orderPool, before, after);
      WritePrev(orderPool, after, before);
      var level := levelPool.store[l].item;
      if level.val.first == o {
        levelPool.Write(l, level.(val := level.val.(first := after)));
      }
      WritePrev(orderPool, o, NULL);
      WriteNext(orderPool, o, NULL);
    }

    /** removeOrder for the only order of its level. */
    method RemoveLast(o: nat, ghost l: nat)
      requires Valid() && o < orderPool.store.Length && !orderPool.store[o].isFree
      requires l in fifo && l < levelPool.store.Length && LevelOk(Snap(), l) && fifo[l] == [o] && MemberOk(Snap(), l, o)
      requires l == OrdersAtPrice(Snap().Order(o).order.price)
      modifies this, levelPool.store, orderPool.store, priceIndex
      ensures Valid()
      ensures var e := old(Snap()).Order(o);
              && View(e.order.side) == Without(old(View(e.order.side)), e.key)
              && View(Opposite(e.order.side)) == old(View(Opposite(e.order.side)))
              && lookup == old(lookup) - {e.key}
      ensures LiveSet(orderPool.Blocks()) == old(LiveSet(orderPool.Blocks())) - {o}
      ensures LiveSet(levelPool.Blocks()) <= old(LiveSet(levelPool.Blocks()))
    {
      hide SideView, Without, IsRing, LiveSet, OkBut, LadderOk;
      ghost var s := Snap();
      var e := orderPool.store[o].item.val;
      LaddersOk(s, NULL, NULL);
      ghost var i :| 0 <= i < |s.RingOf(e.order.side)| && s.RingOf(e.order.side)[i] == l;
      RemoveOrdersAtPrice(e.order.side, e.order.price, i);
      Release(o, e.key);
      fifo := fifo - {l};
      ClosedAll(s, Snap(), o, l, i, e.order.side);
    }

    /** removeOrder for an order that shares its level. */
    method RemoveShared(o: nat, ghost l: nat, ghost j: nat)
      requires Valid() && o < orderPool.store.Length && !orderPool.store[o].isFree
      requires l in fifo && l < levelPool.store.Length && LevelOk(Snap(), l) && MemberOk(Snap(), l, o)
      requires l == OrdersAtPrice(Snap().Order(o).order.price)
      requires j < |fifo[l]| && fifo[l][j] == o && fifo[l] != [o]
      modifies this, levelPool.store, orderPool.store
      ensures Valid()
      ensures var e := old(Snap()).Order(o);
              && View(e.order.side) == Without(old(View(e.order.side)), e.key)
              && View(Opposite(e.order.side)) == old(View(Opposite(e.order.side)))
              && lookup == old(lookup) - {e.key}
      ensures LiveSet(orderPool.Blocks()) == old(LiveSet(orderPool.Blocks())) - {o}
      ensures LiveSet(levelPool.Blocks()) <= old(LiveSet(levelPool.Blocks()))
    {
      hide SideView, Without, IsRing, LiveSet, OkBut;
      ghost var s := Snap();
      var e := orderPool.store[o].item.val;
      NeighbourOrders(s, l, j);
      var level := OrdersAtPrice(e.order.price);
      UnlinkOrder(o, level, orderPool.store[o].item.prev, orderPool.store[o].item.next);
      ghost var u := orderPool.Blocks();
      Release(o, e.key);
      fifo := fifo[l := Cut(fifo[l], j)];
      TakenIntro(s, Snap(), u, o, l, j);
      TakenAll(s, Snap(), o, l, j, e.order.side);
    }

    /** removeOrder: takes a live order out of the book and releases its block. */
    method RemoveOrder(o: nat)
      requires Valid() && o < orderPool.store.Length && !orderPool.store[o].isFree
      modifies this, levelPool.store, orderPool.store, priceIndex
      ensures Valid()
      ensures var e := old(Snap()).Order(o);
              && View(e.order.side) == Without(old(View(e.order.side)), e.key)
              && View(Opposite(e.order.side)) == old(View(Opposite(e.order.side)))
              && lookup == old(lookup) - {e.key}
      ensures LiveSet(orderPool.Blocks()) == old(LiveSet(orderPool.Blocks())) - {o}
      ensures LiveSet(levelPool.Blocks()) <= old(LiveSet(levelPool.Blocks()))
    {
      hide SideView, Without, OkBut, IsRing, LiveSet;
      ghost var l, j := Locate(Snap(), o);
      if orderPool.store[o].item.prev == o {
        RemoveLast(o, l);
      } else {
        RemoveShared(o, l, j);
      }
    }

    /** The end of removeOrder: forgets the key and returns the block. */
    method Release(o: nat, key: K)
      requires Separate() && orderPool.Valid() && o < orderPool.store.Length && !orderPool.store[o].isFree
      modifies this`lookup, orderPool.store
      ensures orderPool.Valid() && lookup == old(lookup) - {key}
      ensures orderPool.Blocks() == old(orderPool.Blocks())[o := old(orderPool.Blocks())[o].(isFree := true)]
      ensures LiveSet(orderPool.Blocks()) == old(LiveSet(orderPool.Blocks())) - {o}
    {
      lookup := lookup - {key};
      orderPool.Deallocate(o);
    }

    /** Overwrites the quantity of a live order. */
    method SetQty(o: nat, qty: nat)
      requires Valid() && o < orderPool.store.Length && !orderPool.store[o].isFree
      modifies orderPool.store
      ensures Valid()
      ensures var e := old(Snap()).Order(o);
              && View(e.order.side) == WithQty(old(View(e.order.side)), e.key, qty)
              && View(Opposite(e.order.side)) == old(View(Opposite(e.order.side)))
              && Snap().Order(o) == e.(order := e.order.(qty := qty))
      ensures !orderPool.store[o].isFree && LiveSet(orderPool.Blocks()) == old(LiveSet(orderPool.Blocks()))
    {
      hide OkBut, SideView, WithQty, LiveSet;
      ghost var s := Snap();
      var node := orderPool.store[o].item;
      orderPool.Write(o, node.(val := node.val.(order := node.val.order.(qty := qty))));
      RequantifiedOk(s, Snap(), o, qty);
      RequantifiedView(s, Snap(), o, qty, node.val.order.side);
      RequantifiedOther(s, Snap(), o, qty, node.val.order.side);
    }
  }

  lemma NeighbourOrders<K(!new)>(s: Shape<K>, l: nat, j: nat)
    requires l in s.fifo && LevelOk(s, l) && j < |s.fifo[l]| && s.fifo[l] != [s.fifo[l][j]]
    ensures var f := s.fifo[l];
            var p, q := f[Before(j, |f|)], f[After(j, |f|)];
            && |f| >= 2 && p < |s.orders| && q < |s.orders| && p != f[j] && q != f[j]
            && f[j] < |s.orders| && s.orders[f[j]].item.prev == p && s.orders[f[j]].item.next == q
            && (s.Level(l).first == f[j] <==> j == 0)
  {
    var f := s.fifo[l];
    assert |f| >= 2;
    assert LinkedAt(s.orders, f, j) && LinkedAt(s.orders, f, Before(j, |f|)) && LinkedAt(s.orders, f, After(j, |f|));
  }

  lemma TakenIntro<K(!new)>(s: Shape<K>, t: Shape<K>, u: Heap<Entry<K>>, o: nat, l: nat, j: nat)
    requires Takes(s, o, l, j) && o < |s.orders|
    requires var f := s.fifo[l];
             && f[Before(j, |f|)] < |s.orders| && f[After(j, |f|)] < |s.orders|
             && u == Unlink(s.orders, f[Before(j, |f|)], o, f[After(j, |f|)])
    requires t.orders == u[o := u[o].(isFree := true)]
    requires t.levels == s.levels[l := s.levels[l].(item := s.levels[l].item.(val :=
               s.Level(l).(first := if s.Level(l).first == o then s.fifo[l][After(j, |s.fifo[l]|)]
                                    else s.Level(l).first)))]
    requires t == s.(orders := t.orders, levels := t.levels, fifo := s.fifo[l := Cut(s.fifo[l], j)],
                     lookup := s.lookup - {s.Order(o).key})
    ensures Taken(s, t, o, l, j)
  {
    var f := s.fifo[l];
    UnlinkAt(s.orders, f, j);
    CutMembers(f, j, o);
    RingFrame(u, t.orders, Cut(f, j));
  }

  /** A level that is its own successor is the only one of its side. */
  lemma LoneLevel<K>(s: Shape<K>, side: Side, i: nat)
    requires LadderOk(s, side) && i < |s.RingOf(side)|
    requires LinkedAt(s.levels, s.RingOf(side), i) && s.levels[s.RingOf(side)[i]].item.next == s.RingOf(side)[i]
    ensures s.RingOf(side) == [s.RingOf(side)[i]]
  {
  }

  lemma NeighbourLevels<K>(s: Shape<K>, side: Side, i: nat)
    requires LadderOk(s, side) && i < |s.RingOf(side)|
    requires LinkedAt(s.levels, s.RingOf(side), i) && s.levels[s.RingOf(side)[i]].item.next != s.RingOf(side)[i]
    ensures var ring := s.RingOf(side);
            var p, q := ring[Before(i, |ring|)], ring[After(i, |ring|)];
            |ring| >= 2 && p < |s.levels| && q < |s.levels| && p != ring[i] && q != ring[i]
            && (s.HeadOf(side) == ring[i] <==> i == 0)
  {
    var ring := s.RingOf(side);
    assert LinkedAt(s.levels, ring, Before(i, |ring|)) && LinkedAt(s.levels, ring, After(i, |ring|));
  }

  lemma UnlinkedIntro<K>(s: Shape<K>, t: Shape<K>, u: Heap<LevelVal>, l: nat, i: nat)
    requires l < |s.levels| && |s.index| > 0 && LadderOk(s, s.Level(l).side)
    requires var side := s.Level(l).side;
             var ring := s.RingOf(side);
             && i < |ring| && ring[i] == l
             && (forall m :: m in ring ==> m < |s.levels|)
             && u == (if |ring| == 1 then s.levels
               else Unlink(s.levels, ring[Before(i, |ring|)], l, ring[After(i, |ring|)]))
             && t.RingOf(side) == Cut(ring, i)
             && t.HeadOf(side) == (if |ring| == 1 then NULL else if i == 0 then ring[1] else ring[0])
             && OtherSideSame(s, t, side)
    requires t.levels == u[l := u[l].(isFree := true)]
    requires t.index == s.index[Slot(s.Level(l).price, |s.index|) := NULL]
    ensures Unlinked(s, t, l, i)
  {
    var side := s.Level(l).side;
    var ring := s.RingOf(side);
    if |ring| >= 2 {
      UnlinkAt(s.levels, ring, i);
      CutMembers(ring, i, l);
      RingFrame(u, t.levels, Cut(ring, i));
    }
  }

  lemma LaddersOk<K(!new)>(s: Shape<K>, o: int, x: int)
    requires OkBut(s, o, x)
    ensures LadderOk(s, Buy) && LadderOk(s, Sell)
  {
  }

  /** A filled slot leads to a level. */
  lemma SlotStanding<K(!new)>(s: Shape<K>, o: int, x: int, price: int)
    requires OkBut(s, o, x) && s.index[Slot(price, |s.index|)] != NULL
    ensures s.index[Slot(price, |s.index|)] >= 0 && s.index[Slot(price, |s.index|)] in s.fifo
  {
    assert IndexOk(s, Slot(price, |s.index|));
  }

  lemma LevelStandsAt<K(!new)>(s: Shape<K>, o: int, x: int, l: nat)
    requires OkBut(s, o, x) && l in s.fifo
    ensures l < |s.levels| && s.Level(l).side != NoSide
  {
    assert LevelOk(s, l);
  }

  /** An empty slot means that no level of the side has the price. */
  lemma NewPrice<K(!new)>(s: Shape<K>, o: int, x: int, side: Side, price: int)
    requires OkBut(s, o, x) && side != NoSide && s.index[Slot(price, |s.index|)] == NULL
    ensures forall l :: l in s.RingOf(side) && l < |s.levels| ==> s.Level(l).price != price
  {
    forall l | l in s.RingOf(side) && l < |s.levels|
      ensures s.Level(l).price != price
    {
      assert l in s.fifo && LevelOk(s, l);
    }
  }
}
