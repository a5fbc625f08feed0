/** The price index of a book seen from its sides: which queue a price slot leads to, and how many blocks are in use. */
module SlotLookups {
  import opened Types
  import opened MemPools
  import opened Rings
  import opened Shapes

  /** The first order of s whose price falls into the slot, or |s|. */
  function SlotHit<K>(s: seq<Entry<K>>, slot: nat, n: nat): (i: nat)
    requires n > 0
    ensures i <= |s| && (i < |s| ==> Slot(s[i].order.price, n) == slot)
    ensures forall j :: 0 <= j < i ==> Slot(s[j].order.price, n) != slot
  {
    if s == [] || Slot(s[0].order.price, n) == slot then 0 else 1 + SlotHit(s[1..], slot, n)
  }

  /** Some resting order has a price in the slot of the given one. */
  ghost predicate SlotUsed<K>(bids: seq<Entry<K>>, asks: seq<Entry<K>>, price: int, n: nat)
    requires n > 0
  {
    SlotHit(bids, Slot(price, n), n) < |bids| || SlotHit(asks, Slot(price, n), n) < |asks|
  }

  /** The side and price of the orders found in the slot of a price; those asked for when there are none. */
  function SlotQueue<K>(bids: seq<Entry<K>>, asks: seq<Entry<K>>, side: Side, price: int, n: nat): (Side, int)
    requires n > 0
  {
    var bid, ask := SlotHit(bids, Slot(price, n), n), SlotHit(asks, Slot(price, n), n);
    if bid < |bids| then (Buy, bids[bid].order.price)
    else if ask < |asks| then (Sell, asks[ask].order.price)
    else (side, price)
  }

  /** No order of s is at another price of the slot. */
  ghost predicate NoClash<K>(s: seq<Entry<K>>, price: int, n: nat)
    requires n > 0
  {
    forall i :: 0 <= i < |s| && Slot(s[i].order.price, n) == Slot(price, n) ==> s[i].order.price == price
  }

  /** An order of a side is at the level that its price is indexed to. */
  lemma OrderIndexed<K(!new)>(s: Shape<K>, side: Side, i: nat) returns (l: nat)
    requires Ok(s) && side != NoSide && i < |SideView(s, side)|
    ensures s.index[Slot(SideView(s, side)[i].order.price, |s.index|)] == l < |s.levels|
    ensures s.Level(l).side == side && s.Level(l).price == SideView(s, side)[i].order.price
  {
    l := FlatPrice(s, NULL, NULL, s.RingOf(side), i);
    assert LevelOk(s, l);
    hide OkBut;
    ViewInLookup(s, side, i);
  }

  /** What the index says of a slot is what the orders say. */
  lemma SlotLeadsTo<K(!new)>(s: Shape<K>, side: Side, price: int)
    requires Ok(s) && side != NoSide
    ensures |s.index| > 0
    ensures var l := s.index[Slot(price, |s.index|)];
            && (l == NULL || 0 <= l < |s.levels|)
            && (l == NULL <==> !SlotUsed(SideView(s, Buy), SideView(s, Sell), price, |s.index|))
            && SlotQueue(SideView(s, Buy), SideView(s, Sell), side, price, |s.index|)
               == if l == NULL then (side, price) else (s.Level(l).side, s.Level(l).price)
  {
    var n, slot := |s.index|, Slot(price, |s.index|);
    var l := s.index[slot];
    assert IndexOk(s, slot);
    var bids, asks := SideView(s, Buy), SideView(s, Sell);
    hide OkBut, SideView;
    if SlotHit(bids, slot, n) < |bids| {
      var m := OrderIndexed(s, Buy, SlotHit(bids, slot, n));
    }
    if SlotHit(asks, slot, n) < |asks| {
      var m := OrderIndexed(s, Sell, SlotHit(asks, slot, n));
    }
    if l != NULL {
      var e := LevelInView(s, l);
      var v := SideView(s, s.Level(l).side);
      var i :| 0 <= i < |v| && v[i] == e;
      assert Slot(v[i].order.price, n) == slot;
    }
  }

  // ----- how many blocks are in use

  function PricesOf<K>(s: seq<Entry<K>>): set<int> {
    set i | 0 <= i < |s| :: s[i].order.price
  }

  function KeysOf<K>(s: seq<Entry<K>>): set<K> {
    set i | 0 <= i < |s| :: s[i].key
  }

  lemma {:induction false} KeysBound<K>(s: seq<Entry<K>>)
    ensures |KeysOf(s)| <= |s|
  {
    if s != [] {
      var init, e := s[..|s| - 1], s[|s| - 1];
      KeysBound(init);
      assert KeysOf(s) == KeysOf(init) + {e.key};
    }
  }

  lemma {:induction false} LiveKeys<K(!new)>(s: Shape<K>, live: set<nat>, keys: set<K>)
    requires forall o :: o in live ==> o < |s.orders| && s.Order(o).key in keys
    requires forall o :: o in live ==> s.Order(o).key in s.lookup && s.lookup[s.Order(o).key] == o
    ensures |live| <= |keys|
  {
    if live != {} {
      var o :| o in live;
      LiveKeys(s, live - {o}, keys - {s.Order(o).key});
    }
  }

  /** There are no more order blocks in use than resting orders. */
  lemma OrderCount<K(!new)>(s: Shape<K>)
    requires Ok(s)
    ensures |LiveSet(s.orders)| <= |SideView(s, Buy)| + |SideView(s, Sell)|
  {
    hide OkBut, SideView;
    var bids, asks := SideView(s, Buy), SideView(s, Sell);
    forall o | o in LiveSet(s.orders)
      ensures s.Order(o).key in KeysOf(bids) + KeysOf(asks) && s.Order(o).key in s.lookup
      ensures s.lookup[s.Order(o).key] == o
    {
      LiveInView(s, o);
      var v := SideView(s, s.Order(o).order.side);
      var i :| 0 <= i < |v| && v[i] == s.Order(o);
      assert v[i].key in KeysOf(v);
    }
    LiveKeys(s, LiveSet(s.orders), KeysOf(bids) + KeysOf(asks));
    KeysBound(bids);
    KeysBound(asks);
  }

  lemma {:induction false} LivePrices<K>(s: Shape<K>, live: set<nat>, prices: set<int>)
    requires |s.index| > 0
    requires forall l :: l in live ==>
      l < |s.levels| && s.Level(l).price in prices && s.index[Slot(s.Level(l).price, |s.index|)] == l
    ensures |live| <= |prices|
  {
    if live != {} {
      var l :| l in live;
      LivePrices(s, live - {l}, prices - {s.Level(l).price});
    }
  }

  lemma LevelIndexed<K(!new)>(s: Shape<K>, l: nat)
    requires Ok(s) && l < |s.levels| && !s.levels[l].isFree
    ensures |s.index| > 0 && l in s.fifo && s.index[Slot(s.Level(l).price, |s.index|)] == l
  {
    assert LevelOk(s, l);
  }

  /** There are no more level blocks in use than different prices at which orders rest. */
  lemma LevelCount<K(!new)>(s: Shape<K>)
    requires Ok(s)
    ensures |LiveSet(s.levels)| <= |PricesOf(SideView(s, Buy)) + PricesOf(SideView(s, Sell))|
  {
    var prices := PricesOf(SideView(s, Buy)) + PricesOf(SideView(s, Sell));
    assert |s.index| > 0;
    hide OkBut, SideView;
    forall l | l in LiveSet(s.levels)
      ensures s.Level(l).price in prices && s.index[Slot(s.Level(l).price, |s.index|)] == l
    {
      LevelIndexed(s, l);
      var e := LevelInView(s, l);
      var v := SideView(s, s.Level(l).side);
      var i :| 0 <= i < |v| && v[i] == e;
      assert v[i].order.price in PricesOf(v);
    }
    LivePrices(s, LiveSet(s.levels), prices);
  }

  /** Keys that occur once on their side and on one side only, as they do in every reachable book. */
  ghost predicate KeysOnce<K>(bids: seq<Entry<K>>, asks: seq<Entry<K>>) {
    && (forall i, j :: 0 <= i < j < |bids| ==> bids[i].key != bids[j].key)
    && (forall i, j :: 0 <= i < j < |asks| ==> asks[i].key != asks[j].key)
    && (forall i, j :: 0 <= i < |bids| && 0 <= j < |asks| ==> bids[i].key != asks[j].key)
  }

  lemma {:induction false} KeysExactly<K>(s: seq<Entry<K>>)
    requires forall i, j :: 0 <= i < j < |s| ==> s[i].key != s[j].key
    ensures |KeysOf(s)| == |s|
  {
    if s != [] {
      var init, e := s[..|s| - 1], s[|s| - 1];
      KeysExactly(init);
      assert KeysOf(s) == KeysOf(init) + {e.key};
      assert e.key !in KeysOf(init);
    }
  }

  lemma {:induction false} KeyBlocks<K(!new)>(s: Shape<K>, keys: set<K>, live: set<nat>)
    requires forall key :: key in keys ==> key in s.lookup && s.lookup[key] in live
    requires forall key :: key in keys ==> s.lookup[key] < |s.orders| && s.Order(s.lookup[key]).key == key
    ensures |keys| <= |live|
  {
    if keys != {} {
      var key :| key in keys;
      KeyBlocks(s, keys - {key}, live - {s.lookup[key]});
    }
  }

  /** As many order blocks are in use as orders rest. */
  lemma OrderCountExact<K(!new)>(s: Shape<K>)
    requires Ok(s) && KeysOnce(SideView(s, Buy), SideView(s, Sell))
    ensures |LiveSet(s.orders)| == |SideView(s, Buy)| + |SideView(s, Sell)|
  {
    hide OkBut, SideView;
    var bids, asks := SideView(s, Buy), SideView(s, Sell);
    OrderCount(s);
    KeysExactly(bids);
    KeysExactly(asks);
    assert KeysOf(bids) !! KeysOf(asks);
    assert |KeysOf(bids) + KeysOf(asks)| == |bids| + |asks|;
    forall key | key in KeysOf(bids) + KeysOf(asks)
      ensures key in s.lookup && s.lookup[key] in LiveSet(s.orders) && s.Order(s.lookup[key]).key == key
    {
      var side := if key in KeysOf(bids) then Buy else Sell;
      var i :| 0 <= i < |SideView(s, side)| && SideView(s, side)[i].key == key;
      ViewInLookup(s, side, i);
    }
    KeyBlocks(s, KeysOf(bids) + KeysOf(asks), LiveSet(s.orders));
  }

  /** Level l holds the given price, and is in use. */
  ghost predicate HoldsPrice<K>(s: Shape<K>, live: set<nat>, price: int) {
    && |s.index| > 0
    && var l := s.index[Slot(price, |s.index|)];
       0 <= l < |s.levels| && l in live && s.Level(l).price == price
  }

  lemma {:induction false} PriceBlocks<K>(s: Shape<K>, prices: set<int>, live: set<nat>)
    requires forall p {:trigger p in prices} :: p in prices ==> HoldsPrice(s, live, p)
    ensures |prices| <= |live|
  {
    if prices != {} {
      var p :| p in prices;
      assert HoldsPrice(s, live, p);
      var l: nat := s.index[Slot(p, |s.index|)];
      forall q | q in prices - {p}
        ensures HoldsPrice(s, live - {l}, q)
      {
        assert HoldsPrice(s, live, q);
      }
      PriceBlocks(s, prices - {p}, live - {l});
    }
  }

  lemma IndexedIsLive<K(!new)>(s: Shape<K>, side: Side, i: nat) returns (l: nat)
    requires Ok(s) && side != NoSide && i < |SideView(s, side)|
    ensures s.index[Slot(SideView(s, side)[i].order.price, |s.index|)] == l
    ensures l in LiveSet(s.levels) && s.Level(l).price == SideView(s, side)[i].order.price
  {
    l := OrderIndexed(s, side, i);
    assert IndexOk(s, Slot(SideView(s, side)[i].order.price, |s.index|)) && LevelOk(s, l);
  }

  /** As many level blocks are in use as there are different resting prices. */
  lemma LevelCountExact<K(!new)>(s: Shape<K>)
    requires Ok(s)
    ensures |LiveSet(s.levels)| == |PricesOf(SideView(s, Buy)) + PricesOf(SideView(s, Sell))|
  {
    LevelCount(s);
    assert |s.index| > 0;
    hide OkBut, SideView;
    var bids, asks := SideView(s, Buy), SideView(s, Sell);
    forall p | p in PricesOf(bids) + PricesOf(asks)
      ensures HoldsPrice(s, LiveSet(s.levels), p)
    {
      var side := if p in PricesOf(bids) then Buy else Sell;
      var i :| 0 <= i < |SideView(s, side)| && SideView(s, side)[i].order.price == p;
      var l := IndexedIsLive(s, side, i);
    }
    PriceBlocks(s, PricesOf(bids) + PricesOf(asks), LiveSet(s.levels));
  }

  /** There is a block left for one more order, and for its level if its slot is empty. */
  ghost predicate RoomFor<K>(bids: seq<Entry<K>>, asks: seq<Entry<K>>, price: int, n: nat, orderBlocks: nat,
      levelBlocks: nat)
    requires n > 0
  {
    && |bids| + |asks| < orderBlocks - 1
    && (!SlotUsed(bids, asks, price, n) ==> |PricesOf(bids) + PricesOf(asks)| < levelBlocks - 1)
  }
}
