/**
 * The pointer structure of a limit order book as a value: two pools of linked nodes, the price index, the
 * order lookup and the two heads, together with the rings they are meant to spell out. Ok says that all of
 * these agree; SideView reads off the resting orders of a side in the order in which they are served.
 */
module Shapes {
  import opened Types
  import opened Rings
  import opened PriceTime

  datatype LevelVal = LevelVal(side: Side, price: int, first: int)

  datatype Shape<K> = Shape(
    orders: Heap<Entry<K>>, levels: Heap<LevelVal>, index: seq<int>, lookup: map<K, nat>,
    bids: int, asks: int, bidRing: seq<nat>, askRing: seq<nat>, fifo: map<nat, seq<nat>>)
  {
    function RingOf(side: Side): seq<nat> { if side == Buy then bidRing else askRing }
    function HeadOf(side: Side): int { if side == Buy then bids else asks }

    function Level(l: nat): LevelVal
      requires l < |levels|
    {
      levels[l].item.val
    }

    function Order(o: nat): Entry<K>
      requires o < |orders|
    {
      orders[o].item.val
    }
  }

  /** The slot of a price in the price index. */
  function Slot(price: int, n: nat): nat
    requires n > 0
  {
    price % n
  }

  /** The orders at the given blocks, in sequence. */
  ghost function Entries<K>(orders: Heap<Entry<K>>, f: seq<nat>): seq<Entry<K>> {
    if f == [] then [] else (if f[0] < |orders| then [orders[f[0]].item.val] else []) + Entries(orders, f[1..])
  }

  /** The orders of the given levels, in sequence. */
  ghost function Flat<K>(orders: Heap<Entry<K>>, fifo: map<nat, seq<nat>>, ring: seq<nat>): seq<Entry<K>> {
    if ring == [] then []
    else (if ring[0] in fifo then Entries(orders, fifo[ring[0]]) else []) + Flat(orders, fifo, ring[1..])
  }

  ghost function SideView<K>(s: Shape<K>, side: Side): seq<Entry<K>> {
    Flat(s.orders, s.fifo, s.RingOf(side))
  }

  /** Level l is a level of the given side that holds orders. */
  ghost predicate RungOk<K>(s: Shape<K>, side: Side, l: nat) {
    l < |s.levels| && !s.levels[l].isFree && s.Level(l).side == side
  }

  ghost predicate Ordered(side: Side, levels: Heap<LevelVal>, l: nat, m: nat) {
    l < |levels| && m < |levels| && Better(side, levels[l].item.val.price, levels[m].item.val.price)
  }

  /** The levels of a side form a ring, strictly sorted from most to least aggressive, and the head is the first. */
  ghost predicate LadderOk<K>(s: Shape<K>, side: Side) {
    var ring := s.RingOf(side);
    && IsRing(s.levels, ring)
    && s.HeadOf(side) == (if ring == [] then NULL else ring[0])
    && (forall i :: 0 <= i < |ring| ==> RungOk(s, side, ring[i]))
    && (forall i, j {:trigger Ordered(side, s.levels, ring[i], ring[j])} ::
          0 <= i < j < |ring| ==> Ordered(side, s.levels, ring[i], ring[j]))
  }

  ghost predicate MemberOk<K>(s: Shape<K>, l: nat, o: nat) {
    && l < |s.levels| && o < |s.orders| && !s.orders[o].isFree
    && s.Order(o).order.side == s.Level(l).side && s.Order(o).order.price == s.Level(l).price
  }

  /** Level l is indexed, non-empty, and its orders form a ring that starts at its first order. */
  ghost predicate LevelOk<K>(s: Shape<K>, l: nat) {
    && l in s.fifo && l < |s.levels| && !s.levels[l].isFree && |s.index| > 0
    && s.Level(l).side != NoSide && l in s.RingOf(s.Level(l).side)
    && s.index[Slot(s.Level(l).price, |s.index|)] == l
    && s.fifo[l] != [] && s.Level(l).first == s.fifo[l][0]
    && IsRing(s.orders, s.fifo[l])
    && (forall o :: o in s.fifo[l] ==> MemberOk(s, l, o))
  }

  /** Order o is queued at the level its price is indexed to, and its key finds it. */
  ghost predicate HomeOk<K>(s: Shape<K>, o: nat) {
    && o < |s.orders| && |s.index| > 0
    && s.Order(o).key in s.lookup && s.lookup[s.Order(o).key] == o
    && var l := s.index[Slot(s.Order(o).order.price, |s.index|)];
       l >= 0 && l in s.fifo && o in s.fifo[l]
  }

  ghost predicate LookupOk<K>(s: Shape<K>, key: K) {
    key in s.lookup && s.lookup[key] < |s.orders| && !s.orders[s.lookup[key]].isFree
        && s.Order(s.lookup[key]).key == key
  }

  ghost predicate IndexOk<K>(s: Shape<K>, i: nat) {
    && i < |s.index|
    && (s.index[i] != NULL ==>
          && s.index[i] >= 0 && s.index[i] in s.fifo && s.index[i] < |s.levels|
          && Slot(s.Level(s.index[i]).price, |s.index|) == i)
  }

  /** All structures agree, except that order block o and level block x may be in use without being queued yet. */
  ghost predicate OkBut<K(!new)>(s: Shape<K>, o: int, x: int) {
    && |s.index| > 0
    && LadderOk(s, Buy) && LadderOk(s, Sell)
    && (forall l {:trigger LevelOk(s, l)} :: l in s.fifo ==> l != x && LevelOk(s, l) && (o < 0 || o !in s.fifo[l]))
    && (forall l :: l in s.bidRing ==> l in s.fifo)
    && (forall l :: l in s.askRing ==> l in s.fifo)
    && (forall l: nat :: l < |s.levels| && !s.levels[l].isFree && l != x ==> l in s.fifo)
    && (forall p: nat {:trigger HomeOk(s, p)} :: p < |s.orders| && !s.orders[p].isFree && p != o ==> HomeOk(s, p))
    && (forall i: nat {:trigger IndexOk(s, i)} :: i < |s.index| ==> IndexOk(s, i))
    && (forall key {:trigger LookupOk(s, key)} :: key in s.lookup ==> LookupOk(s, key) && s.lookup[key] != o)
  }

  ghost predicate Ok<K(!new)>(s: Shape<K>) {
    OkBut(s, NULL, NULL)
  }

  // ----- sequences read off the rings

  lemma {:induction false} EntriesConcat<K>(orders: Heap<Entry<K>>, a: seq<nat>, b: seq<nat>)
    ensures Entries(orders, a + b) == Entries(orders, a) + Entries(orders, b)
  {
    if a == [] {
      assert a + b == b;
    } else {
      assert (a + b)[1..] == a[1..] + b;
      EntriesConcat(orders, a[1..], b);
    }
  }

  lemma {:induction false} FlatConcat<K>(orders: Heap<Entry<K>>, fifo: map<nat, seq<nat>>, a: seq<nat>, b: seq<nat>)
    ensures Flat(orders, fifo, a + b) == Flat(orders, fifo, a) + Flat(orders, fifo, b)
  {
    if a == [] {
      assert a + b == b;
    } else {
      assert (a + b)[1..] == a[1..] + b;
      FlatConcat(orders, fifo, a[1..], b);
    }
  }

  lemma {:induction false} EntriesFrame<K>(orders: Heap<Entry<K>>, orders': Heap<Entry<K>>, f: seq<nat>)
    requires |orders'| == |orders|
    requires forall o :: o in f && o < |orders| ==> orders'[o].item.val == orders[o].item.val
    ensures Entries(orders', f) == Entries(orders, f)
  {
    if f != [] {
      EntriesFrame(orders, orders', f[1..]);
    }
  }

  lemma {:induction false} FlatFrame<K>(orders: Heap<Entry<K>>, fifo: map<nat, seq<nat>>,
                                        orders': Heap<Entry<K>>, fifo': map<nat, seq<nat>>, ring: seq<nat>)
    requires |orders'| == |orders|
    requires forall l :: l in ring ==>
      && (l in fifo <==> l in fifo')
      && (l in fifo ==>
          fifo'[l] == fifo[l]
          && forall o :: o in fifo[l] && o < |orders| ==> orders'[o].item.val == orders[o].item.val)
    ensures Flat(orders', fifo', ring) == Flat(orders, fifo, ring)
  {
    if ring != [] {
      if ring[0] in fifo {
        EntriesFrame(orders, orders', fifo[ring[0]]);
      }
      assert forall l :: l in ring[1..] ==> l in ring;
      FlatFrame(orders, fifo, orders', fifo', ring[1..]);
    }
  }

  /** Every order read off a FIFO sits in one of its blocks. */
  lemma {:induction false} EntriesMember<K>(orders: Heap<Entry<K>>, f: seq<nat>, i: nat) returns (o: nat)
    requires i < |Entries(orders, f)|
    ensures o in f && o < |orders| && Entries(orders, f)[i] == orders[o].item.val
  {
    if f[0] < |orders| && i == 0 {
      o := f[0];
    } else {
      o := EntriesMember(orders, f[1..], if f[0] < |orders| then i - 1 else i);
    }
  }

  /** Every order read off a side sits in a block of one of its levels. */
  lemma {:induction false} FlatMember<K>(orders: Heap<Entry<K>>, fifo: map<nat, seq<nat>>, ring: seq<nat>, i: nat)
    returns (l: nat, o: nat)
    requires i < |Flat(orders, fifo, ring)|
    ensures l in ring && l in fifo && o in fifo[l] && o < |orders|
    ensures Flat(orders, fifo, ring)[i] == orders[o].item.val
  {
    var head := if ring[0] in fifo then Entries(orders, fifo[ring[0]]) else [];
    if i < |head| {
      l := ring[0];
      o := EntriesMember(orders, fifo[l], i);
    } else {
      l, o := FlatMember(orders, fifo, ring[1..], i - |head|);
    }
  }

  /** Every queued block contributes its order. */
  lemma {:induction false} EntriesContain<K>(orders: Heap<Entry<K>>, f: seq<nat>, o: nat)
    requires o in f && o < |orders|
    ensures orders[o].item.val in Entries(orders, f)
  {
    if f[0] != o {
      assert f == [f[0]] + f[1..];
      EntriesContain(orders, f[1..], o);
    }
  }

  lemma FlatAround<K>(orders: Heap<Entry<K>>, fifo: map<nat, seq<nat>>, ring: seq<nat>, k: nat)
    requires k < |ring| && ring[k] in fifo
    ensures Flat(orders, fifo, ring)
         == Flat(orders, fifo, ring[..k]) + Entries(orders, fifo[ring[k]]) + Flat(orders, fifo, ring[k + 1..])
  {
    assert ring == ring[..k] + ([ring[k]] + ring[k + 1..]);
    FlatConcat(orders, fifo, ring[..k], [ring[k]] + ring[k + 1..]);
    FlatConcat(orders, fifo, [ring[k]], ring[k + 1..]);
    assert Flat(orders, fifo, [ring[k]]) == Entries(orders, fifo[ring[k]]);
  }

  /** An order read off some levels has the side and price of one of them. */
  lemma FlatPrice<K(!new)>(s: Shape<K>, o: int, x: int, part: seq<nat>, i: nat) returns (l: nat)
    requires OkBut(s, o, x) && forall m :: m in part ==> m in s.fifo
    requires i < |Flat(s.orders, s.fifo, part)|
    ensures l in part && l < |s.levels|
    ensures var e := Flat(s.orders, s.fifo, part)[i];
            e.order.side == s.Level(l).side && e.order.price == s.Level(l).price
  {
    var p;
    l, p := FlatMember(s.orders, s.fifo, part, i);
    assert LevelOk(s, l);
    assert MemberOk(s, l, p);
  }

  /** An order belongs to the FIFO of one level only. */
  lemma OneHome<K(!new)>(s: Shape<K>, o: int, x: int, l: nat, m: nat, p: nat)
    requires OkBut(s, o, x) && l in s.fifo && m in s.fifo && p in s.fifo[l] && p in s.fifo[m]
    ensures l == m
  {
    assert LevelOk(s, l) && LevelOk(s, m);
    assert MemberOk(s, l, p) && MemberOk(s, m, p);
  }

  /** A queued order is found under its own key. */
  lemma MemberKey<K(!new)>(s: Shape<K>, o: int, x: int, l: nat, p: nat)
    requires OkBut(s, o, x) && l in s.fifo && p in s.fifo[l]
    ensures p < |s.orders| && s.Order(p).key in s.lookup && s.lookup[s.Order(p).key] == p
  {
    assert LevelOk(s, l);
    assert MemberOk(s, l, p);
    assert HomeOk(s, p);
  }

  /** The levels of a side hold exactly the keys of their own orders. */
  lemma FlatKey<K(!new)>(s: Shape<K>, o: int, x: int, part: seq<nat>, i: nat) returns (p: nat)
    requires OkBut(s, o, x) && forall m :: m in part ==> m in s.fifo
    requires i < |Flat(s.orders, s.fifo, part)|
    ensures var key := Flat(s.orders, s.fifo, part)[i].key;
            key in s.lookup && s.lookup[key] == p
    ensures exists l :: l in part && p in s.fifo[l]
  {
    var l;
    l, p := FlatMember(s.orders, s.fifo, part, i);
    MemberKey(s, o, x, l, p);
  }

  lemma {:induction false} FlatContains<K>(orders: Heap<Entry<K>>, fifo: map<nat, seq<nat>>, ring: seq<nat>, l: nat,
      o: nat)
    requires l in ring && l in fifo && o in fifo[l] && o < |orders|
    ensures orders[o].item.val in Flat(orders, fifo, ring)
  {
    if ring[0] == l {
      EntriesContain(orders, fifo[l], o);
    } else {
      assert ring == [ring[0]] + ring[1..];
      FlatContains(orders, fifo, ring[1..], l, o);
    }
  }

  /** Every live order is seen on its side. */
  lemma LiveInView<K(!new)>(s: Shape<K>, o: nat)
    requires Ok(s) && o < |s.orders| && !s.orders[o].isFree
    ensures s.Order(o) in SideView(s, s.Order(o).order.side) && s.Order(o).order.side != NoSide
    ensures s.Order(o).key in s.lookup && s.lookup[s.Order(o).key] == o
  {
    assert HomeOk(s, o);
    var l := s.index[Slot(s.Order(o).order.price, |s.index|)];
    assert LevelOk(s, l);
    assert MemberOk(s, l, o);
    FlatContains(s.orders, s.fifo, s.RingOf(s.Order(o).order.side), l, o);
  }

  /** Every order seen on a side is live and found by its key. */
  lemma ViewInLookup<K(!new)>(s: Shape<K>, side: Side, i: nat)
    requires Ok(s) && side != NoSide && i < |SideView(s, side)|
    ensures SideView(s, side)[i].key in s.lookup
    ensures var o := s.lookup[SideView(s, side)[i].key];
            o < |s.orders| && !s.orders[o].isFree && s.Order(o) == SideView(s, side)[i]
    ensures SideView(s, side)[i].order.side == side
  {
    var l, o := FlatMember(s.orders, s.fifo, s.RingOf(side), i);
    MemberKey(s, NULL, NULL, l, o);
    assert LevelOk(s, l) && MemberOk(s, l, o) && RungOk(s, side, l);
  }

  /** A level has an order at its price on its side. */
  lemma LevelInView<K(!new)>(s: Shape<K>, l: nat) returns (e: Entry<K>)
    requires Ok(s) && l in s.fifo
    ensures l < |s.levels| && s.Level(l).side != NoSide
    ensures e in SideView(s, s.Level(l).side) && e.order.price == s.Level(l).price
  {
    assert LevelOk(s, l);
    var o := s.fifo[l][0];
    assert MemberOk(s, l, o);
    e := s.Order(o);
    FlatContains(s.orders, s.fifo, s.RingOf(s.Level(l).side), l, o);
  }

  /** The head of a side leads to the order that is served first. */
  lemma HeadView<K(!new)>(s: Shape<K>, side: Side)
    requires Ok(s) && side != NoSide
    ensures s.HeadOf(side) == NULL <==> SideView(s, side) == []
    ensures s.HeadOf(side) != NULL ==>
              && 0 <= s.HeadOf(side) < |s.levels|
              && var o := s.Level(s.HeadOf(side)).first;
                 0 <= o < |s.orders| && !s.orders[o].isFree && s.Order(o) == SideView(s, side)[0]
  {
    var ring := s.RingOf(side);
    if ring != [] {
      assert ring[0] in ring && LevelOk(s, ring[0]) && RungOk(s, side, ring[0]);
      assert MemberOk(s, ring[0], s.fifo[ring[0]][0]);
    }
  }
}
