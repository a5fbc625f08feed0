/** Adding an order to the pointer structure: at the end of an existing level, or with a level of its own. */
module ShapeInsert {
  import opened Types
  import opened Rings
  import opened PriceTime
  import opened Shapes

  /** x can be linked as rung k of its side: everything before is more aggressive, everything after less. */
  ghost predicate Fits<K>(s: Shape<K>, x: nat, k: nat) {
    && x < |s.levels| && !s.levels[x].isFree && s.Level(x).side != NoSide
    && var side := s.Level(x).side;
       var ring := s.RingOf(side);
    && k <= |ring| && x !in ring
    && (forall i {:trigger Ordered(side, s.levels, ring[i], x)} :: 0 <= i < k ==> Ordered(side, s.levels, ring[i], x))
    && (forall i {:trigger Ordered(side, s.levels, x, ring[i])} :: k <= i < |ring| ==>
      Ordered(side, s.levels, x, ring[i]))
  }

  ghost function LinkedLevels(levels: Heap<LevelVal>, ring: seq<nat>, x: nat, k: nat): Heap<LevelVal>
    requires x < |levels| && k <= |ring| && forall i :: 0 <= i < |ring| ==> ring[i] < |levels|
  {
    if ring == [] then Alone(levels, x)
    else var q := if k == |ring| then 0 else k;
      Splice(levels, ring[Before(q, |ring|)], x, ring[q])
  }

  lemma LinkedLevelsRing(levels: Heap<LevelVal>, ring: seq<nat>, x: nat, k: nat)
    requires IsRing(levels, ring) && x < |levels| && !levels[x].isFree && x !in ring && k <= |ring|
    ensures forall i :: 0 <= i < |ring| ==> ring[i] < |levels|
    ensures IsRing(LinkedLevels(levels, ring, x, k), ring[..k] + [x] + ring[k..])
    ensures SameExceptLinks(levels, LinkedLevels(levels, ring, x, k), (set l | l in ring) + {x})
  {
    RingMembers(levels, ring);
    if ring == [] {
      AloneIsRing(levels, x);
      assert ring[..k] + [x] + ring[k..] == [x];
    } else if k == |ring| {
      SpliceLast(levels, ring, x);
      assert ring[..k] + [x] + ring[k..] == ring + [x];
    } else {
      SpliceAt(levels, ring, k, x);
    }
  }

  /** t is s with level x linked as rung k of its side and entered in the price index. */
  ghost predicate Linked<K>(s: Shape<K>, t: Shape<K>, x: nat, k: nat) {
    && x < |s.levels| && |s.index| > 0
    && var side := s.Level(x).side;
       var ring, ring' := s.RingOf(side), t.RingOf(side);
    && k <= |ring| && ring' == ring[..k] + [x] + ring[k..]
    && t.HeadOf(side) == ring'[0] && IsRing(t.levels, ring')
    && SameExceptLinks(s.levels, t.levels, (set l | l in ring) + {x})
    && t.index == s.index[Slot(s.Level(x).price, |s.index|) := x]
    && OtherSideSame(s, t, side)
  }

  ghost predicate OtherSideSame<K>(s: Shape<K>, t: Shape<K>, side: Side) {
    t.RingOf(Opposite(side)) == s.RingOf(Opposite(side)) && t.HeadOf(Opposite(side)) == s.HeadOf(Opposite(side))
  }

  lemma LinkedLadder<K>(s: Shape<K>, t: Shape<K>, x: nat, k: nat)
    requires Fits(s, x, k) && LadderOk(s, s.Level(x).side) && Linked(s, t, x, k)
    ensures LadderOk(t, s.Level(x).side)
  {
    var side := s.Level(x).side;
    var ring, ring' := s.RingOf(side), t.RingOf(side);
    forall i | 0 <= i < |ring'|
      ensures RungOk(t, side, ring'[i])
    {
      if i != k {
        assert RungOk(s, side, ring[if i < k then i else i - 1]);
      }
    }
    forall i, j | 0 <= i < j < |ring'|
      ensures Ordered(side, t.levels, ring'[i], ring'[j])
    {
      if i == k {
        assert Ordered(side, s.levels, x, ring[j - 1]);
      } else if j == k {
        assert Ordered(side, s.levels, ring[i], x);
      } else {
        assert Ordered(side, s.levels, ring[if i < k then i else i - 1], ring[if j < k then j else j - 1]);
      }
    }
  }

  /** A ladder is untouched by changes to blocks outside it. */
  lemma LadderFrame<K>(s: Shape<K>, t: Shape<K>, side: Side)
    requires LadderOk(s, side) && t.RingOf(side) == s.RingOf(side) && t.HeadOf(side) == s.HeadOf(side)
    requires |t.levels| == |s.levels|
    requires forall l :: l in s.RingOf(side) && l < |s.levels| ==> t.levels[l] == s.levels[l]
    ensures LadderOk(t, side)
  {
    var ring := s.RingOf(side);
    RingFrame(s.levels, t.levels, ring);
    forall i | 0 <= i < |ring|
      ensures RungOk(t, side, ring[i])
    {
      assert RungOk(s, side, ring[i]);
    }
    forall i, j | 0 <= i < j < |ring|
      ensures Ordered(side, t.levels, ring[i], ring[j])
    {
      assert Ordered(side, s.levels, ring[i], ring[j]);
    }
  }

  // ----- the newcomer opens a level

  /** Order o and level x are allocated, and x is ready to hold o. */
  ghost predicate Opens<K(!new)>(s: Shape<K>, o: nat, x: nat, k: nat) {
    && OkBut(s, o, x) && Fits(s, x, k)
    && o < |s.orders| && !s.orders[o].isFree
    && s.Order(o).key !in s.lookup
    && s.Level(x) == LevelVal(s.Order(o).order.side, s.Order(o).order.price, o)
    && s.index[Slot(s.Level(x).price, |s.index|)] == NULL
  }

  /** t is s after order o was queued alone at level x, linked as rung k. */
  ghost predicate Opened<K>(s: Shape<K>, t: Shape<K>, o: nat, x: nat, k: nat) {
    && Linked(s, t, x, k) && o < |s.orders|
    && IsRing(t.orders, [o]) && SameExceptLinks(s.orders, t.orders, {o})
    && t.fifo == s.fifo[x := [o]] && t.lookup == s.lookup[s.Order(o).key := o]
  }

  lemma OpenedLadders<K(!new)>(s: Shape<K>, t: Shape<K>, o: nat, x: nat, k: nat)
    requires Opens(s, o, x, k) && Opened(s, t, o, x, k)
    ensures LadderOk(t, Buy) && LadderOk(t, Sell)
  {
    var side := s.Level(x).side;
    var other := Opposite(side);
    LinkedLadder(s, t, x, k);
    forall l | l in s.RingOf(other) && l < |s.levels|
      ensures t.levels[l] == s.levels[l]
    {
      assert RungOk(s, other, l);
      assert l in s.fifo;
    }
    LadderFrame(s, t, other);
  }

  lemma LevelStanding<K(!new)>(s: Shape<K>, o: int, x: int, l: nat)
    requires OkBut(s, o, x) && l in s.fifo
    ensures LevelOk(s, l) && l != x && (o < 0 || o !in s.fifo[l])
  {
    assert LevelOk(s, l);
  }

  lemma SplicedMember(ring: seq<nat>, k: nat, x: nat, l: nat)
    requires k <= |ring| && (l in ring || l == x)
    ensures l in ring[..k] + [x] + ring[k..]
  {
    var ring' := ring[..k] + [x] + ring[k..];
    if l == x {
      assert ring'[k] == x;
    } else {
      var i :| 0 <= i < |ring| && ring[i] == l;
      assert ring'[if i < k then i else i + 1] == l;
    }
  }

  lemma OpenedLevels<K(!new)>(s: Shape<K>, t: Shape<K>, o: nat, x: nat, k: nat, l: nat)
    requires Opens(s, o, x, k) && Opened(s, t, o, x, k) && l in t.fifo
    ensures LevelOk(t, l) && l in t.RingOf(t.Level(l).side)
  {
    hide OkBut, Fits;
    var ring := s.RingOf(s.Level(x).side);
    if l == x {
      hide IsRing;
      FitsBoundary(s, x, k);
      FitsSide(s, x, k);
      SplicedMember(ring, k, x, x);
      assert MemberOk(t, x, o);
    } else {
      LevelStanding(s, o, x, l);
      if l in ring {
        SplicedMember(ring, k, x, l);
      }
      OldLevelStays(s, t, o, x, k, l);
    }
  }

  lemma FitsSide<K>(s: Shape<K>, x: nat, k: nat)
    requires Fits(s, x, k)
    ensures s.Level(x).side != NoSide && !s.levels[x].isFree
  {
  }

  lemma OldLevelStays<K(!new)>(s: Shape<K>, t: Shape<K>, o: nat, x: nat, k: nat, l: nat)
    requires Opens(s, o, x, k) && Opened(s, t, o, x, k)
    requires LevelOk(s, l) && l != x && o !in s.fifo[l] && l in t.RingOf(s.Level(l).side)
    ensures LevelOk(t, l)
  {
    hide OkBut, Fits;
    RingFrame(s.orders, t.orders, s.fifo[l]);
    hide IsRing;
    forall p | p in s.fifo[l]
      ensures MemberOk(t, l, p)
    {
      assert MemberOk(s, l, p);
    }
  }

  lemma OpenedHome<K(!new)>(s: Shape<K>, t: Shape<K>, o: nat, x: nat, k: nat, p: nat)
    requires Opens(s, o, x, k) && Opened(s, t, o, x, k) && p < |t.orders| && !t.orders[p].isFree
    ensures HomeOk(t, p)
  {
    var n := |s.index|;
    if p == o {
      assert t.index[Slot(s.Order(o).order.price, n)] == x;
    } else {
      assert HomeOk(s, p);
      var slot := Slot(s.Order(p).order.price, n);
      var l := s.index[slot];
      assert LevelOk(s, l);
      assert t.index[slot] == l;
      assert t.Order(p) == s.Order(p);
    }
  }

  lemma OpenedTables<K(!new)>(s: Shape<K>, t: Shape<K>, o: nat, x: nat, k: nat)
    requires Opens(s, o, x, k) && Opened(s, t, o, x, k)
    ensures forall i: nat :: i < |t.index| ==> IndexOk(t, i)
    ensures forall key :: key in t.lookup ==> LookupOk(t, key)
  {
    forall i: nat | i < |t.index|
      ensures IndexOk(t, i)
    {
      assert IndexOk(s, i);
    }
    forall key | key in t.lookup
      ensures LookupOk(t, key)
    {
      if key != s.Order(o).key {
        assert LookupOk(s, key);
      }
    }
  }

  lemma OpenedRungs<K(!new)>(s: Shape<K>, t: Shape<K>, o: nat, x: nat, k: nat)
    requires Opens(s, o, x, k) && Opened(s, t, o, x, k)
    ensures forall l :: l in t.bidRing || l in t.askRing ==> l in t.fifo
    ensures forall l: nat :: l < |t.levels| && !t.levels[l].isFree ==> l in t.fifo
  {
  }

  lemma OpenedOk<K(!new)>(s: Shape<K>, t: Shape<K>, o: nat, x: nat, k: nat)
    requires Opens(s, o, x, k) && Opened(s, t, o, x, k)
    ensures Ok(t)
  {
    OpenedLadders(s, t, o, x, k);
    OpenedTables(s, t, o, x, k);
    OpenedRungs(s, t, o, x, k);
    forall l | l in t.fifo
      ensures LevelOk(t, l)
    {
      OpenedLevels(s, t, o, x, k, l);
    }
    forall p: nat | p < |t.orders| && !t.orders[p].isFree
      ensures HomeOk(t, p)
    {
      OpenedHome(s, t, o, x, k, p);
    }
  }

  ghost predicate NotBehind<K>(s: Shape<K>, side: Side, l: nat, price: int) {
    l < |s.levels| && AtLeast(side, s.Level(l).price, price)
  }

  ghost predicate Behind<K>(s: Shape<K>, side: Side, l: nat, price: int) {
    l < |s.levels| && Better(side, price, s.Level(l).price)
  }

  /** A newcomer queues behind exactly the orders of the levels that are not behind its price. */
  lemma RungRank<K(!new)>(s: Shape<K>, o: int, x: int, side: Side, k: nat, price: int)
    requires OkBut(s, o, x) && k <= |s.RingOf(side)|
    requires forall i :: 0 <= i < k ==> NotBehind(s, side, s.RingOf(side)[i], price)
    requires forall i :: k <= i < |s.RingOf(side)| ==> Behind(s, side, s.RingOf(side)[i], price)
    ensures var front, back := Flat(s.orders, s.fifo, s.RingOf(side)[..k]), Flat(s.orders, s.fifo, s.RingOf(side)[k..]);
            && SideView(s, side) == front + back
            && Rank(front + back, side, price) == |front|
  {
    hide OkBut, Flat, Rank;
    var ring := s.RingOf(side);
    var front, back := Flat(s.orders, s.fifo, ring[..k]), Flat(s.orders, s.fifo, ring[k..]);
    assert ring == ring[..k] + ring[k..];
    FlatConcat(s.orders, s.fifo, ring[..k], ring[k..]);
    forall i | 0 <= i < |front|
      ensures AtLeast(side, front[i].order.price, price)
    {
      FrontPrice(s, o, x, side, k, price, i);
    }
    if back != [] {
      BackPrice(s, o, x, side, k, price);
    }
    RankSplit(front, back, side, price);
  }

  lemma FrontPrice<K(!new)>(s: Shape<K>, o: int, x: int, side: Side, k: nat, price: int, i: nat)
    requires OkBut(s, o, x) && k <= |s.RingOf(side)|
    requires forall j :: 0 <= j < k ==> NotBehind(s, side, s.RingOf(side)[j], price)
    requires i < |Flat(s.orders, s.fifo, s.RingOf(side)[..k])|
    ensures AtLeast(side, Flat(s.orders, s.fifo, s.RingOf(side)[..k])[i].order.price, price)
  {
    var ring := s.RingOf(side);
    assert forall l :: l in ring[..k] ==> l in ring;
    var l := FlatPrice(s, o, x, ring[..k], i);
    var j :| 0 <= j < k && ring[j] == l;
    assert NotBehind(s, side, ring[j], price);
  }

  lemma BackPrice<K(!new)>(s: Shape<K>, o: int, x: int, side: Side, k: nat, price: int)
    requires OkBut(s, o, x) && k <= |s.RingOf(side)|
    requires forall j :: k <= j < |s.RingOf(side)| ==> Behind(s, side, s.RingOf(side)[j], price)
    requires Flat(s.orders, s.fifo, s.RingOf(side)[k..]) != []
    ensures Better(side, price, Flat(s.orders, s.fifo, s.RingOf(side)[k..])[0].order.price)
  {
    var ring := s.RingOf(side);
    assert forall l :: l in ring[k..] ==> l in ring;
    var l := FlatPrice(s, o, x, ring[k..], 0);
    var j :| 0 <= j < |ring[k..]| && ring[k..][j] == l;
    assert Behind(s, side, ring[k + j], price);
  }

  lemma FitsBoundary<K(!new)>(s: Shape<K>, x: nat, k: nat)
    requires Fits(s, x, k)
    ensures var side := s.Level(x).side; var ring := s.RingOf(side);
            && k <= |ring|
            && (forall i :: 0 <= i < k ==> NotBehind(s, side, ring[i], s.Level(x).price))
            && (forall i :: k <= i < |ring| ==> Behind(s, side, ring[i], s.Level(x).price))
  {
    var side := s.Level(x).side;
    var ring := s.RingOf(side);
    forall i | 0 <= i < k
      ensures NotBehind(s, side, ring[i], s.Level(x).price)
    {
      assert Ordered(side, s.levels, ring[i], x);
    }
    forall i | k <= i < |ring|
      ensures Behind(s, side, ring[i], s.Level(x).price)
    {
      assert Ordered(side, s.levels, x, ring[i]);
    }
  }

  lemma RungsInFifo<K(!new)>(s: Shape<K>, o: int, x: int, side: Side)
    requires OkBut(s, o, x)
    ensures forall l :: l in s.RingOf(side) ==> l in s.fifo
  {
  }

  lemma SingleEntry<K>(orders: Heap<Entry<K>>, o: nat)
    requires o < |orders|
    ensures Entries(orders, [o]) == [orders[o].item.val]
  {
  }

  /** A ring read with x linked as rung k. */
  lemma OpenedSide<K(!new)>(s: Shape<K>, t: Shape<K>, o: nat, x: nat, k: nat, ring: seq<nat>)
    requires Opens(s, o, x, k) && Opened(s, t, o, x, k) && k <= |ring|
    requires forall l :: l in ring ==> l in s.fifo
    ensures Flat(t.orders, t.fifo, ring[..k] + [x] + ring[k..])
         == Flat(s.orders, s.fifo, ring[..k]) + [s.Order(o)] + Flat(s.orders, s.fifo, ring[k..])
  {
    hide OkBut, Fits, IsRing, LadderOk;
    var ring' := ring[..k] + [x] + ring[k..];
    assert ring'[k] == x && ring'[..k] == ring[..k] && ring'[k + 1..] == ring[k..];
    OpenedFlat(s, t, o, x, k, ring[..k]);
    OpenedFlat(s, t, o, x, k, ring[k..]);
    FlatAround(t.orders, t.fifo, ring', k);
    SingleEntry(t.orders, o);
  }

  lemma OpenedView<K(!new)>(s: Shape<K>, t: Shape<K>, o: nat, x: nat, k: nat)
    requires Opens(s, o, x, k) && Opened(s, t, o, x, k)
    ensures SideView(t, s.Level(x).side) == Insert(SideView(s, s.Level(x).side), s.Order(o))
    ensures SideView(t, Opposite(s.Level(x).side)) == SideView(s, Opposite(s.Level(x).side))
  {
    hide OkBut, Fits, IsRing, LadderOk, Flat, Rank;
    var side := s.Level(x).side;
    FitsBoundary(s, x, k);
    RungsInFifo(s, o, x, side);
    RungsInFifo(s, o, x, Opposite(side));
    RungRank(s, o, x, side, k, s.Order(o).order.price);
    OpenedSide(s, t, o, x, k, s.RingOf(side));
    OpenedFlat(s, t, o, x, k, s.RingOf(Opposite(side)));
  }

  lemma OpenedFlat<K(!new)>(s: Shape<K>, t: Shape<K>, o: nat, x: nat, k: nat, part: seq<nat>)
    requires Opens(s, o, x, k) && Opened(s, t, o, x, k)
    requires forall l :: l in part ==> l in s.fifo
    ensures Flat(t.orders, t.fifo, part) == Flat(s.orders, s.fifo, part)
  {
    assert x !in s.fifo by { assert x in s.fifo ==> !LevelOk(s, x); }
    FlatFrame(s.orders, s.fifo, t.orders, t.fifo, part);
  }

  // ----- the newcomer joins an existing level

  /** Order o is allocated and not queued yet, and level l, of whatever side and price, exists. */
  ghost predicate Joins<K(!new)>(s: Shape<K>, o: nat, l: nat) {
    && OkBut(s, o, NULL) && l in s.fifo && LevelOk(s, l)
    && o < |s.orders| && !s.orders[o].isFree
    && s.Order(o).key !in s.lookup
  }

  /** Order o has the side and price of level l. */
  ghost predicate Belongs<K>(s: Shape<K>, o: nat, l: nat) {
    && o < |s.orders| && l < |s.levels|
    && s.Level(l).side == s.Order(o).order.side && s.Level(l).price == s.Order(o).order.price
  }

  /** t is s after order o was queued last at level l. */
  ghost predicate Joined<K>(s: Shape<K>, t: Shape<K>, o: nat, l: nat) {
    && l in s.fifo && o < |s.orders|
    && IsRing(t.orders, s.fifo[l] + [o]) && SameExceptLinks(s.orders, t.orders, (set p | p in s.fifo[l]) + {o})
    && t.fifo == s.fifo[l := s.fifo[l] + [o]]
    && t == s.(orders := t.orders, fifo := t.fifo, lookup := s.lookup[s.Order(o).key := o])
  }

  lemma JoinedLevels<K(!new)>(s: Shape<K>, t: Shape<K>, o: nat, l: nat, m: nat)
    requires Joins(s, o, l) && Belongs(s, o, l) && Joined(s, t, o, l) && m in t.fifo
    ensures LevelOk(t, m)
  {
    assert LevelOk(s, m);
    if m == l {
      forall p | p in t.fifo[l]
        ensures MemberOk(t, l, p)
      {
        if p != o {
          assert p in s.fifo[l];
          assert MemberOk(s, l, p);
        }
      }
    } else {
      forall p | p in s.fifo[m]
        ensures MemberOk(t, m, p) && p !in s.fifo[l] && p != o
      {
        assert MemberOk(s, m, p);
        if p in s.fifo[l] {
          OneHome(s, o, NULL, l, m, p);
        }
      }
      RingFrame(s.orders, t.orders, s.fifo[m]);
    }
  }

  lemma JoinedHome<K(!new)>(s: Shape<K>, t: Shape<K>, o: nat, l: nat, p: nat)
    requires Joins(s, o, l) && Belongs(s, o, l) && Joined(s, t, o, l) && p < |t.orders| && !t.orders[p].isFree
    ensures HomeOk(t, p)
  {
    if p != o {
      assert HomeOk(s, p);
    }
  }

  lemma JoinedOk<K(!new)>(s: Shape<K>, t: Shape<K>, o: nat, l: nat)
    requires Joins(s, o, l) && Belongs(s, o, l) && Joined(s, t, o, l)
    ensures Ok(t)
  {
    LadderFrame(s, t, Buy);
    LadderFrame(s, t, Sell);
    forall m | m in t.fifo
      ensures LevelOk(t, m)
    {
      JoinedLevels(s, t, o, l, m);
    }
    forall p: nat | p < |t.orders| && !t.orders[p].isFree
      ensures HomeOk(t, p)
    {
      JoinedHome(s, t, o, l, p);
    }
    forall i: nat | i < |t.index|
      ensures IndexOk(t, i)
    {
      assert IndexOk(s, i);
    }
    forall key | key in t.lookup
      ensures LookupOk(t, key)
    {
      if key != s.Order(o).key {
        assert LookupOk(s, key);
      }
    }
  }

  /** The rungs up to level l are not behind its price, those after it are. */
  lemma RungsAround<K(!new)>(s: Shape<K>, o: int, x: int, side: Side, k: nat)
    requires OkBut(s, o, x) && side != NoSide && k < |s.RingOf(side)|
    ensures s.RingOf(side)[k] < |s.levels|
    ensures var price := s.Level(s.RingOf(side)[k]).price;
            && (forall i :: 0 <= i < k + 1 ==> NotBehind(s, side, s.RingOf(side)[i], price))
            && (forall i :: k + 1 <= i < |s.RingOf(side)| ==> Behind(s, side, s.RingOf(side)[i], price))
  {
    var ring := s.RingOf(side);
    assert RungOk(s, side, ring[k]);
    var price := s.Level(ring[k]).price;
    forall i | 0 <= i < k + 1
      ensures NotBehind(s, side, ring[i], price)
    {
      assert i < k ==> Ordered(side, s.levels, ring[i], ring[k]);
    }
    forall i | k + 1 <= i < |ring|
      ensures Behind(s, side, ring[i], price)
    {
      assert Ordered(side, s.levels, ring[k], ring[i]);
    }
  }

  lemma JoinedFlat<K(!new)>(s: Shape<K>, t: Shape<K>, o: nat, l: nat, part: seq<nat>)
    requires Joins(s, o, l) && Joined(s, t, o, l) && l !in part
    ensures Flat(t.orders, t.fifo, part) == Flat(s.orders, s.fifo, part)
  {
    FlatFrame(s.orders, s.fifo, t.orders, t.fifo, part);
  }

  lemma JoinedSide<K(!new)>(s: Shape<K>, t: Shape<K>, o: nat, l: nat, ring: seq<nat>, k: nat)
    requires Joins(s, o, l) && Joined(s, t, o, l) && k < |ring| && ring[k] == l && Distinct(ring)
    ensures Flat(t.orders, t.fifo, ring)
         == Flat(s.orders, s.fifo, ring[..k + 1]) + [s.Order(o)] + Flat(s.orders, s.fifo, ring[k + 1..])
  {
    hide OkBut, IsRing, LevelOk, Flat, Entries;
    JoinedFlat(s, t, o, l, ring[..k]);
    JoinedFlat(s, t, o, l, ring[k + 1..]);
    FlatAround(t.orders, t.fifo, ring, k);
    JoinedEntries(s.orders, t.orders, s.fifo[l], o);
    FlatUpTo(s.orders, s.fifo, ring, k);
  }

  lemma JoinedEntries<K>(orders: Heap<Entry<K>>, orders': Heap<Entry<K>>, f: seq<nat>, o: nat)
    requires o < |orders| == |orders'|
    requires forall p: nat :: p < |orders| ==> orders'[p].item.val == orders[p].item.val
    ensures Entries(orders', f + [o]) == Entries(orders, f) + [orders[o].item.val]
  {
    EntriesConcat(orders', f, [o]);
    assert Entries(orders', [o]) == [orders[o].item.val];
    EntriesFrame(orders, orders', f);
  }

  lemma FlatUpTo<K>(orders: Heap<Entry<K>>, fifo: map<nat, seq<nat>>, ring: seq<nat>, k: nat)
    requires k < |ring| && ring[k] in fifo
    ensures Flat(orders, fifo, ring[..k + 1]) == Flat(orders, fifo, ring[..k]) + Entries(orders, fifo[ring[k]])
  {
    var part := ring[..k + 1];
    FlatAround(orders, fifo, part, k);
    assert part[..k] == ring[..k] && part[k + 1..] == [];
  }

  /** An order queued at a level is seen behind the orders of that level, whatever its own side and price. */
  lemma JoinedView<K(!new)>(s: Shape<K>, t: Shape<K>, o: nat, l: nat)
    requires Joins(s, o, l) && Joined(s, t, o, l)
    ensures l < |s.levels|
    ensures var side := s.Level(l).side;
            && SideView(t, side) == Appended(SideView(s, side), s.Order(o), side, s.Level(l).price)
            && SideView(t, Opposite(side)) == SideView(s, Opposite(side))
  {
    hide OkBut, IsRing, Flat, Rank, SameExceptLinks, Distinct, NotBehind, Behind;
    LevelSide(s, l);
    hide LevelOk;
    var side := s.Level(l).side;
    var ring := s.RingOf(side);
    RungsInFifo(s, o, NULL, side);
    RingDistinct(s, o, NULL, side);
    var k :| 0 <= k < |ring| && ring[k] == l;
    RungsAround(s, o, NULL, side, k);
    RungRank(s, o, NULL, side, k + 1, s.Level(l).price);
    JoinedSide(s, t, o, l, ring, k);
    OtherSideDisjoint(s, o, NULL, side, l);
    JoinedFlat(s, t, o, l, s.RingOf(Opposite(side)));
  }

  lemma LevelSide<K>(s: Shape<K>, l: nat)
    requires LevelOk(s, l)
    ensures l < |s.levels| && s.Level(l).side != NoSide && l in s.RingOf(s.Level(l).side)
  {
  }

  lemma RingDistinct<K(!new)>(s: Shape<K>, o: int, x: int, side: Side)
    requires OkBut(s, o, x) && side != NoSide
    ensures Distinct(s.RingOf(side))
  {
  }

  lemma OtherSideDisjoint<K(!new)>(s: Shape<K>, o: int, x: int, side: Side, l: nat)
    requires OkBut(s, o, x) && side != NoSide && l in s.RingOf(side)
    ensures l !in s.RingOf(Opposite(side))
  {
    assert RungOk(s, side, l);
    assert l in s.RingOf(Opposite(side)) ==> RungOk(s, Opposite(side), l);
  }

  /** The last order of an existing level is the one the newcomer's priority is counted from. */
  lemma LastAtPrice<K(!new)>(s: Shape<K>, o: int, x: int, side: Side, k: nat)
    requires OkBut(s, o, x) && side != NoSide && k < |s.RingOf(side)|
    ensures var l := s.RingOf(side)[k];
            && l in s.fifo && l < |s.levels| && s.fifo[l] != []
            && var last := s.fifo[l][|s.fifo[l]| - 1];
               last < |s.orders|
               && NextPriority(SideView(s, side), side, s.Level(l).price) == s.Order(last).order.priority + 1
  {
    hide OkBut, IsRing, Flat, Entries, Rank;
    var ring := s.RingOf(side);
    var l := ring[k];
    RungsInFifo(s, o, x, side);
    LevelStanding(s, o, x, l);
    var f := s.fifo[l];
    assert MemberOk(s, l, f[|f| - 1]);
    RungsAround(s, o, x, side, k);
    RungRank(s, o, x, side, k + 1, s.Level(l).price);
    EntriesLast(s.orders, f);
    FlatUpTo(s.orders, s.fifo, ring, k);
  }

  /** With no level at the price the newcomer has nobody ahead at its price. */
  lemma NobodyAtPrice<K(!new)>(s: Shape<K>, o: int, x: int, side: Side, price: int)
    requires OkBut(s, o, x)
    requires forall l :: l in s.RingOf(side) && l < |s.levels| ==> s.Level(l).price != price
    ensures NextPriority(SideView(s, side), side, price) == 1
  {
    var v := SideView(s, side);
    var r := Rank(v, side, price);
    if r > 0 {
      var l := FlatPrice(s, o, x, s.RingOf(side), r - 1);
    }
  }

  lemma EntriesLast<K>(orders: Heap<Entry<K>>, f: seq<nat>)
    requires f != [] && f[|f| - 1] < |orders|
    ensures var v := Entries(orders, f); v != [] && v[|v| - 1] == orders[f[|f| - 1]].item.val
  {
    assert f == f[..|f| - 1] + [f[|f| - 1]];
    EntriesConcat(orders, f[..|f| - 1], [f[|f| - 1]]);
  }

  // ----- freshly allocated blocks

  /** t is s after the free order block o was handed out. */
  ghost predicate OrderAllocated<K>(s: Shape<K>, t: Shape<K>, o: nat) {
    && o < |s.orders| == |t.orders| && s.orders[o].isFree && !t.orders[o].isFree
    && (forall p: nat :: p < |s.orders| && p != o ==> t.orders[p] == s.orders[p])
    && t == s.(orders := t.orders)
  }

  lemma OrderAllocatedOk<K(!new)>(s: Shape<K>, t: Shape<K>, o: nat)
    requires Ok(s) && OrderAllocated(s, t, o)
    ensures OkBut(t, o, NULL)
  {
    LadderFrame(s, t, Buy);
    LadderFrame(s, t, Sell);
    forall m | m in t.fifo
      ensures LevelOk(t, m) && o !in t.fifo[m]
    {
      AllocatedLevel(s, t, o, m);
    }
    forall p: nat | p < |t.orders| && !t.orders[p].isFree && p != o
      ensures HomeOk(t, p)
    {
      assert HomeOk(s, p);
    }
    forall i: nat | i < |t.index|
      ensures IndexOk(t, i)
    {
      assert IndexOk(s, i);
    }
    forall key | key in t.lookup
      ensures LookupOk(t, key) && t.lookup[key] != o
    {
      assert LookupOk(s, key);
    }
  }

  lemma OrderAllocatedView<K(!new)>(s: Shape<K>, t: Shape<K>, o: nat, side: Side)
    requires Ok(s) && OrderAllocated(s, t, o)
    ensures SideView(t, side) == SideView(s, side)
  {
    forall m | m in s.RingOf(side)
      ensures m in s.fifo && o !in s.fifo[m]
    {
      AllocatedLevel(s, t, o, m);
    }
    FlatFrame(s.orders, s.fifo, t.orders, t.fifo, s.RingOf(side));
  }

  lemma AllocatedLevel<K(!new)>(s: Shape<K>, t: Shape<K>, o: nat, m: nat)
    requires Ok(s) && OrderAllocated(s, t, o) && m in s.fifo
    ensures LevelOk(t, m) && o !in s.fifo[m]
  {
    assert LevelOk(s, m);
    forall p | p in s.fifo[m]
      ensures p != o && MemberOk(t, m, p) && p < |s.orders| && t.orders[p] == s.orders[p]
    {
      assert MemberOk(s, m, p);
    }
    RingFrame(s.orders, t.orders, s.fifo[m]);
  }

  /** t is s after the free level block x was handed out. */
  ghost predicate LevelAllocated<K>(s: Shape<K>, t: Shape<K>, x: nat) {
    && x < |s.levels| == |t.levels| && s.levels[x].isFree && !t.levels[x].isFree
    && (forall l: nat :: l < |s.levels| && l != x ==> t.levels[l] == s.levels[l])
    && t == s.(levels := t.levels)
  }

  /** Nothing that a level block does not own changes its standing. */
  lemma LevelAllocatedTables<K(!new)>(s: Shape<K>, t: Shape<K>, o: nat, x: nat)
    requires OkBut(s, o, NULL) && LevelAllocated(s, t, x)
    ensures forall i: nat :: i < |t.index| ==> IndexOk(t, i)
    ensures forall key :: key in t.lookup ==> LookupOk(t, key) && t.lookup[key] != o
    ensures forall p: nat :: p < |t.orders| && !t.orders[p].isFree && p != o ==> HomeOk(t, p)
  {
    forall p: nat | p < |t.orders| && !t.orders[p].isFree && p != o
      ensures HomeOk(t, p)
    {
      assert HomeOk(s, p);
    }
    forall i: nat | i < |t.index|
      ensures IndexOk(t, i)
    {
      assert IndexOk(s, i);
      assert s.index[i] != NULL ==> LevelOk(s, s.index[i]);
    }
    forall key | key in t.lookup
      ensures LookupOk(t, key) && t.lookup[key] != o
    {
      assert LookupOk(s, key);
    }
  }

  lemma LevelAllocatedLevel<K(!new)>(s: Shape<K>, t: Shape<K>, o: nat, x: nat, m: nat)
    requires OkBut(s, o, NULL) && LevelAllocated(s, t, x) && m in s.fifo
    ensures m != x && LevelOk(t, m) && o !in s.fifo[m]
  {
    assert LevelOk(s, m);
    forall p | p in s.fifo[m]
      ensures MemberOk(t, m, p)
    {
      assert MemberOk(s, m, p);
    }
  }

  lemma LevelAllocatedOk<K(!new)>(s: Shape<K>, t: Shape<K>, o: nat, x: nat)
    requires OkBut(s, o, NULL) && LevelAllocated(s, t, x)
    ensures OkBut(t, o, x) && x !in t.bidRing && x !in t.askRing
  {
    forall m | m in s.fifo
      ensures m != x && LevelOk(t, m) && o !in t.fifo[m]
    {
      LevelAllocatedLevel(s, t, o, x, m);
    }
    LadderFrame(s, t, Buy);
    LadderFrame(s, t, Sell);
    LevelAllocatedTables(s, t, o, x);
  }

  /** t is s with other links in the block of the order that is not queued yet. */
  ghost predicate PendingRelinked<K>(s: Shape<K>, t: Shape<K>, o: nat) {
    && SameExceptLinks(s.orders, t.orders, {o}) && t == s.(orders := t.orders)
  }

  lemma PendingLevel<K(!new)>(s: Shape<K>, t: Shape<K>, o: nat, m: nat)
    requires OkBut(s, o, NULL) && PendingRelinked(s, t, o) && m in s.fifo
    ensures LevelOk(t, m) && o !in s.fifo[m]
  {
    assert LevelOk(s, m);
    forall p | p in s.fifo[m]
      ensures MemberOk(t, m, p) && p < |s.orders| && t.orders[p] == s.orders[p]
    {
      assert MemberOk(s, m, p);
    }
    RingFrame(s.orders, t.orders, s.fifo[m]);
  }

  lemma PendingRelinkedOk<K(!new)>(s: Shape<K>, t: Shape<K>, o: nat)
    requires OkBut(s, o, NULL) && PendingRelinked(s, t, o)
    ensures OkBut(t, o, NULL)
    ensures SideView(t, Buy) == SideView(s, Buy) && SideView(t, Sell) == SideView(s, Sell)
  {
    LadderFrame(s, t, Buy);
    LadderFrame(s, t, Sell);
    forall m | m in t.fifo
      ensures LevelOk(t, m) && o !in t.fifo[m]
    {
      PendingLevel(s, t, o, m);
    }
    forall p: nat | p < |t.orders| && !t.orders[p].isFree && p != o
      ensures HomeOk(t, p)
    {
      assert HomeOk(s, p);
    }
    forall i: nat | i < |t.index|
      ensures IndexOk(t, i)
    {
      assert IndexOk(s, i);
    }
    forall key | key in t.lookup
      ensures LookupOk(t, key) && t.lookup[key] != o
    {
      assert LookupOk(s, key);
    }
    PendingView(s, t, s.bidRing);
    PendingView(s, t, s.askRing);
  }

  lemma PendingView<K>(s: Shape<K>, t: Shape<K>, ring: seq<nat>)
    requires |t.orders| == |s.orders| && t.fifo == s.fifo
    requires forall p: nat :: p < |s.orders| ==> t.orders[p].item.val == s.orders[p].item.val
    ensures Flat(t.orders, t.fifo, ring) == Flat(s.orders, s.fifo, ring)
  {
    FlatFrame(s.orders, s.fifo, t.orders, t.fifo, ring);
  }

  /** The whole effect of opening a level for a newcomer. */
  lemma OpenedAll<K(!new)>(s: Shape<K>, t: Shape<K>, o: nat, x: nat, k: nat, side: Side)
    requires Opens(s, o, x, k) && Opened(s, t, o, x, k) && side == s.Order(o).order.side
    ensures Ok(t)
    ensures SideView(t, side) == Insert(SideView(s, side), s.Order(o))
    ensures SideView(t, Opposite(side)) == SideView(s, Opposite(side))
  {
    OpenedOk(s, t, o, x, k);
    OpenedView(s, t, o, x, k);
  }

  /** The whole effect of a newcomer joining a level, its own or another. */
  lemma JoinedAll<K(!new)>(s: Shape<K>, t: Shape<K>, o: nat, l: nat)
    requires Joins(s, o, l) && Joined(s, t, o, l)
    ensures l < |s.levels|
    ensures var side := s.Level(l).side;
            && SideView(t, side) == Appended(SideView(s, side), s.Order(o), side, s.Level(l).price)
            && SideView(t, Opposite(side)) == SideView(s, Opposite(side))
    ensures Belongs(s, o, l) ==> Ok(t)
  {
    JoinedView(s, t, o, l);
    if Belongs(s, o, l) {
      JoinedOk(s, t, o, l);
    }
  }
}
