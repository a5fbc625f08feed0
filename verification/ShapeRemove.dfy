/** Taking an order out of the pointer structure, or changing its quantity. */
module ShapeRemove {
  import opened Types
  import opened Rings
  import opened PriceTime
  import opened Shapes
  import opened ShapeInsert

  /** u is s with block o released, its neighbours in f possibly relinked, and everything else as it was. */
  ghost predicate Released<K>(s: Heap<Entry<K>>, u: Heap<Entry<K>>, f: seq<nat>, o: nat) {
    && o < |s| == |u| && u[o].isFree
    && (forall p: nat :: p < |s| && p != o ==> u[p].isFree == s[p].isFree && u[p].item.val == s[p].item.val)
    && (forall p: nat :: p < |s| && p !in f ==> u[p] == s[p])
  }

  function Cut(f: seq<nat>, j: nat): seq<nat>
    requires j < |f|
  {
    f[..j] + f[j + 1..]
  }

  lemma CutMembers(f: seq<nat>, j: nat, p: nat)
    requires Distinct(f) && j < |f|
    ensures p in Cut(f, j) <==> p in f && p != f[j]
  {
    if p in f && p != f[j] {
      var i :| 0 <= i < |f| && f[i] == p;
      assert Cut(f, j)[if i < j then i else i - 1] == p;
    }
  }

  // ----- other orders stay at the level

  ghost predicate Takes<K(!new)>(s: Shape<K>, o: nat, l: nat, j: nat) {
    Ok(s) && l in s.fifo && LevelOk(s, l) && j < |s.fifo[l]| && s.fifo[l][j] == o && |s.fifo[l]| >= 2
  }

  /** t is s after the j-th order of level l was taken out. */
  ghost predicate Taken<K>(s: Shape<K>, t: Shape<K>, o: nat, l: nat, j: nat) {
    && l in s.fifo && j < |s.fifo[l]| && |s.fifo[l]| >= 2 && l < |s.levels| && o < |s.orders|
    && var f := s.fifo[l];
       var f' := Cut(f, j);
    && IsRing(t.orders, f') && Released(s.orders, t.orders, f, o)
    && t.levels == s.levels[l := s.levels[l].(item := s.levels[l].item.(val := s.Level(l).(first := f'[0])))]
    && t == s.(orders := t.orders, levels := t.levels, fifo := s.fifo[l := f'], lookup := s.lookup - {s.Order(o).key})
  }

  /** A ladder depends on links, sides and prices only. */
  lemma LadderKept<K>(s: Shape<K>, t: Shape<K>, side: Side)
    requires LadderOk(s, side) && t.RingOf(side) == s.RingOf(side) && t.HeadOf(side) == s.HeadOf(side)
    requires |t.levels| == |s.levels|
    requires forall l: nat :: l < |s.levels| ==>
      && t.levels[l].isFree == s.levels[l].isFree
      && t.levels[l].item.next == s.levels[l].item.next && t.levels[l].item.prev == s.levels[l].item.prev
      && t.Level(l).side == s.Level(l).side && t.Level(l).price == s.Level(l).price
    ensures LadderOk(t, side)
  {
    var ring := s.RingOf(side);
    forall i: nat | i < |ring|
      ensures LinkedAt(t.levels, ring, i) && RungOk(t, side, ring[i])
    {
      assert LinkedAt(s.levels, ring, i) && RungOk(s, side, ring[i]);
    }
    forall i, j | 0 <= i < j < |ring|
      ensures Ordered(side, t.levels, ring[i], ring[j])
    {
      assert Ordered(side, s.levels, ring[i], ring[j]);
    }
  }

  lemma TakenLevels<K(!new)>(s: Shape<K>, t: Shape<K>, o: nat, l: nat, j: nat, m: nat)
    requires Takes(s, o, l, j) && Taken(s, t, o, l, j) && m in t.fifo
    ensures LevelOk(t, m)
  {
    var f := s.fifo[l];
    assert LevelOk(s, m);
    if m == l {
      forall p | p in Cut(f, j)
        ensures MemberOk(t, l, p)
      {
        CutMembers(f, j, p);
        assert MemberOk(s, l, p);
      }
    } else {
      forall p | p in s.fifo[m]
        ensures MemberOk(t, m, p) && p !in f
      {
        assert MemberOk(s, m, p);
        if p in f {
          OneHome(s, NULL, NULL, l, m, p);
        }
        assert p != o;
      }
      RingFrame(s.orders, t.orders, s.fifo[m]);
    }
  }

  lemma ReleasedTables<K(!new)>(s: Shape<K>, t: Shape<K>, f: seq<nat>, o: nat, key: K)
    requires Ok(s) && Released(s.orders, t.orders, f, o) && !s.orders[o].isFree
    requires t.lookup == s.lookup - {s.Order(o).key} && key in t.lookup
    ensures LookupOk(t, key)
  {
    assert LookupOk(s, key);
    assert HomeOk(s, o);
  }

  lemma TakenHome<K(!new)>(s: Shape<K>, t: Shape<K>, o: nat, l: nat, j: nat, p: nat)
    requires Takes(s, o, l, j) && Taken(s, t, o, l, j) && p < |t.orders| && !t.orders[p].isFree
    ensures HomeOk(t, p)
  {
    assert p != o;
    assert HomeOk(s, p);
    assert MemberOk(s, l, o) && HomeOk(s, o);
    CutMembers(s.fifo[l], j, p);
    assert t.Order(p) == s.Order(p);
    assert s.Order(p).key != s.Order(o).key;
  }

  lemma TakenOk<K(!new)>(s: Shape<K>, t: Shape<K>, o: nat, l: nat, j: nat)
    requires Takes(s, o, l, j) && Taken(s, t, o, l, j)
    ensures Ok(t)
  {
    LadderKept(s, t, Buy);
    LadderKept(s, t, Sell);
    assert MemberOk(s, l, o);
    forall m | m in t.fifo
      ensures LevelOk(t, m)
    {
      TakenLevels(s, t, o, l, j, m);
    }
    forall p: nat | p < |t.orders| && !t.orders[p].isFree
      ensures HomeOk(t, p)
    {
      TakenHome(s, t, o, l, j, p);
    }
    forall i: nat | i < |t.index|
      ensures IndexOk(t, i)
    {
      assert IndexOk(s, i);
    }
    forall key | key in t.lookup
      ensures LookupOk(t, key)
    {
      ReleasedTables(s, t, s.fifo[l], o, key);
    }
  }

  // ----- the order was alone at its level

  ghost predicate Closes<K(!new)>(s: Shape<K>, o: nat, l: nat, i: nat) {
    && Ok(s) && l in s.fifo && LevelOk(s, l) && s.fifo[l] == [o]
    && i < |s.RingOf(s.Level(l).side)| && s.RingOf(s.Level(l).side)[i] == l
  }

  /** t is s with level l, the i-th of its side, unlinked, released and dropped from the price index. */
  ghost predicate Unlinked<K>(s: Shape<K>, t: Shape<K>, l: nat, i: nat) {
    && l < |s.levels| == |t.levels| && |s.index| > 0
    && var side := s.Level(l).side;
       var ring, ring' := s.RingOf(side), t.RingOf(side);
    && i < |ring| && ring' == Cut(ring, i)
    && t.HeadOf(side) == (if ring' == [] then NULL else ring'[0]) && IsRing(t.levels, ring')
    && t.levels[l].isFree
    && (forall m: nat :: m < |s.levels| && m != l ==>
          t.levels[m].isFree == s.levels[m].isFree && t.levels[m].item.val == s.levels[m].item.val)
    && (forall m: nat :: m < |s.levels| && m !in ring ==> t.levels[m] == s.levels[m])
    && t.index == s.index[Slot(s.Level(l).price, |s.index|) := NULL]
    && OtherSideSame(s, t, side)
  }

  /** t is s after order o was taken out together with its level l. */
  ghost predicate Closed<K>(s: Shape<K>, t: Shape<K>, o: nat, l: nat, i: nat) {
    && Unlinked(s, t, l, i) && o < |s.orders|
    && Released(s.orders, t.orders, [o], o)
    && t.fifo == s.fifo - {l} && t.lookup == s.lookup - {s.Order(o).key}
  }

  lemma UnlinkedLadder<K>(s: Shape<K>, t: Shape<K>, l: nat, i: nat)
    requires l < |s.levels| && LadderOk(s, s.Level(l).side) && Unlinked(s, t, l, i)
    requires s.RingOf(s.Level(l).side)[i] == l
    ensures LadderOk(t, s.Level(l).side)
  {
    var side := s.Level(l).side;
    var ring, ring' := s.RingOf(side), t.RingOf(side);
    forall j | 0 <= j < |ring'|
      ensures RungOk(t, side, ring'[j])
    {
      assert RungOk(s, side, ring[if j < i then j else j + 1]);
    }
    forall j, k | 0 <= j < k < |ring'|
      ensures Ordered(side, t.levels, ring'[j], ring'[k])
    {
      assert Ordered(side, s.levels, ring[if j < i then j else j + 1], ring[if k < i then k else k + 1]);
    }
  }

  lemma ClosedLadders<K(!new)>(s: Shape<K>, t: Shape<K>, o: nat, l: nat, i: nat)
    requires Closes(s, o, l, i) && Closed(s, t, o, l, i)
    ensures LadderOk(t, Buy) && LadderOk(t, Sell)
  {
    var side := s.Level(l).side;
    UnlinkedLadder(s, t, l, i);
    forall m | m in s.RingOf(Opposite(side)) && m < |s.levels|
      ensures t.levels[m] == s.levels[m]
    {
      assert RungOk(s, Opposite(side), m);
    }
    LadderFrame(s, t, Opposite(side));
  }

  lemma ClosedLevels<K(!new)>(s: Shape<K>, t: Shape<K>, o: nat, l: nat, i: nat, m: nat)
    requires Closes(s, o, l, i) && Closed(s, t, o, l, i) && m in t.fifo
    ensures LevelOk(t, m)
  {
    assert LevelOk(s, m) && m != l;
    var side := s.Level(m).side;
    if side == s.Level(l).side {
      CutMembers(s.RingOf(side), i, m);
    }
    forall p | p in s.fifo[m]
      ensures MemberOk(t, m, p) && p < |s.orders| && t.orders[p] == s.orders[p]
    {
      assert MemberOk(s, m, p);
      assert p !in [o];
    }
    RingFrame(s.orders, t.orders, s.fifo[m]);
  }

  lemma ClosedHome<K(!new)>(s: Shape<K>, t: Shape<K>, o: nat, l: nat, i: nat, p: nat)
    requires Closes(s, o, l, i) && Closed(s, t, o, l, i) && p < |t.orders| && !t.orders[p].isFree
    ensures HomeOk(t, p)
  {
    assert p != o;
    assert HomeOk(s, p);
    assert MemberOk(s, l, o) && HomeOk(s, o);
    var n := |s.index|;
    var slot := Slot(s.Order(p).order.price, n);
    assert s.index[slot] != l;
    assert t.index[slot] == s.index[slot];
    assert t.Order(p) == s.Order(p);
    assert s.Order(p).key != s.Order(o).key;
  }

  lemma ClosedTables<K(!new)>(s: Shape<K>, t: Shape<K>, o: nat, l: nat, i: nat)
    requires Closes(s, o, l, i) && Closed(s, t, o, l, i)
    ensures forall j: nat :: j < |t.index| ==> IndexOk(t, j)
    ensures forall key :: key in t.lookup ==> LookupOk(t, key)
  {
    assert MemberOk(s, l, o);
    forall j: nat | j < |t.index|
      ensures IndexOk(t, j)
    {
      assert IndexOk(s, j);
    }
    forall key | key in t.lookup
      ensures LookupOk(t, key)
    {
      ReleasedTables(s, t, [o], o, key);
    }
  }

  lemma ClosedRungs<K(!new)>(s: Shape<K>, t: Shape<K>, o: nat, l: nat, i: nat)
    requires Closes(s, o, l, i) && Closed(s, t, o, l, i)
    ensures forall m :: m in t.bidRing || m in t.askRing ==> m in t.fifo
    ensures forall m: nat :: m < |t.levels| && !t.levels[m].isFree ==> m in t.fifo
  {
    var side := s.Level(l).side;
    OtherSideDisjoint(s, NULL, NULL, side, l);
    forall m | m in t.RingOf(side)
      ensures m in t.fifo
    {
      CutMembers(s.RingOf(side), i, m);
    }
    forall m | m in t.RingOf(Opposite(side))
      ensures m in t.fifo
    {
    }
  }

  lemma ClosedOk<K(!new)>(s: Shape<K>, t: Shape<K>, o: nat, l: nat, i: nat)
    requires Closes(s, o, l, i) && Closed(s, t, o, l, i)
    ensures Ok(t)
  {
    ClosedLadders(s, t, o, l, i);
    ClosedTables(s, t, o, l, i);
    ClosedRungs(s, t, o, l, i);
    forall m | m in t.fifo
      ensures LevelOk(t, m)
    {
      ClosedLevels(s, t, o, l, i, m);
    }
    forall p: nat | p < |t.orders| && !t.orders[p].isFree
      ensures HomeOk(t, p)
    {
      ClosedHome(s, t, o, l, i, p);
    }
  }

  // ----- what is left on the two sides

  /** Blocks whose orders have other keys read off sequences without the key. */
  lemma KeyElsewhere<K(!new)>(s: Shape<K>, part: seq<nat>, l: nat, o: nat)
    requires Ok(s) && l in s.fifo && o in s.fifo[l] && o < |s.orders|
    requires (forall m :: m in part ==> m in s.fifo) && l !in part
    ensures !HasKey(Flat(s.orders, s.fifo, part), s.Order(o).key)
  {
    MemberKey(s, NULL, NULL, l, o);
    var v := Flat(s.orders, s.fifo, part);
    forall i | 0 <= i < |v|
      ensures v[i].key != s.Order(o).key
    {
      var p := FlatKey(s, NULL, NULL, part, i);
      if p == o {
        var m :| m in part && p in s.fifo[m];
        OneHome(s, NULL, NULL, l, m, o);
      }
    }
  }

  lemma KeyElsewhereInFifo<K(!new)>(s: Shape<K>, l: nat, j: nat, part: seq<nat>)
    requires Ok(s) && l in s.fifo && j < |s.fifo[l]| && s.fifo[l][j] < |s.orders|
    requires forall p :: p in part ==> p in s.fifo[l] && p != s.fifo[l][j]
    ensures !HasKey(Entries(s.orders, part), s.Order(s.fifo[l][j]).key)
  {
    var o := s.fifo[l][j];
    MemberKey(s, NULL, NULL, l, o);
    var v := Entries(s.orders, part);
    forall i | 0 <= i < |v|
      ensures v[i].key != s.Order(o).key
    {
      var p := EntriesMember(s.orders, part, i);
      MemberKey(s, NULL, NULL, l, p);
    }
  }

  /** A side read around the j-th order of its k-th level. */
  lemma SideAround<K>(orders: Heap<Entry<K>>, fifo: map<nat, seq<nat>>, ring: seq<nat>, k: nat, j: nat)
    requires k < |ring| && ring[k] in fifo && j < |fifo[ring[k]]| && fifo[ring[k]][j] < |orders|
    ensures Flat(orders, fifo, ring)
         == (Flat(orders, fifo, ring[..k]) + Entries(orders, fifo[ring[k]][..j])) + [orders[fifo[ring[k]][j]].item.val]
            + (Entries(orders, fifo[ring[k]][j + 1..]) + Flat(orders, fifo, ring[k + 1..]))
  {
    var f := fifo[ring[k]];
    FlatAround(orders, fifo, ring, k);
    EntriesAround(orders, f, j);
    Regroup(Flat(orders, fifo, ring[..k]), Entries(orders, f[..j]), orders[f[j]].item.val,
            Entries(orders, f[j + 1..]), Flat(orders, fifo, ring[k + 1..]));
  }

  lemma EntriesAround<K>(orders: Heap<Entry<K>>, f: seq<nat>, j: nat)
    requires j < |f| && f[j] < |orders|
    ensures Entries(orders, f) == Entries(orders, f[..j]) + ([orders[f[j]].item.val] + Entries(orders, f[j + 1..]))
  {
    assert f == f[..j] + ([f[j]] + f[j + 1..]);
    EntriesConcat(orders, f[..j], [f[j]] + f[j + 1..]);
    EntriesConcat(orders, [f[j]], f[j + 1..]);
    assert Entries(orders, [f[j]]) == [orders[f[j]].item.val];
  }

  lemma Regroup<T>(a: seq<T>, b: seq<T>, e: T, c: seq<T>, d: seq<T>)
    ensures a + (b + ([e] + c)) + d == (a + b) + [e] + (c + d)
  {
  }

  /** Without the order at position j of level k, a side reads as before around the gap. */
  lemma WithoutAround<K(!new)>(s: Shape<K>, side: Side, k: nat, j: nat)
    requires Ok(s) && side != NoSide && k < |s.RingOf(side)| && s.RingOf(side)[k] in s.fifo
    requires var f := s.fifo[s.RingOf(side)[k]]; j < |f| && f[j] < |s.orders|
    ensures Without(SideView(s, side), s.Order(s.fifo[s.RingOf(side)[k]][j]).key)
         == (Flat(s.orders, s.fifo, s.RingOf(side)[..k]) + Entries(s.orders, s.fifo[s.RingOf(side)[k]][..j]))
            + (Entries(s.orders, s.fifo[s.RingOf(side)[k]][j + 1..]) + Flat(s.orders, s.fifo, s.RingOf(side)[k + 1..]))
  {
    var ring := s.RingOf(side);
    var l := ring[k];
    var f := s.fifo[l];
    assert LevelOk(s, l);
    SideAround(s.orders, s.fifo, ring, k, j);
    KeyElsewhere(s, ring[..k], l, f[j]);
    KeyElsewhere(s, ring[k + 1..], l, f[j]);
    KeyElsewhereInFifo(s, l, j, f[..j]);
    KeyElsewhereInFifo(s, l, j, f[j + 1..]);
    WithoutAt(Flat(s.orders, s.fifo, ring[..k]) + Entries(s.orders, f[..j]), s.Order(f[j]),
              Entries(s.orders, f[j + 1..]) + Flat(s.orders, s.fifo, ring[k + 1..]));
  }

  /** Levels that do not hold o read as before. */
  lemma ReleasedFlat<K(!new)>(s: Shape<K>, t: Shape<K>, f: seq<nat>, l: nat, o: nat, part: seq<nat>)
    requires Ok(s) && l in s.fifo && o in s.fifo[l] && Released(s.orders, t.orders, f, o)
    requires (forall m :: m in part ==> m in s.fifo && m in t.fifo && t.fifo[m] == s.fifo[m]) && l !in part
    ensures Flat(t.orders, t.fifo, part) == Flat(s.orders, s.fifo, part)
  {
    forall m, p | m in part && p in s.fifo[m]
      ensures p != o
    {
      if p == o {
        OneHome(s, NULL, NULL, l, m, o);
      }
    }
    FlatFrame(s.orders, s.fifo, t.orders, t.fifo, part);
  }

  lemma TakenView<K(!new)>(s: Shape<K>, t: Shape<K>, o: nat, l: nat, j: nat)
    requires Takes(s, o, l, j) && Taken(s, t, o, l, j)
    ensures SideView(t, s.Level(l).side) == Without(SideView(s, s.Level(l).side), s.Order(o).key)
    ensures SideView(t, Opposite(s.Level(l).side)) == SideView(s, Opposite(s.Level(l).side))
  {
    var side, f := s.Level(l).side, s.fifo[l];
    var ring := s.RingOf(side);
    var k :| 0 <= k < |ring| && ring[k] == l;
    WithoutAround(s, side, k, j);
    TakenSide(s, t, o, l, j, ring, k);
    OtherSideDisjoint(s, NULL, NULL, side, l);
    ReleasedFlat(s, t, f, l, o, s.RingOf(Opposite(side)));
  }

  lemma TakenSide<K(!new)>(s: Shape<K>, t: Shape<K>, o: nat, l: nat, j: nat, ring: seq<nat>, k: nat)
    requires Takes(s, o, l, j) && Taken(s, t, o, l, j) && k < |ring| && ring[k] == l && Distinct(ring)
    requires forall m :: m in ring ==> m in s.fifo
    ensures Flat(t.orders, t.fifo, ring)
         == (Flat(s.orders, s.fifo, ring[..k]) + Entries(s.orders, s.fifo[l][..j]))
            + (Entries(s.orders, s.fifo[l][j + 1..]) + Flat(s.orders, s.fifo, ring[k + 1..]))
  {
    var f := s.fifo[l];
    TakenFlat(s, t, o, l, j, ring[..k]);
    TakenFlat(s, t, o, l, j, ring[k + 1..]);
    FlatAround(t.orders, t.fifo, ring, k);
    CutEntries(s.orders, t.orders, f, j);
    Reassociate(Flat(s.orders, s.fifo, ring[..k]), Entries(s.orders, f[..j]),
                Entries(s.orders, f[j + 1..]), Flat(s.orders, s.fifo, ring[k + 1..]));
  }

  lemma TakenFlat<K(!new)>(s: Shape<K>, t: Shape<K>, o: nat, l: nat, j: nat, part: seq<nat>)
    requires Takes(s, o, l, j) && Taken(s, t, o, l, j)
    requires (forall m :: m in part ==> m in s.fifo) && l !in part
    ensures Flat(t.orders, t.fifo, part) == Flat(s.orders, s.fifo, part)
  {
    ReleasedFlat(s, t, s.fifo[l], l, o, part);
  }

  lemma Reassociate<T>(a: seq<T>, b: seq<T>, c: seq<T>, d: seq<T>)
    ensures a + (b + c) + d == (a + b) + (c + d)
  {
  }

  lemma CutEntries<K>(orders: Heap<Entry<K>>, orders': Heap<Entry<K>>, f: seq<nat>, j: nat)
    requires Distinct(f) && j < |f| && |orders| == |orders'|
    requires forall p: nat :: p < |orders| && p != f[j] ==> orders'[p].item.val == orders[p].item.val
    ensures Entries(orders', Cut(f, j)) == Entries(orders, f[..j]) + Entries(orders, f[j + 1..])
  {
    EntriesConcat(orders', f[..j], f[j + 1..]);
    EntriesFrame(orders, orders', f[..j]);
    EntriesFrame(orders, orders', f[j + 1..]);
  }

  lemma ClosedView<K(!new)>(s: Shape<K>, t: Shape<K>, o: nat, l: nat, i: nat)
    requires Closes(s, o, l, i) && Closed(s, t, o, l, i)
    ensures SideView(t, s.Level(l).side) == Without(SideView(s, s.Level(l).side), s.Order(o).key)
    ensures SideView(t, Opposite(s.Level(l).side)) == SideView(s, Opposite(s.Level(l).side))
  {
    hide OkBut, IsRing, LevelOk, LadderOk, Flat, Without, Released;
    var side := s.Level(l).side;
    var ring := s.RingOf(side);
    RungsInFifo(s, NULL, NULL, side);
    RungsInFifo(s, NULL, NULL, Opposite(side));
    RingDistinct(s, NULL, NULL, side);
    LevelSide(s, l);
    ClosedGap(s, o, l, i);
    FlatConcat(t.orders, t.fifo, ring[..i], ring[i + 1..]);
    ClosedFlat(s, t, o, l, i, ring[..i]);
    ClosedFlat(s, t, o, l, i, ring[i + 1..]);
    OtherSideDisjoint(s, NULL, NULL, side, l);
    ClosedFlat(s, t, o, l, i, s.RingOf(Opposite(side)));
  }

  lemma ClosedGap<K(!new)>(s: Shape<K>, o: nat, l: nat, i: nat)
    requires Closes(s, o, l, i)
    ensures o < |s.orders|
    ensures Without(SideView(s, s.Level(l).side), s.Order(o).key)
         == Flat(s.orders, s.fifo, s.RingOf(s.Level(l).side)[..i])
             + Flat(s.orders, s.fifo, s.RingOf(s.Level(l).side)[i + 1..])
  {
    assert MemberOk(s, l, o);
    var ring := s.RingOf(s.Level(l).side);
    WithoutAround(s, s.Level(l).side, i, 0);
    NothingLeft(s.orders, s.fifo[l], Flat(s.orders, s.fifo, ring[..i]), Flat(s.orders, s.fifo, ring[i + 1..]));
  }

  lemma NothingLeft<K>(orders: Heap<Entry<K>>, f: seq<nat>, a: seq<Entry<K>>, d: seq<Entry<K>>)
    requires |f| == 1
    ensures (a + Entries(orders, f[..0])) + (Entries(orders, f[1..]) + d) == a + d
  {
  }

  lemma ClosedFlat<K(!new)>(s: Shape<K>, t: Shape<K>, o: nat, l: nat, i: nat, part: seq<nat>)
    requires Closes(s, o, l, i) && Closed(s, t, o, l, i)
    requires (forall m :: m in part ==> m in s.fifo) && l !in part
    ensures Flat(t.orders, t.fifo, part) == Flat(s.orders, s.fifo, part)
  {
    ReleasedFlat(s, t, [o], l, o, part);
  }

  // ----- a new quantity

  /** t is s with the quantity of order o replaced. */
  ghost predicate Requantified<K>(s: Shape<K>, t: Shape<K>, o: nat, qty: nat) {
    && o < |s.orders|
    && var e := s.Order(o);
       t == s.(orders := s.orders[o := s.orders[o].(item := s.orders[o].item.(val :=
                 e.(order := e.order.(qty := qty))))])
  }

  lemma RequantifiedLevel<K(!new)>(s: Shape<K>, t: Shape<K>, o: nat, qty: nat, m: nat)
    requires Ok(s) && Requantified(s, t, o, qty) && m in t.fifo
    ensures LevelOk(t, m)
  {
    assert LevelOk(s, m);
    var f := s.fifo[m];
    forall i: nat | i < |f|
      ensures LinkedAt(t.orders, f, i)
    {
      assert LinkedAt(s.orders, f, i);
    }
    forall p | p in f
      ensures MemberOk(t, m, p)
    {
      assert MemberOk(s, m, p);
    }
  }

  lemma RequantifiedOk<K(!new)>(s: Shape<K>, t: Shape<K>, o: nat, qty: nat)
    requires Ok(s) && Requantified(s, t, o, qty)
    ensures Ok(t)
  {
    LadderFrame(s, t, Buy);
    LadderFrame(s, t, Sell);
    forall m | m in t.fifo
      ensures LevelOk(t, m)
    {
      RequantifiedLevel(s, t, o, qty, m);
    }
    forall p: nat | p < |t.orders| && !t.orders[p].isFree
      ensures HomeOk(t, p)
    {
      assert HomeOk(s, p);
    }
    forall i: nat | i < |t.index|
      ensures IndexOk(t, i)
    {
      assert IndexOk(s, i);
    }
    forall key | key in t.lookup
      ensures LookupOk(t, key)
    {
      assert LookupOk(s, key);
    }
  }

  lemma {:induction false} EntriesRequantified<K>(orders: Heap<Entry<K>>, orders': Heap<Entry<K>>, f: seq<nat>,
                                                  o: nat, qty: nat)
    requires o < |orders| == |orders'| && (forall p: nat :: p < |orders| && p != o ==> orders'[p] == orders[p])
    requires orders'[o].item.val == (var e := orders[o].item.val; e.(order := e.order.(qty := qty)))
    requires forall p :: p in f && p < |orders| && orders[p].item.val.key == orders[o].item.val.key ==> p == o
    ensures Entries(orders', f) == WithQty(Entries(orders, f), orders[o].item.val.key, qty)
  {
    if f != [] {
      EntriesRequantified(orders, orders', f[1..], o, qty);
      assert forall p :: p in f[1..] ==> p in f;
      assert f[0] in f;
    }
  }

  lemma {:induction false} WithQtyConcat<K>(a: seq<Entry<K>>, b: seq<Entry<K>>, key: K, qty: nat)
    ensures WithQty(a + b, key, qty) == WithQty(a, key, qty) + WithQty(b, key, qty)
  {
  }

  /** No other block queued at level l has the key of o. */
  ghost predicate SoleKey<K>(s: Shape<K>, l: nat, o: nat) {
    o < |s.orders| && l in s.fifo
    && forall p :: p in s.fifo[l] && p < |s.orders| && s.orders[p].item.val.key == s.orders[o].item.val.key ==> p == o
  }

  lemma FifoRequantified<K>(s: Shape<K>, t: Shape<K>, l: nat, o: nat, qty: nat)
    requires Requantified(s, t, o, qty) && SoleKey(s, l, o)
    ensures Entries(t.orders, s.fifo[l]) == WithQty(Entries(s.orders, s.fifo[l]), s.Order(o).key, qty)
  {
    EntriesRequantified(s.orders, t.orders, s.fifo[l], o, qty);
  }

  lemma {:induction false} FlatRequantified<K>(s: Shape<K>, t: Shape<K>, ring: seq<nat>, o: nat, qty: nat)
    requires Requantified(s, t, o, qty)
    requires forall l :: l in ring && l in s.fifo ==> SoleKey(s, l, o)
    ensures Flat(t.orders, t.fifo, ring) == WithQty(Flat(s.orders, s.fifo, ring), s.Order(o).key, qty)
  {
    hide Entries, SoleKey, WithQty;
    if ring != [] {
      assert forall l :: l in ring[1..] ==> l in ring;
      FlatRequantified(s, t, ring[1..], o, qty);
      if ring[0] in s.fifo {
        FifoRequantified(s, t, ring[0], o, qty);
        WithQtyConcat(Entries(s.orders, s.fifo[ring[0]]), Flat(s.orders, s.fifo, ring[1..]), s.Order(o).key, qty);
      }
    }
  }

  lemma RequantifiedView<K(!new)>(s: Shape<K>, t: Shape<K>, o: nat, qty: nat, side: Side)
    requires Ok(s) && Requantified(s, t, o, qty) && !s.orders[o].isFree
    ensures SideView(t, side) == WithQty(SideView(s, side), s.Order(o).key, qty)
  {
    assert HomeOk(s, o);
    forall l | l in s.RingOf(side) && l in s.fifo
      ensures SoleKey(s, l, o)
    {
      forall p | p in s.fifo[l] && p < |s.orders| && s.Order(p).key == s.Order(o).key
        ensures p == o
      {
        MemberKey(s, NULL, NULL, l, p);
      }
    }
    FlatRequantified(s, t, s.RingOf(side), o, qty);
  }

  /** The whole effect of taking an order from a level that keeps others. */
  lemma TakenAll<K(!new)>(s: Shape<K>, t: Shape<K>, o: nat, l: nat, j: nat, side: Side)
    requires Takes(s, o, l, j) && Taken(s, t, o, l, j) && side == s.Level(l).side
    ensures Ok(t)
    ensures SideView(t, side) == Without(SideView(s, side), s.Order(o).key)
    ensures SideView(t, Opposite(side)) == SideView(s, Opposite(side))
  {
    TakenOk(s, t, o, l, j);
    TakenView(s, t, o, l, j);
  }

  /** The whole effect of taking the only order of a level. */
  lemma ClosedAll<K(!new)>(s: Shape<K>, t: Shape<K>, o: nat, l: nat, i: nat, side: Side)
    requires Closes(s, o, l, i) && Closed(s, t, o, l, i) && side == s.Level(l).side
    ensures Ok(t)
    ensures SideView(t, side) == Without(SideView(s, side), s.Order(o).key)
    ensures SideView(t, Opposite(side)) == SideView(s, Opposite(side))
  {
    ClosedOk(s, t, o, l, i);
    ClosedView(s, t, o, l, i);
  }

  /** Where a live order sits: its level, its position there, and its neighbours. */
  lemma Locate<K(!new)>(s: Shape<K>, o: nat) returns (l: nat, j: nat)
    requires Ok(s) && o < |s.orders| && !s.orders[o].isFree
    ensures l < |s.levels| && l == s.index[Slot(s.Order(o).order.price, |s.index|)]
    ensures l in s.fifo && LevelOk(s, l) && j < |s.fifo[l]| && s.fifo[l][j] == o && LinkedAt(s.orders, s.fifo[l], j)
    ensures MemberOk(s, l, o)
    ensures s.orders[o].item.prev == o <==> s.fifo[l] == [o]
    ensures s.Order(o).key in s.lookup && s.lookup[s.Order(o).key] == o
  {
    assert HomeOk(s, o);
    l := s.index[Slot(s.Order(o).order.price, |s.index|)];
    assert LevelOk(s, l);
    assert MemberOk(s, l, o);
    j :| j < |s.fifo[l]| && s.fifo[l][j] == o;
    assert LinkedAt(s.orders, s.fifo[l], j);
  }

  /** A key seen on one side is not seen on the other. */
  lemma KeyOnOneSide<K(!new)>(s: Shape<K>, side: Side, key: K)
    requires Ok(s) && side != NoSide && HasKey(SideView(s, side), key)
    ensures !HasKey(SideView(s, Opposite(side)), key)
  {
    var i :| 0 <= i < |SideView(s, side)| && SideView(s, side)[i].key == key;
    ViewInLookup(s, side, i);
    if HasKey(SideView(s, Opposite(side)), key) {
      var j :| 0 <= j < |SideView(s, Opposite(side))| && SideView(s, Opposite(side))[j].key == key;
      ViewInLookup(s, Opposite(side), j);
    }
  }

  lemma RequantifiedOther<K(!new)>(s: Shape<K>, t: Shape<K>, o: nat, qty: nat, side: Side)
    requires Ok(s) && Requantified(s, t, o, qty) && !s.orders[o].isFree && side == s.Order(o).order.side
    ensures SideView(t, Opposite(side)) == SideView(s, Opposite(side))
  {
    LiveInView(s, o);
    KeyOnOneSide(s, side, s.Order(o).key);
    RequantifiedView(s, t, o, qty, Opposite(side));
  }
}
