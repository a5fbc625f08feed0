/** What every request keeps, and what holds of every run of an exchange book. */
module BookRuns {
  import opened Types
  import opened PriceTime
  import opened Matching

  lemma SuffixWf<K>(side: Side, s: seq<Entry<K>>, n: nat)
    requires Wf(side, s) && n <= |s|
    ensures Wf(side, s[n..])
  {
    forall i, j | 0 <= i < j < |s[n..]|
      ensures Queued(side, s[n..][i], s[n..][j])
    {
      assert Queued(side, s[n + i], s[n + j]);
    }
  }

  lemma ReducedWf(side: Side, s: seq<Resting>, n: nat, part: nat)
    requires Wf(side, s) && n < |s| && part < s[n].order.qty
    ensures Wf(side, [Reduced(s[n], part)] + s[n + 1..])
  {
    var t := [Reduced(s[n], part)] + s[n + 1..];
    forall i, j | 0 <= i < j < |t|
      ensures Queued(side, t[i], t[j])
    {
      assert Queued(side, s[n + i], s[n + j]);
    }
  }

  lemma {:induction false} ReachCrosses(t: Taker, s: seq<Resting>)
    ensures Reach(t, s) < |s| ==> !Crosses(t.side, t.price, s[Reach(t, s)].order.price)
  {
    if s != [] && Crosses(t.side, t.price, s[0].order.price) {
      ReachCrosses(t, s[1..]);
    }
  }

  ghost predicate SameOrder(a: Resting, b: Resting) {
    a.key == b.key && a.order.id == b.order.id && a.order.price == b.order.price && a.order.side == b.order.side
  }

  /** u consists of the last orders of s, up to quantities. */
  ghost predicate Remnant(s: seq<Resting>, u: seq<Resting>) {
    |u| <= |s| && forall i :: 0 <= i < |u| ==> SameOrder(u[i], s[|s| - |u| + i])
  }

  /** A suffix, possibly with less of its first order. */
  ghost predicate Trimmed(s: seq<Resting>, u: seq<Resting>, n: nat, part: nat) {
    && n <= |s|
    && if part == 0 then u == s[n..] else n < |s| && part < s[n].order.qty && u == [Reduced(s[n], part)] + s[n + 1..]
  }

  lemma TrimmedWf(side: Side, s: seq<Resting>, u: seq<Resting>, n: nat, part: nat)
    requires Wf(side, s) && Trimmed(s, u, n, part)
    ensures Wf(side, u) && Remnant(s, u)
  {
    if part == 0 {
      SuffixWf(side, s, n);
    } else {
      ReducedWf(side, s, n, part);
    }
  }

  /** Matching keeps the opposite side well formed and keeps only orders that were at its end. */
  lemma MatchKeepsSide(t: Taker, s: seq<Resting>, qty: nat)
    requires Wf(Opposite(t.side), s)
    ensures Wf(Opposite(t.side), MatchAll(t, s, qty).opposite)
    ensures Remnant(s, MatchAll(t, s, qty).opposite) && MatchAll(t, s, qty).leaves <= qty
  {
    var n := MatchIsGreedy(t, s, qty);
    TrimmedWf(Opposite(t.side), s, MatchAll(t, s, qty).opposite, n, PartOf(t, s, qty, n));
  }

  /**
   * Something is left of a taker exactly when it asks for more than all orders it crosses hold together, and then
   * exactly these are gone.
   */
  lemma MatchLeaves(t: Taker, s: seq<Resting>, qty: nat)
    requires Wf(Opposite(t.side), s)
    ensures var m := MatchAll(t, s, qty);
            && (m.leaves > 0 <==> qty > Cum(s, Reach(t, s)))
            && (m.leaves > 0 ==> m.opposite == s[Reach(t, s)..])
  {
    var n := MatchIsGreedy(t, s, qty);
    hide MatchAll, FillsReported, Cum, Reach, Wf;
    if n < Reach(t, s) {
      CumMonotone(s, n + 1, Reach(t, s));
    }
  }

  /** What is left of a taker no longer crosses the opposite side. */
  lemma MatchExhausts(t: Taker, s: seq<Resting>, qty: nat)
    requires Wf(Opposite(t.side), s)
    ensures var m := MatchAll(t, s, qty);
            m.leaves > 0 && m.opposite != [] ==> !Crosses(t.side, t.price, m.opposite[0].order.price)
  {
    hide MatchAll, Wf, Cum, Reach;
    MatchLeaves(t, s, qty);
    ReachCrosses(t, s);
  }

  /** The ids and keys on both sides after the opposite side shrank. */
  lemma RemnantKeepsGood(b: Book, side: Side, u: seq<Resting>)
    requires Good(b) && side != NoSide && Wf(side, u) && Remnant(b.On(side), u)
    ensures Good(b.With(side, u))
  {
    var s, c := b.On(side), b.With(side, u);
    var d := |s| - |u|;
    if u != [] {
      assert SameOrder(u[0], s[d]);
      assert d > 0 ==> Queued(side, s[0], s[d]);
    }
    forall i | 0 <= i < |u|
      ensures u[i].order.id < b.nextId
    {
      assert SameOrder(u[i], s[d + i]);
    }
    forall i, j | 0 <= i < |c.bids| && 0 <= j < |c.asks|
      ensures Apart(c.bids[i], c.asks[j])
    {
      if side == Buy {
        assert SameOrder(u[i], s[d + i]) && Apart(b.bids[d + i], b.asks[j]);
      } else {
        assert SameOrder(u[j], s[d + j]) && Apart(b.bids[i], b.asks[d + j]);
      }
    }
  }

  ghost predicate NewAtPrice(b: Book, side: Side, e: Resting) {
    && side != NoSide && e.order.side == side && e.order.qty > 0 && !Live(b, e.key) && e.order.id == b.nextId
    && e.order.priority == NextPriority(b.On(side), side, e.order.price)
    && (b.On(Opposite(side)) != [] ==> !Crosses(side, e.order.price, b.On(Opposite(side))[0].order.price))
  }

  /** An order found on both sides of no good book. */
  lemma ApartFromOther(b: Book, side: Side, e: Resting, x: Resting, j: nat)
    requires Good(b) && NewAtPrice(b, side, e) && j < |b.On(Opposite(side))| && (x == e || x in b.On(side))
    ensures Apart(x, b.On(Opposite(side))[j]) && Apart(b.On(Opposite(side))[j], x)
  {
    if x != e {
      var i :| 0 <= i < |b.On(side)| && b.On(side)[i] == x;
      assert if side == Buy then Apart(b.bids[i], b.asks[j]) else Apart(b.bids[j], b.asks[i]);
    }
  }

  /** Resting a new order that does not cross. */
  lemma RestKeepsGood(b: Book, side: Side, e: Resting)
    requires Good(b) && NewAtPrice(b, side, e)
    ensures Good(b.With(side, Insert(b.On(side), e)).(nextId := b.nextId + 1))
  {
    var own, t := b.On(side), Insert(b.On(side), e);
    var c := b.With(side, t).(nextId := b.nextId + 1);
    InsertKeepsWf(side, own, e);
    InsertMembers(own, e);
    InsertHead(side, own, e);
    forall i, j | 0 <= i < |c.bids| && 0 <= j < |c.asks|
      ensures Apart(c.bids[i], c.asks[j])
    {
      if side == Buy {
        ApartFromOther(b, side, e, t[i], j);
      } else {
        ApartFromOther(b, side, e, t[j], i);
      }
    }
  }

  lemma RemnantKeys(s: seq<Resting>, u: seq<Resting>, key: ClientKey)
    requires Remnant(s, u) && !HasKey(s, key)
    ensures !HasKey(u, key)
  {
    forall i | 0 <= i < |u|
      ensures u[i].key != key
    {
      assert SameOrder(u[i], s[|s| - |u| + i]);
    }
  }

  /** What is left of a new order can rest in the book that its match leaves. */
  lemma RemainderIsNew(b: Book, key: ClientKey, side: Side, price: int, qty: nat, m: Matched)
    requires Good(b) && Admissible(b, New(key, side, price, qty)) && Remnant(b.On(Opposite(side)), m.opposite)
    requires m.leaves > 0
    requires m.opposite != [] ==> !Crosses(side, price, m.opposite[0].order.price)
    ensures NewAtPrice(b.With(Opposite(side), m.opposite), side, Remainder(b, key, side, price, m.leaves))
  {
    RemnantKeys(b.On(Opposite(side)), m.opposite, key);
  }

  lemma NextIdKeepsGood(b: Book)
    requires Good(b)
    ensures Good(b.(nextId := b.nextId + 1))
  {
  }

  lemma SettleKeepsGood(b: Book, key: ClientKey, side: Side, price: int, qty: nat, m: Matched)
    requires Good(b) && Admissible(b, New(key, side, price, qty))
    requires Wf(Opposite(side), m.opposite) && Remnant(b.On(Opposite(side)), m.opposite)
    requires m.leaves > 0 && m.opposite != [] ==> !Crosses(side, price, m.opposite[0].order.price)
    ensures Good(Settle(b, key, side, price, qty, m).book)
  {
    var after := b.With(Opposite(side), m.opposite);
    hide Good, Wf, Insert, NewAtPrice, Remnant, Crosses;
    RemnantKeepsGood(b, Opposite(side), m.opposite);
    if m.leaves > 0 {
      RemainderIsNew(b, key, side, price, qty, m);
      RestKeepsGood(after, side, Remainder(b, key, side, price, m.leaves));
    } else {
      NextIdKeepsGood(after);
    }
  }

  /** After an order is processed the book is good again: in particular it is not crossed. */
  lemma AddKeepsGood(b: Book, key: ClientKey, side: Side, price: int, qty: nat)
    requires Good(b) && Admissible(b, New(key, side, price, qty))
    ensures Good(Add(b, key, side, price, qty).book)
  {
    var t, opp := TakerOf(b, key, side, price), b.On(Opposite(side));
    MatchKeepsSide(t, opp, qty);
    MatchExhausts(t, opp, qty);
    SettleKeepsGood(b, key, side, price, qty, MatchAll(t, opp, qty));
  }

  lemma InsertHead<K>(side: Side, s: seq<Entry<K>>, e: Entry<K>)
    ensures Insert(s, e)[0] == e || (s != [] && Insert(s, e)[0] == s[0])
  {
  }

  lemma WithoutKeepsGood(b: Book, side: Side, key: ClientKey)
    requires Good(b) && side != NoSide
    ensures Good(b.With(side, Without(b.On(side), key)))
  {
    hide Wf, Without;
    CancelSide(side, b.On(side), key);
    var c := b.With(side, Without(b.On(side), key));
    forall i, j | 0 <= i < |c.bids| && 0 <= j < |c.asks|
      ensures Apart(c.bids[i], c.asks[j])
    {
      assert c.bids[i] in b.bids && c.asks[j] in b.asks;
      ApartIn(b, c.bids[i], c.asks[j]);
    }
  }

  lemma ApartIn(b: Book, x: Resting, y: Resting)
    requires Good(b) && x in b.bids && y in b.asks
    ensures Apart(x, y)
  {
    hide Wf;
    var i :| 0 <= i < |b.bids| && b.bids[i] == x;
    var j :| 0 <= j < |b.asks| && b.asks[j] == y;
    assert Apart(b.bids[i], b.asks[j]);
  }

  lemma CancelKeepsGood(b: Book, key: ClientKey)
    requires Good(b)
    ensures Good(Cancel(b, key).book)
  {
    WithoutKeepsGood(b, Buy, key);
    WithoutKeepsGood(b, Sell, key);
  }

  lemma CancelSide(side: Side, s: seq<Resting>, key: ClientKey)
    requires Wf(side, s)
    ensures var t := Without(s, key);
            && Wf(side, t) && (forall i :: 0 <= i < |t| ==> t[i] in s)
            && (t != [] ==> s != [] && AtLeast(side, s[0].order.price, t[0].order.price))
  {
    var t := Without(s, key);
    RemoveKeepsWf(side, s, key);
    forall i | 0 <= i < |t|
      ensures t[i] in s
    {
      WithoutMembers(s, key, t[i]);
    }
    if t != [] {
      HeadFirst(side, s, t);
    }
  }

  lemma ProcessKeepsGood(b: Book, r: Request)
    requires Good(b) && Admissible(b, r)
    ensures Good(Process(b, r).book)
  {
    match r
    case New(key, side, price, qty) => AddKeepsGood(b, key, side, price, qty);
    case CancelOrder(key) => CancelKeepsGood(b, key);
  }

  /**
   * When a remainder rests, no order at its price is left on the other side: its price slot cannot be the other side's.
   */
  lemma RestingPriceIsOneSided(b: Book, key: ClientKey, side: Side, price: int, qty: nat)
    requires Good(b) && Admissible(b, New(key, side, price, qty))
    requires MatchAll(TakerOf(b, key, side, price), b.On(Opposite(side)), qty).leaves > 0
    ensures var opp := Add(b, key, side, price, qty).book.On(Opposite(side));
            forall i :: 0 <= i < |opp| ==> opp[i].order.price != price
  {
    var t := TakerOf(b, key, side, price);
    MatchKeepsSide(t, b.On(Opposite(side)), qty);
    MatchExhausts(t, b.On(Opposite(side)), qty);
    var opp := MatchAll(t, b.On(Opposite(side)), qty).opposite;
    forall i | 0 <= i < |opp|
      ensures opp[i].order.price != price
    {
      assert i > 0 ==> Queued(Opposite(side), opp[0], opp[i]);
    }
  }

  // ----- runs

  /** The state and the complete output after a sequence of requests. */
  function Run(b: Book, rs: seq<Request>): Step {
    if rs == [] then Step(b, [], [])
    else
      var s := Run(b, rs[..|rs| - 1]);
      var p := Process(s.book, rs[|rs| - 1]);
      Step(p.book, s.responses + p.responses, s.updates + p.updates)
  }

  /** Every request is admissible when it is processed. */
  ghost predicate AllAdmissible(b: Book, rs: seq<Request>) {
    rs == [] || (AllAdmissible(b, rs[..|rs| - 1]) && Admissible(Run(b, rs[..|rs| - 1]).book, rs[|rs| - 1]))
  }

  lemma {:induction false} RunKeepsGood(b: Book, rs: seq<Request>)
    requires Good(b) && AllAdmissible(b, rs)
    ensures Good(Run(b, rs).book)
  {
    if rs != [] {
      RunKeepsGood(b, rs[..|rs| - 1]);
      ProcessKeepsGood(Run(b, rs[..|rs| - 1]).book, rs[|rs| - 1]);
    }
  }
}
