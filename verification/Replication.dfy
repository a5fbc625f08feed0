/** Replaying the market data stream: what the published updates mean, and that they reproduce the exchange's books. */
module Replication {
  import opened Types
  import opened PriceTime
  import opened Matching
  import opened BookRuns

  /** A book as market participants see it; ids at or above nextId have not been added yet. */
  datatype Pub = Pub(bids: seq<Public>, asks: seq<Public>, nextId: nat) {
    function On(side: Side): seq<Public> { if side == Buy then bids else asks }
    function With(side: Side, s: seq<Public>): Pub { if side == Buy then this.(bids := s) else this.(asks := s) }
  }

  function OrderOf(u: Update): MktOrder {
    MktOrder(u.id, u.side, u.price, u.qty, u.priority)
  }

  /** The effect of one update on the book of its ticker. */
  function Apply(p: Pub, u: Update): Pub {
    match u.kind
    case ADD => p.With(u.side, Insert(p.On(u.side), Entry(u.id, OrderOf(u)))).(nextId := u.id + 1)
    case MODIFY => Pub(WithQty(p.bids, u.id, u.qty), WithQty(p.asks, u.id, u.qty), p.nextId)
    case CANCEL => Pub(Without(p.bids, u.id), Without(p.asks, u.id), p.nextId)
    case CLEAR => Pub([], [], p.nextId)
    case _ => p
  }

  function ApplyAll(p: Pub, us: seq<Update>): Pub
    decreases |us|
  {
    if us == [] then p else ApplyAll(Apply(p, us[0]), us[1..])
  }

  ghost predicate GoodPub(p: Pub) {
    && Wf(Buy, p.bids) && Wf(Sell, p.asks)
    && (forall i :: 0 <= i < |p.bids| ==> p.bids[i].key == p.bids[i].order.id < p.nextId)
    && (forall i :: 0 <= i < |p.asks| ==> p.asks[i].key == p.asks[i].order.id < p.nextId)
    && (forall i :: 0 <= i < |p.bids| ==> !HasKey(p.asks, p.bids[i].key))
  }

  /** The updates an incremental stream may carry next: fresh ids are added, live orders modified or cancelled. */
  ghost predicate Fits(p: Pub, u: Update) {
    match u.kind
    case ADD => u.side != NoSide && u.qty > 0 && u.id >= p.nextId
        && u.priority == NextPriority(p.On(u.side), u.side, u.price)
    case MODIFY => u.side != NoSide && u.qty > 0 && Holds(p.On(u.side), u.id, u.price)
    case CANCEL => u.side != NoSide && Holds(p.On(u.side), u.id, u.price)
    case TRADE => true
    case _ => false
  }

  /** An order with the id rests at the price. */
  ghost predicate Holds(s: seq<Public>, id: nat, price: int) {
    var i := IndexOf(s, id);
    i < |s| && s[i].order.price == price
  }

  ghost predicate FitsAll(p: Pub, us: seq<Update>)
    decreases |us|
  {
    us == [] || (Fits(p, us[0]) && FitsAll(Apply(p, us[0]), us[1..]))
  }

  lemma {:induction false} ApplyConcat(p: Pub, a: seq<Update>, b: seq<Update>)
    ensures ApplyAll(p, a + b) == ApplyAll(ApplyAll(p, a), b)
    ensures FitsAll(p, a + b) <==> FitsAll(p, a) && FitsAll(ApplyAll(p, a), b)
    decreases |a|
  {
    if a == [] {
      assert a + b == b;
    } else {
      assert (a + b)[1..] == a[1..] + b;
      ApplyConcat(Apply(p, a[0]), a[1..], b);
    }
  }

  lemma ApplyOne(p: Pub, u: Update)
    ensures ApplyAll(p, [u]) == Apply(p, u)
    ensures FitsAll(p, [u]) <==> Fits(p, u)
  {
    assert [u][1..] == [];
    assert ApplyAll(Apply(p, u), []) == Apply(p, u);
  }

  lemma ApplyTwo(p: Pub, u: Update, v: Update)
    ensures ApplyAll(p, [u, v]) == Apply(Apply(p, u), v)
    ensures FitsAll(p, [u, v]) <==> Fits(p, u) && Fits(Apply(p, u), v)
  {
    assert [u, v] == [u] + [v];
    ApplyConcat(p, [u], [v]);
    ApplyOne(p, u);
    ApplyOne(Apply(p, u), v);
  }

  // ----- every fitting update keeps the public book well formed

  lemma AddFits(p: Pub, u: Update)
    requires GoodPub(p) && u.kind == ADD && Fits(p, u)
    ensures GoodPub(Apply(p, u))
  {
    var e := Entry(u.id, OrderOf(u));
    var s := p.On(u.side);
    InsertKeepsWf(u.side, s, e);
    InsertMembers(s, e);
    var q := Apply(p, u);
    forall i | 0 <= i < |q.bids|
      ensures !HasKey(q.asks, q.bids[i].key)
    {
      assert q.bids[i] == e || q.bids[i] in p.bids;
      forall j | 0 <= j < |q.asks|
        ensures q.asks[j].key != q.bids[i].key
      {
        assert q.asks[j] == e || q.asks[j] in p.asks;
      }
    }
  }

  lemma CancelFits(p: Pub, id: nat)
    requires GoodPub(p)
    ensures GoodPub(Pub(Without(p.bids, id), Without(p.asks, id), p.nextId))
  {
    RemoveKeepsWf(Buy, p.bids, id);
    RemoveKeepsWf(Sell, p.asks, id);
    WithoutSubset(p.bids, id);
    WithoutSubset(p.asks, id);
  }

  lemma WithoutSubset(s: seq<Public>, id: nat)
    ensures forall i :: 0 <= i < |Without(s, id)| ==> Without(s, id)[i] in s
  {
    forall i | 0 <= i < |Without(s, id)|
      ensures Without(s, id)[i] in s
    {
      WithoutMembers(s, id, Without(s, id)[i]);
    }
  }

  lemma ModifyFits(p: Pub, id: nat, qty: nat)
    requires GoodPub(p) && qty > 0
    ensures GoodPub(Pub(WithQty(p.bids, id, qty), WithQty(p.asks, id, qty), p.nextId))
  {
    ModifyKeepsWf(Buy, p.bids, id, qty);
    ModifyKeepsWf(Sell, p.asks, id, qty);
  }

  lemma FitKeepsGood(p: Pub, u: Update)
    requires GoodPub(p) && Fits(p, u)
    ensures GoodPub(Apply(p, u))
  {
    match u.kind
    case ADD => AddFits(p, u);
    case CANCEL => CancelFits(p, u.id);
    case MODIFY => ModifyFits(p, u.id, u.qty);
    case _ =>
  }

  lemma {:induction false} FitAllKeepsGood(p: Pub, us: seq<Update>)
    requires GoodPub(p) && FitsAll(p, us)
    ensures GoodPub(ApplyAll(p, us))
    decreases |us|
  {
    if us != [] {
      FitKeepsGood(p, us[0]);
      FitAllKeepsGood(Apply(p, us[0]), us[1..]);
    }
  }

  // ----- the exchange's book and its public image

  function Project(s: seq<Resting>): (r: seq<Public>)
    ensures |r| == |s| && forall i :: 0 <= i < |s| ==> r[i] == Entry(s[i].order.id, s[i].order)
  {
    if s == [] then [] else [Entry(s[0].order.id, s[0].order)] + Project(s[1..])
  }

  /** p shows exactly the orders of b. */
  ghost predicate Mirrors(p: Pub, b: Book) {
    p.bids == Project(b.bids) && p.asks == Project(b.asks) && p.nextId <= b.nextId
  }

  lemma {:induction false} ProjectRank(s: seq<Resting>, side: Side, price: int)
    ensures Rank(Project(s), side, price) == Rank(s, side, price)
  {
    if s != [] {
      assert Project(s)[1..] == Project(s[1..]);
      ProjectRank(s[1..], side, price);
    }
  }

  lemma ProjectInsert(s: seq<Resting>, e: Resting)
    ensures Project(Insert(s, e)) == Insert(Project(s), Entry(e.order.id, e.order))
    ensures NextPriority(Project(s), e.order.side, e.order.price) == NextPriority(s, e.order.side, e.order.price)
  {
    var r := Rank(s, e.order.side, e.order.price);
    ProjectRank(s, e.order.side, e.order.price);
    ProjectSplice(s, e, r);
  }

  lemma {:induction false} ProjectConcat(a: seq<Resting>, b: seq<Resting>)
    ensures Project(a + b) == Project(a) + Project(b)
  {
    if a == [] {
      assert a + b == b;
    } else {
      assert (a + b)[1..] == a[1..] + b;
      ProjectConcat(a[1..], b);
    }
  }

  lemma ProjectCut(s: seq<Resting>, r: nat)
    requires r <= |s|
    ensures Project(s)[..r] == Project(s[..r]) && Project(s)[r..] == Project(s[r..])
  {
    assert s == s[..r] + s[r..];
    ProjectConcat(s[..r], s[r..]);
  }

  lemma ProjectSplice(s: seq<Resting>, e: Resting, r: nat)
    requires r <= |s|
    ensures Project(s[..r] + [e] + s[r..]) == Project(s)[..r] + [Entry(e.order.id, e.order)] + Project(s)[r..]
  {
    ProjectCut(s, r);
    ProjectConcat(s[..r] + [e], s[r..]);
    ProjectConcat(s[..r], [e]);
    assert Project([e]) == [Entry(e.order.id, e.order)];
  }

  lemma ProjectWithout(side: Side, s: seq<Resting>, i: nat)
    requires Wf(side, s) && i < |s|
    ensures Without(Project(s), s[i].order.id) == Project(Without(s, s[i].key))
  {
    ProjectWf(side, s);
    hide Wf, Without;
    WithoutIndex(side, s, i);
    WithoutIndex(side, Project(s), i);
    ProjectCut(s, i);
    ProjectCut(s, i + 1);
    ProjectConcat(s[..i], s[i + 1..]);
  }

  lemma ProjectWf(side: Side, s: seq<Resting>)
    requires Wf(side, s)
    ensures Wf(side, Project(s))
  {
    var t := Project(s);
    forall i, j | 0 <= i < j < |t|
      ensures Queued(side, t[i], t[j])
    {
      assert Queued(side, s[i], s[j]);
    }
  }

  /** An id that rests on neither list position is not found. */
  lemma ProjectAbsent(s: seq<Resting>, id: nat)
    requires forall i :: 0 <= i < |s| ==> s[i].order.id != id
    ensures Without(Project(s), id) == Project(s)
    ensures forall qty: nat :: WithQty(Project(s), id, qty) == Project(s)
  {
    WithoutAbsent(Project(s), id);
  }

  // ----- the stream of one matching loop

  /** The head of the projected side reacts to the updates of a fill as the head of the side does to the fill. */
  lemma FillMirrored(t: Taker, side: Side, s: seq<Resting>, qty: nat, own: seq<Resting>, p: Pub)
    requires side != NoSide && Wf(side, s) && s != [] && qty > 0 && t.side == Opposite(side)
    requires p.On(side) == Project(s) && p.On(Opposite(side)) == Project(own)
    requires IdsDiffer(own, s)
    ensures var us := FillUpdates(t, s[0], qty);
            var fill := Min(qty, s[0].order.qty);
            var rest := if fill == s[0].order.qty then s[1..] else [Reduced(s[0], fill)] + s[1..];
            && FitsAll(p, us)
            && ApplyAll(p, us) == p.With(side, Project(rest))
  {
    hide Without, WithQty, Project, Queued, FitsAll, ApplyAll;
    var us := FillUpdates(t, s[0], qty);
    var fill := Min(qty, s[0].order.qty);
    var rest := if fill == s[0].order.qty then s[1..] else [Reduced(s[0], fill)] + s[1..];
    assert us == [us[0], us[1]];
    ApplyTwo(p, us[0], us[1]);
    assert Apply(p, us[0]) == p;
    ProjectAbsent(own, s[0].order.id);
    HeadMirrored(side, s, s[0].order.qty - fill);
    assert IndexOf(Project(s), s[0].order.id) == 0;
  }

  lemma HeadMirrored(side: Side, s: seq<Resting>, qty: nat)
    requires Wf(side, s) && s != []
    ensures Without(Project(s), s[0].order.id) == Project(s[1..])
    ensures WithQty(Project(s), s[0].order.id, qty) == Project([s[0].(order := s[0].order.(qty := qty))] + s[1..])
  {
    HeadCancelled(side, s);
    hide Without;
    forall i | 0 < i < |s|
      ensures s[i].order.id != s[0].order.id
    {
      assert Queued(side, s[0], s[i]);
    }
  }

  lemma HeadCancelled(side: Side, s: seq<Resting>)
    requires Wf(side, s) && s != []
    ensures Without(Project(s), s[0].order.id) == Project(s[1..])
  {
    WithoutIndex(side, s, 0);
    ProjectWithout(side, s, 0);
    assert s[..0] + s[1..] == s[1..];
  }

  /** No order of one side has the id of an order of the other. */
  ghost predicate IdsDiffer(a: seq<Resting>, b: seq<Resting>) {
    forall i, j {:trigger a[i], b[j]} :: 0 <= i < |a| && 0 <= j < |b| ==> a[i].order.id != b[j].order.id
  }

  lemma {:induction false} MatchMirrored(t: Taker, side: Side, s: seq<Resting>, qty: nat, own: seq<Resting>, p: Pub)
    requires side != NoSide && Wf(side, s) && t.side == Opposite(side)
    requires p.On(side) == Project(s) && p.On(Opposite(side)) == Project(own)
    requires IdsDiffer(own, s)
    ensures var m := MatchAll(t, s, qty);
            && FitsAll(p, m.updates)
            && ApplyAll(p, m.updates) == p.With(side, Project(m.opposite))
    decreases qty, |s|
  {
    hide Wf, Project, IdsDiffer, FillUpdates, Queued;
    if qty != 0 && s != [] && Crosses(t.side, t.price, s[0].order.price) {
      HeadPositive(side, s);
      var fill := Min(qty, s[0].order.qty);
      var rest := if fill == s[0].order.qty then s[1..] else [Reduced(s[0], fill)] + s[1..];
      FillMirrored(t, side, s, qty, own, p);
      RestWf(side, s, fill);
      RestIds(own, s, fill);
      var p' := p.With(side, Project(rest));
      MatchMirrored(t, side, rest, qty - fill, own, p');
      ApplyConcat(p, FillUpdates(t, s[0], qty), MatchAll(t, rest, qty - fill).updates);
    }
  }

  lemma HeadPositive(side: Side, s: seq<Resting>)
    requires Wf(side, s) && s != []
    ensures s[0].order.qty > 0
  {
  }

  lemma RestIds(own: seq<Resting>, s: seq<Resting>, fill: nat)
    requires IdsDiffer(own, s) && s != [] && fill <= s[0].order.qty
    ensures IdsDiffer(own, if fill == s[0].order.qty then s[1..] else [Reduced(s[0], fill)] + s[1..])
  {
    var rest := if fill == s[0].order.qty then s[1..] else [Reduced(s[0], fill)] + s[1..];
    forall i, j | 0 <= i < |own| && 0 <= j < |rest|
      ensures own[i].order.id != rest[j].order.id
    {
      var k := if fill == s[0].order.qty then j + 1 else j;
      assert rest[j].order.id == s[k].order.id;
    }
  }

  lemma RestWf(side: Side, s: seq<Resting>, fill: nat)
    requires Wf(side, s) && s != [] && 0 < fill <= s[0].order.qty
    ensures Wf(side, if fill == s[0].order.qty then s[1..] else [Reduced(s[0], fill)] + s[1..])
  {
    if fill == s[0].order.qty {
      SuffixWf(side, s, 1);
    } else {
      ReducedWf(side, s, 0, fill);
    }
  }

  // ----- the stream of one request

  lemma IdsApart(b: Book, side: Side)
    requires Good(b) && side != NoSide
    ensures IdsDiffer(b.On(side), b.On(Opposite(side)))
  {
    forall i, j | 0 <= i < |b.On(side)| && 0 <= j < |b.On(Opposite(side))|
      ensures b.On(side)[i].order.id != b.On(Opposite(side))[j].order.id
    {
      assert if side == Buy then Apart(b.bids[i], b.asks[j]) else Apart(b.bids[j], b.asks[i]);
    }
  }

  lemma AddMirrored(b: Book, key: ClientKey, side: Side, price: int, qty: nat, p: Pub)
    requires Good(b) && Admissible(b, New(key, side, price, qty)) && Mirrors(p, b)
    ensures var s := Matching.Add(b, key, side, price, qty);
            FitsAll(p, s.updates) && Mirrors(ApplyAll(p, s.updates), s.book)
  {
    hide Wf, Insert, Project, HasKey, NextPriority;
    var t, opp := TakerOf(b, key, side, price), b.On(Opposite(side));
    var m := MatchAll(t, opp, qty);
    IdsApart(b, side);
    MatchMirrored(t, Opposite(side), opp, qty, b.On(side), p);
    var p' := p.With(Opposite(side), Project(m.opposite));
    if m.leaves > 0 {
      var e := Remainder(b, key, side, price, m.leaves);
      var u := Update(ADD, e.order.id, b.ticker, side, price, e.order.qty, e.order.priority);
      ProjectInsert(b.On(side), e);
      ApplyOne(p', u);
      ApplyConcat(p, m.updates, [u]);
    }
  }

  lemma CancelMirrored(b: Book, key: ClientKey, p: Pub)
    requires Good(b) && Mirrors(p, b)
    ensures var s := Matching.Cancel(b, key);
            FitsAll(p, s.updates) && Mirrors(ApplyAll(p, s.updates), s.book)
  {
    var side := if IndexOf(b.bids, key) < |b.bids| then Buy else Sell;
    var s := b.On(side);
    var i := IndexOf(s, key);
    if i < |s| {
      var o := s[i].order;
      var u := Update(CANCEL, o.id, b.ticker, o.side, o.price, 0, o.priority);
      ApplyOne(p, u);
      ProjectWithout(side, s, i);
      IdsApart(b, side);
      ProjectAbsent(b.On(Opposite(side)), o.id);
      ProjectWf(side, s);
      IndexOfAt(side, Project(s), i);
    }
  }

  lemma IndexOfAt<K(!new)>(side: Side, s: seq<Entry<K>>, i: nat)
    requires Wf(side, s) && i < |s|
    ensures IndexOf(s, s[i].key) == i
  {
    var j := IndexOf(s, s[i].key);
    assert j < i ==> Queued(side, s[j], s[i]);
  }

  /** Replaying the updates of a request takes the image of the book before it to the image of the book after it. */
  lemma ProcessMirrored(b: Book, r: Request, p: Pub)
    requires Good(b) && Admissible(b, r) && Mirrors(p, b)
    ensures var s := Process(b, r);
            FitsAll(p, s.updates) && Mirrors(ApplyAll(p, s.updates), s.book)
  {
    match r
    case New(key, side, price, qty) => AddMirrored(b, key, side, price, qty, p);
    case CancelOrder(key) => CancelMirrored(b, key, p);
  }

  /** Over every run the published stream, replayed from an empty book, reproduces the exchange's book. */
  lemma {:induction false} RunMirrored(b: Book, rs: seq<Request>, p: Pub)
    requires Good(b) && AllAdmissible(b, rs) && Mirrors(p, b)
    ensures FitsAll(p, Run(b, rs).updates) && Mirrors(ApplyAll(p, Run(b, rs).updates), Run(b, rs).book)
  {
    if rs != [] {
      var init := rs[..|rs| - 1];
      RunMirrored(b, init, p);
      RunKeepsGood(b, init);
      var s := Run(b, init);
      ProcessMirrored(s.book, rs[|rs| - 1], ApplyAll(p, s.updates));
      ApplyConcat(p, s.updates, Process(s.book, rs[|rs| - 1]).updates);
    }
  }
}
