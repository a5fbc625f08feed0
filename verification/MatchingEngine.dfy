/** The matching engine: requests carried out one after another, and when the price slots let a whole run come true. */
module MatchingEngines {
  import opened Types
  import opened PriceTime
  import opened Matching
  import opened BookRuns
  import opened PriceSlots
  import opened Shapes
  import opened SlotLookups
  import opened MEOrderBooks

  // ----- live prices stay in different slots

  ghost function Prices(b: Book): set<int> {
    PricesOf(b.bids) + PricesOf(b.asks)
  }

  ghost predicate PricesApart(ps: set<int>, n: nat)
    requires n > 0
  {
    forall p, q :: p in ps && q in ps && Slot(p, n) == Slot(q, n) ==> p == q
  }

  lemma ApartByPrices(b: Book, n: nat)
    requires n > 0
    ensures OneLevelPerSlot(b, n) <==> PricesApart(Prices(b), n)
  {
    if PricesApart(Prices(b), n) {
      SidesApartByPrices(b.bids, b.bids, Prices(b), n);
      SidesApartByPrices(b.asks, b.asks, Prices(b), n);
      SidesApartByPrices(b.bids, b.asks, Prices(b), n);
    }
  }

  lemma SidesApartByPrices(s: seq<Resting>, t: seq<Resting>, ps: set<int>, n: nat)
    requires n > 0 && PricesOf(s) <= ps && PricesOf(t) <= ps && PricesApart(ps, n)
    ensures SlotsApart(s, t, n)
  {
    assert forall i :: 0 <= i < |s| ==> s[i].order.price in PricesOf(s);
    assert forall i :: 0 <= i < |t| ==> t[i].order.price in PricesOf(t);
  }

  lemma RemnantPrices(s: seq<Resting>, u: seq<Resting>)
    requires Remnant(s, u)
    ensures PricesOf(u) <= PricesOf(s)
  {
    forall i | 0 <= i < |u|
      ensures u[i].order.price in PricesOf(s)
    {
      assert SameOrder(u[i], s[|s| - |u| + i]);
    }
  }

  lemma InsertPrices(s: seq<Resting>, e: Resting)
    ensures PricesOf(Insert(s, e)) <= PricesOf(s) + {e.order.price}
  {
    InsertMembers(s, e);
  }

  lemma WithoutPrices(s: seq<Resting>, key: ClientKey)
    ensures PricesOf(Without(s, key)) <= PricesOf(s)
  {
    var t := Without(s, key);
    forall i | 0 <= i < |t|
      ensures t[i].order.price in PricesOf(s)
    {
      WithoutMembers(s, key, t[i]);
    }
  }

  lemma FreePrice(b: Book, price: int, n: nat)
    requires n > 0 && SlotFree(b, price, n) && PricesApart(Prices(b), n)
    ensures PricesApart(Prices(b) + {price}, n)
  {
  }

  lemma MatchPrices(b: Book, key: ClientKey, side: Side, price: int, qty: nat)
    requires Good(b) && side != NoSide
    ensures Prices(BookToRest(b, key, side, price, qty)) <= Prices(b)
  {
    var t, opp := TakerOf(b, key, side, price), b.On(Opposite(side));
    MatchKeepsSide(t, opp, qty);
    hide MatchAll, PricesOf;
    RemnantPrices(opp, MatchAll(t, opp, qty).opposite);
  }

  lemma AddPrices(b: Book, key: ClientKey, side: Side, price: int, qty: nat)
    requires side != NoSide
    ensures Prices(Matching.Add(b, key, side, price, qty).book)
         <= Prices(BookToRest(b, key, side, price, qty)) + if Rests(b, key, side, price, qty) then {price} else {}
  {
    var leaves := MatchAll(TakerOf(b, key, side, price), b.On(Opposite(side)), qty).leaves;
    hide MatchAll, PricesOf, Insert;
    if Rests(b, key, side, price, qty) {
      AddRestsByPrice(b, key, side, price, qty);
      var c := BookToRest(b, key, side, price, qty);
      InsertPrices(c.On(side), Remainder(c, key, side, price, leaves));
    }
  }

  /** An order that finds its slot free keeps the live prices in different slots. */
  lemma AddKeepsApart(b: Book, key: ClientKey, side: Side, price: int, qty: nat, n: nat)
    requires n > 0 && Good(b) && Admissible(b, New(key, side, price, qty)) && OneLevelPerSlot(b, n)
    requires FreeToRest(b, key, side, price, qty, n)
    ensures OneLevelPerSlot(Matching.Add(b, key, side, price, qty).book, n)
  {
    assert side != NoSide;
    hide Good, Admissible, OneLevelPerSlot, Outlasts, Beyond, PricesOf, Prices, SlotFree, Matching.Add;
    MatchPrices(b, key, side, price, qty);
    AddPrices(b, key, side, price, qty);
    ApartByPrices(b, n);
    ApartByPrices(Matching.Add(b, key, side, price, qty).book, n);
    RestsBeyond(b, key, side, price, qty);
    hide Rests, BookToRest;
    if Rests(b, key, side, price, qty) {
      FreePrice(BookToRest(b, key, side, price, qty), price, n);
    }
  }

  lemma CancelKeepsApart(b: Book, key: ClientKey, n: nat)
    requires n > 0 && OneLevelPerSlot(b, n)
    ensures OneLevelPerSlot(Matching.Cancel(b, key).book, n)
  {
    WithoutPrices(b.bids, key);
    WithoutPrices(b.asks, key);
    ApartByPrices(b, n);
    ApartByPrices(Matching.Cancel(b, key).book, n);
  }

  // ----- runs as the code carries them out

  /** processClientRequest as the code carries it out, whatever the price slots lead to. */
  function ProcessBySlot(b: Book, r: Request, n: nat): Step
    requires n > 0
  {
    match r
    case New(key, side, price, qty) => AddBySlot(b, key, side, price, qty, n)
    case CancelOrder(key) => Matching.Cancel(b, key)
  }

  function RunBySlot(b: Book, rs: seq<Request>, n: nat): Step
    requires n > 0
  {
    if rs == [] then Step(b, [], [])
    else
      var s := RunBySlot(b, rs[..|rs| - 1], n);
      var p := ProcessBySlot(s.book, rs[|rs| - 1], n);
      Step(p.book, s.responses + p.responses, s.updates + p.updates)
  }

  /** The slot of a new order is free if the order has to rest. */
  ghost predicate FreeFor(b: Book, r: Request, n: nat)
    requires n > 0
  {
    r.New? ==> FreeToRest(b, r.key, r.side, r.price, r.qty, n)
  }

  /** Every new order of a run finds its slot free when it has to rest. */
  ghost predicate AllFree(b: Book, rs: seq<Request>, n: nat)
    requires n > 0
  {
    rs == [] || (AllFree(b, rs[..|rs| - 1], n) && FreeFor(Run(b, rs[..|rs| - 1]).book, rs[|rs| - 1], n))
  }

  lemma ProcessIsFaithfulIff(b: Book, r: Request, n: nat)
    requires n > 0 && Good(b) && Admissible(b, r) && OneLevelPerSlot(b, n)
    ensures ProcessBySlot(b, r, n).book == Process(b, r).book <==> FreeFor(b, r, n)
    ensures FreeFor(b, r, n) ==> ProcessBySlot(b, r, n) == Process(b, r) && OneLevelPerSlot(Process(b, r).book, n)
  {
    hide Good, Admissible, OneLevelPerSlot, FreeToRest, AddBySlot, Matching.Add, Matching.Cancel;
    match r
    case New(key, side, price, qty) =>
      AddIsFaithfulIff(b, key, side, price, qty, n);
      if FreeToRest(b, key, side, price, qty, n) {
        AddKeepsApart(b, key, side, price, qty, n);
      }
    case CancelOrder(key) =>
      CancelKeepsApart(b, key, n);
  }

  lemma {:induction false} FreeRunIsFaithful(b: Book, rs: seq<Request>, n: nat)
    requires n > 0 && Good(b) && AllAdmissible(b, rs) && OneLevelPerSlot(b, n) && AllFree(b, rs, n)
    ensures RunBySlot(b, rs, n) == Run(b, rs) && OneLevelPerSlot(Run(b, rs).book, n)
  {
    if rs != [] {
      var init := rs[..|rs| - 1];
      FreeRunIsFaithful(b, init, n);
      RunKeepsGood(b, init);
      ProcessIsFaithfulIff(Run(b, init).book, rs[|rs| - 1], n);
    }
  }

  /** The book of the code is the abstract one after every request. */
  ghost predicate Faithful(b: Book, rs: seq<Request>, n: nat)
    requires n > 0
  {
    forall k: nat :: k <= |rs| ==> RunBySlot(b, rs[..k], n).book == Run(b, rs[..k]).book
  }

  lemma FaithfulStep(b: Book, rs: seq<Request>, n: nat)
    requires n > 0 && rs != []
    ensures Faithful(b, rs, n) <==>
            Faithful(b, rs[..|rs| - 1], n) && RunBySlot(b, rs, n).book == Run(b, rs).book
  {
    hide RunBySlot, Run;
    var init := rs[..|rs| - 1];
    assert forall k: nat :: k < |rs| ==> init[..k] == rs[..k];
    assert rs[..|rs|] == rs;
    forall k: nat | k <= |rs| && Faithful(b, init, n) && RunBySlot(b, rs, n).book == Run(b, rs).book
      ensures RunBySlot(b, rs[..k], n).book == Run(b, rs[..k]).book
    {
      assert k < |rs| ==> init[..k] == rs[..k];
    }
    if Faithful(b, rs, n) {
      forall k: nat | k <= |init|
        ensures RunBySlot(b, init[..k], n).book == Run(b, init[..k]).book
      {
        assert init[..k] == rs[..k];
      }
    }
  }

  /**
   * The book of the code is the abstract one after every request of a run if and only if no new order of the run that
   * has to rest leaves an order behind at another price of its slot.
   */
  lemma {:induction false} RunIsFaithfulIff(b: Book, rs: seq<Request>, n: nat)
    requires n > 0 && Good(b) && AllAdmissible(b, rs) && OneLevelPerSlot(b, n)
    ensures Faithful(b, rs, n) <==> AllFree(b, rs, n)
  {
    if rs == [] {
      assert rs[..0] == rs;
    } else {
      var init := rs[..|rs| - 1];
      FaithfulStep(b, rs, n);
      RunIsFaithfulIff(b, init, n);
      hide Faithful, Good, Admissible, OneLevelPerSlot, FreeFor, Process, ProcessBySlot;
      if AllFree(b, init, n) {
        FreeRunIsFaithful(b, init, n);
        RunKeepsGood(b, init);
        ProcessIsFaithfulIff(Run(b, init).book, rs[|rs| - 1], n);
      }
    }
  }

  // ----- the linked structure

  /** There is room for a new order if it has to rest. */
  ghost predicate RoomAt(b: Book, r: Request, n: nat, orderBlocks: nat, levelBlocks: nat) {
    r.New? ==> RoomToRest(b, r.key, r.side, r.price, r.qty, n, orderBlocks, levelBlocks)
  }

  ghost predicate AllRoom(b: Book, rs: seq<Request>, n: nat, orderBlocks: nat, levelBlocks: nat) {
    rs == [] || (AllRoom(b, rs[..|rs| - 1], n, orderBlocks, levelBlocks)
                 && RoomAt(Run(b, rs[..|rs| - 1]).book, rs[|rs| - 1], n, orderBlocks, levelBlocks))
  }

  /** Everything that a run asks of the book that carries it out. */
  ghost predicate CanRun(b: Book, rs: seq<Request>, n: nat, orderBlocks: nat, levelBlocks: nat) {
    n > 0 && AllAdmissible(b, rs) && AllFree(b, rs, n) && AllRoom(b, rs, n, orderBlocks, levelBlocks)
  }

  lemma {:induction false} CanRunStep(b: Book, rs: seq<Request>, i: nat, next: nat, n: nat, orderBlocks: nat,
      levelBlocks: nat)
    requires CanRun(b, rs, n, orderBlocks, levelBlocks) && next == i + 1 <= |rs|
    ensures var c := Run(b, rs[..i]).book;
            n > 0 && Admissible(c, rs[i]) && FreeFor(c, rs[i], n) && RoomAt(c, rs[i], n, orderBlocks, levelBlocks)
    ensures var s, p := Run(b, rs[..i]), Process(Run(b, rs[..i]).book, rs[i]);
            Run(b, rs[..next]) == Step(p.book, s.responses + p.responses, s.updates + p.updates)
  {
    assert rs[..next][..i] == rs[..i];
    if next < |rs| {
      var init := rs[..|rs| - 1];
      CanRunStep(b, init, i, next, n, orderBlocks, levelBlocks);
      assert init[..i] == rs[..i] && init[..next] == rs[..next];
    } else {
      assert rs[..next] == rs;
    }
  }

  /** processClientRequest on the linked structure. */
  method ProcessClientRequest(x: MEOrderBook, r: Request)
    requires x.Valid() && Admissible(x.State(), r) && x.book.priceIndex.Length > 0
    requires FreeFor(x.State(), r, x.book.priceIndex.Length)
    requires RoomAt(x.State(), r, x.book.priceIndex.Length, x.book.orderPool.store.Length,
                    x.book.levelPool.store.Length)
    modifies x.Repr()
    ensures x.Valid()
    ensures var s := Process(old(x.State()), r);
            && x.State() == s.book
            && x.clientResponses == old(x.clientResponses) + s.responses
            && x.marketUpdates == old(x.marketUpdates) + s.updates
  {
    match r
    case New(key, side, price, qty) => x.Add(key, side, price, qty);
    case CancelOrder(key) => x.Cancel(key);
  }

  /** The first i requests of a run have led to this book and this output. */
  ghost predicate RanTo(b: Book, rs: seq<Request>, i: nat, now: Book, responses: seq<Response>, updates: seq<Update>,
      responses': seq<Response>, updates': seq<Update>)
    requires i <= |rs|
  {
    var s := Run(b, rs[..i]);
    now == s.book && responses' == responses + s.responses && updates' == updates + s.updates
  }

  lemma RunNext(b: Book, rs: seq<Request>, i: nat, next: nat, now: Book, responses: seq<Response>,
      updates: seq<Update>, responses': seq<Response>, updates': seq<Update>, n: nat, orderBlocks: nat,
      levelBlocks: nat)
    requires next == i + 1 <= |rs| && RanTo(b, rs, i, now, responses, updates, responses', updates')
    requires CanRun(b, rs, n, orderBlocks, levelBlocks)
    ensures n > 0 && Admissible(now, rs[i]) && FreeFor(now, rs[i], n) && RoomAt(now, rs[i], n, orderBlocks, levelBlocks)
    ensures var p := Process(now, rs[i]);
            RanTo(b, rs, next, p.book, responses, updates, responses' + p.responses, updates' + p.updates)
  {
    hide CanRun, Run, Process, Admissible, FreeFor, RoomAt;
    CanRunStep(b, rs, i, next, n, orderBlocks, levelBlocks);
  }

  /** One turn of the engine's loop; next is the number of requests processed. */
  method ProcessNext(x: MEOrderBook, rs: seq<Request>, i: nat, ghost b: Book, ghost responses: seq<Response>,
      ghost updates: seq<Update>) returns (next: nat)
    requires x.Valid() && i < |rs| && RanTo(b, rs, i, x.State(), responses, updates, x.clientResponses, x.marketUpdates)
    requires CanRun(b, rs, x.book.priceIndex.Length, x.book.orderPool.store.Length, x.book.levelPool.store.Length)
    modifies x.Repr()
    ensures x.Valid() && next == i + 1 <= |rs|
    ensures RanTo(b, rs, next, x.State(), responses, updates, x.clientResponses, x.marketUpdates)
  {
    hide MEOrderBook.Valid, Good, Run, Process, CanRun, FreeFor, RoomAt, Admissible, RanTo;
    next := i + 1;
    RunNext(b, rs, i, next, x.State(), responses, updates, x.clientResponses, x.marketUpdates,
      x.book.priceIndex.Length, x.book.orderPool.store.Length, x.book.levelPool.store.Length);
    ProcessClientRequest(x, rs[i]);
  }

  /** The engine's loop on one book: the linked structure ends as the abstract book does, with the same output. */
  method RunRequests(x: MEOrderBook, rs: seq<Request>)
    requires x.Valid()
    requires CanRun(x.State(), rs, x.book.priceIndex.Length, x.book.orderPool.store.Length,
                    x.book.levelPool.store.Length)
    modifies x.Repr()
    ensures x.Valid()
    ensures var s := Run(old(x.State()), rs);
            && x.State() == s.book
            && x.clientResponses == old(x.clientResponses) + s.responses
            && x.marketUpdates == old(x.marketUpdates) + s.updates
  {
    ghost var b, responses, updates := x.State(), x.clientResponses, x.marketUpdates;
    var i: nat := 0;
    assert RanTo(b, rs, 0, b, responses, updates, responses, updates);
    hide MEOrderBook.Valid, Good, Run, CanRun, RanTo;
    while i < |rs|
      invariant x.Valid() && i <= |rs|
      invariant RanTo(b, rs, i, x.State(), responses, updates, x.clientResponses, x.marketUpdates)
    {
      i := ProcessNext(x, rs, i, b, responses, updates);
    }
    RanThrough(b, rs, x.State(), responses, updates, x.clientResponses, x.marketUpdates);
  }

  lemma RanThrough(b: Book, rs: seq<Request>, now: Book, responses: seq<Response>, updates: seq<Update>,
      responses': seq<Response>, updates': seq<Update>)
    requires RanTo(b, rs, |rs|, now, responses, updates, responses', updates')
    ensures var s := Run(b, rs);
            now == s.book && responses' == responses + s.responses && updates' == updates + s.updates
  {
    assert rs[..|rs|] == rs;
  }
}
