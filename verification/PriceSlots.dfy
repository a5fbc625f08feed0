/**
 * Resting an order by price slot. The book finds the level of a price at slot price % n of one index shared by both
 * sides, so two prices in one slot are taken for one. This says exactly when that matters.
 */
module PriceSlots {
  import opened Types
  import opened PriceTime
  import opened Shapes
  import opened SlotLookups
  import opened Matching
  import opened BookRuns

  /** The entry that rests a remainder, with the priority that the queue of its slot hands out. */
  function SlotEntry(b: Book, key: ClientKey, side: Side, price: int, leaves: nat, n: nat): Resting
    requires n > 0
  {
    var (d, p) := SlotQueue(b.bids, b.asks, side, price, n);
    Entry(key, MktOrder(b.nextId, side, price, leaves, NextPriority(b.On(d), d, p)))
  }

  /**
   * getNextPriority and addOrder as the code runs them: the level found in the slot is used whatever its side and
   * price, and only an empty slot gets a level of its own.
   */
  function RestBySlot(b: Book, key: ClientKey, side: Side, price: int, leaves: nat, n: nat): Book
    requires n > 0
  {
    var (d, p) := SlotQueue(b.bids, b.asks, side, price, n);
    b.With(d, Appended(b.On(d), SlotEntry(b, key, side, price, leaves, n), d, p))
  }

  /** Resting by price, as the queue discipline asks. */
  function RestByPrice(b: Book, key: ClientKey, side: Side, price: int, leaves: nat): Book {
    b.With(side, Insert(b.On(side), Remainder(b, key, side, price, leaves)))
  }

  /** No live order is at another price of the slot: what a caller can check against the book. */
  ghost predicate SlotFree(b: Book, price: int, n: nat)
    requires n > 0
  {
    NoClash(b.bids, price, n) && NoClash(b.asks, price, n)
  }

  ghost predicate SlotsApart(s: seq<Resting>, t: seq<Resting>, n: nat)
    requires n > 0
  {
    forall i, j :: 0 <= i < |s| && 0 <= j < |t| ==>
      (Slot(s[i].order.price, n) == Slot(t[j].order.price, n) ==> s[i].order.price == t[j].order.price)
  }

  /** Live prices occupy different slots, as they do while the index and the levels agree. */
  ghost predicate OneLevelPerSlot(b: Book, n: nat)
    requires n > 0
  {
    SlotsApart(b.bids, b.bids, n) && SlotsApart(b.asks, b.asks, n) && SlotsApart(b.bids, b.asks, n)
  }

  /** A remainder that has finished matching. */
  ghost predicate DoneMatching(b: Book, side: Side, price: int) {
    b.On(Opposite(side)) != [] ==> !Crosses(side, price, b.On(Opposite(side))[0].order.price)
  }

  lemma NobodyAt(side: Side, s: seq<Resting>, price: int)
    requires Wf(side, s) && forall i :: 0 <= i < |s| ==> s[i].order.price != price
    ensures NextPriority(s, side, price) == 1
  {
  }

  lemma {:induction false} SomebodyAt(side: Side, s: seq<Resting>, i: nat)
    requires Wf(side, s) && i < |s|
    ensures NextPriority(s, side, s[i].order.price) > 1
  {
    var p := s[i].order.price;
    RankIsBoundary(s, side, p);
    var r := Rank(s, side, p);
    assert i < r;
    assert i < r - 1 ==> Queued(side, s[i], s[r - 1]);
  }

  lemma OppositeNotAt(b: Book, side: Side, price: int)
    requires Good(b) && side != NoSide && DoneMatching(b, side, price)
    ensures forall i :: 0 <= i < |b.On(Opposite(side))| ==> b.On(Opposite(side))[i].order.price != price
  {
    var opp := b.On(Opposite(side));
    forall i | 0 <= i < |opp|
      ensures opp[i].order.price != price
    {
      assert i > 0 ==> Queued(Opposite(side), opp[0], opp[i]);
    }
  }

  /** With a free slot the code rests the order where its price belongs. */
  lemma FreeSlotIsFaithful(b: Book, key: ClientKey, side: Side, price: int, leaves: nat, n: nat)
    requires n > 0 && Good(b) && side != NoSide && DoneMatching(b, side, price) && SlotFree(b, price, n)
    ensures SlotQueue(b.bids, b.asks, side, price, n) == (side, price)
    ensures RestBySlot(b, key, side, price, leaves, n) == RestByPrice(b, key, side, price, leaves)
    ensures SlotEntry(b, key, side, price, leaves, n) == Remainder(b, key, side, price, leaves)
  {
    OppositeNotAt(b, side, price);
  }

  /** With another price in the slot the order lands elsewhere, or with the priority of a queue that is not its own. */
  lemma TakenSlotIsUnfaithful(b: Book, key: ClientKey, side: Side, price: int, leaves: nat, n: nat)
    requires n > 0 && Good(b) && side != NoSide && OneLevelPerSlot(b, n) && !Live(b, key)
    requires !SlotFree(b, price, n)
    ensures RestBySlot(b, key, side, price, leaves, n) != RestByPrice(b, key, side, price, leaves)
  {
    var slot := Slot(price, n);
    var bid, ask := SlotHit(b.bids, slot, n), SlotHit(b.asks, slot, n);
    var c, d := RestBySlot(b, key, side, price, leaves, n), RestByPrice(b, key, side, price, leaves);
    var hit := if bid < |b.bids| then Buy else Sell;
    if bid < |b.bids| || ask < |b.asks| {
      var s := b.On(hit);
      var p := s[if hit == Buy then bid else ask].order.price;
      var r := Rank(s, hit, p);
      if side == hit && p != price {
        SomebodyAt(side, s, if hit == Buy then bid else ask);
        NobodyAt(side, s, price);
        assert c.On(side)[r].key == key && c.On(side)[r].order.priority > 1;
        var e := Remainder(b, key, side, price, leaves);
        SoleEntry(s, e, c.On(side)[r], Rank(s, side, price));
      } else if side != hit {
        assert |c.On(side)| == |b.On(side)|;
      }
    }
  }

  /** In a side where only e has its key, no other entry with that key occurs. */
  lemma SoleEntry(s: seq<Resting>, e: Resting, x: Resting, r: nat)
    requires r <= |s| && !HasKey(s, e.key) && x.key == e.key && x != e
    ensures x !in s[..r] + [e] + s[r..]
  {
  }

  /**
   * The code rests a remainder where its price belongs if and only if no live order is at another price of its slot.
   */
  lemma RestsFaithfullyIff(b: Book, key: ClientKey, side: Side, price: int, leaves: nat, n: nat)
    requires n > 0 && Good(b) && side != NoSide && !Live(b, key)
    requires DoneMatching(b, side, price) && OneLevelPerSlot(b, n)
    ensures RestBySlot(b, key, side, price, leaves, n) == RestByPrice(b, key, side, price, leaves) <==>
            SlotFree(b, price, n)
  {
    if SlotFree(b, price, n) {
      FreeSlotIsFaithful(b, key, side, price, leaves, n);
    } else {
      TakenSlotIsUnfaithful(b, key, side, price, leaves, n);
    }
  }

  /** What is in the book when the remainder of a new order is about to rest. */
  function BookToRest(b: Book, key: ClientKey, side: Side, price: int, qty: nat): Book {
    b.With(Opposite(side), MatchAll(TakerOf(b, key, side, price), b.On(Opposite(side)), qty).opposite)
  }

  /** Whether something of a new order is left to rest after its match. */
  predicate Rests(b: Book, key: ClientKey, side: Side, price: int, qty: nat) {
    MatchAll(TakerOf(b, key, side, price), b.On(Opposite(side)), qty).leaves > 0
  }

  /** add as the code runs it, whatever its price slot leads to. */
  function AddBySlot(b: Book, key: ClientKey, side: Side, price: int, qty: nat, n: nat): Step
    requires n > 0
  {
    var m := MatchAll(TakerOf(b, key, side, price), b.On(Opposite(side)), qty);
    var accepted := Response(ACCEPTED, key, b.ticker, b.nextId, side, price, 0, qty);
    var before := BookToRest(b, key, side, price, qty);
    if m.leaves == 0 then
      Step(before.(nextId := b.nextId + 1), [accepted] + m.responses, m.updates)
    else
      var e := SlotEntry(before, key, side, price, m.leaves, n);
      Step(RestBySlot(before, key, side, price, m.leaves, n).(nextId := b.nextId + 1), [accepted] + m.responses,
           m.updates + [Update(ADD, e.order.id, b.ticker, side, price, e.order.qty, e.order.priority)])
  }

  /** The book in which a remainder is about to rest. */
  lemma BeforeRest(b: Book, key: ClientKey, side: Side, price: int, qty: nat)
    requires Good(b) && Admissible(b, New(key, side, price, qty))
    ensures var c := BookToRest(b, key, side, price, qty);
            && Good(c) && c.nextId == b.nextId && c.ticker == b.ticker && c.On(side) == b.On(side) && !Live(c, key)
            && (Rests(b, key, side, price, qty) ==> DoneMatching(c, side, price))
  {
    var t, opp := TakerOf(b, key, side, price), b.On(Opposite(side));
    MatchKeepsSide(t, opp, qty);
    MatchExhausts(t, opp, qty);
    RemnantKeepsGood(b, Opposite(side), MatchAll(t, opp, qty).opposite);
    RemnantKeys(opp, MatchAll(t, opp, qty).opposite, key);
  }

  /** Settling a remainder is resting it by price. */
  lemma AddRestsByPrice(b: Book, key: ClientKey, side: Side, price: int, qty: nat)
    requires side != NoSide && Rests(b, key, side, price, qty)
    ensures var c, s := BookToRest(b, key, side, price, qty), Add(b, key, side, price, qty);
            var leaves := MatchAll(TakerOf(b, key, side, price), b.On(Opposite(side)), qty).leaves;
            s.book == RestByPrice(c, key, side, price, leaves).(nextId := b.nextId + 1)
  {
  }

  /** The new order asks for more than all orders that it crosses hold together. */
  ghost predicate Outlasts(b: Book, key: ClientKey, side: Side, price: int, qty: nat) {
    var t, opp := TakerOf(b, key, side, price), b.On(Opposite(side));
    qty > Cum(opp, Reach(t, opp))
  }

  /** The book without the orders that a new order crosses. */
  ghost function Beyond(b: Book, key: ClientKey, side: Side, price: int): Book {
    var t, opp := TakerOf(b, key, side, price), b.On(Opposite(side));
    b.With(Opposite(side), opp[Reach(t, opp)..])
  }

  /** If something of a new order will rest, no order that it leaves behind is at another price of its slot. */
  ghost predicate FreeToRest(b: Book, key: ClientKey, side: Side, price: int, qty: nat, n: nat)
    requires n > 0
  {
    Outlasts(b, key, side, price, qty) ==> SlotFree(Beyond(b, key, side, price), price, n)
  }

  /** Whether a remainder will rest, and what it meets, can be told before the call. */
  lemma RestsBeyond(b: Book, key: ClientKey, side: Side, price: int, qty: nat)
    requires Good(b) && side != NoSide
    ensures Rests(b, key, side, price, qty) <==> Outlasts(b, key, side, price, qty)
    ensures Rests(b, key, side, price, qty) ==> BookToRest(b, key, side, price, qty) == Beyond(b, key, side, price)
  {
    MatchLeaves(TakerOf(b, key, side, price), b.On(Opposite(side)), qty);
    hide MatchAll, Cum, Reach, Wf;
  }

  lemma StillApart(b: Book, key: ClientKey, side: Side, price: int, n: nat)
    requires n > 0 && side != NoSide && OneLevelPerSlot(b, n)
    ensures OneLevelPerSlot(Beyond(b, key, side, price), n)
  {
    var opp := b.On(Opposite(side));
    var k := Reach(TakerOf(b, key, side, price), opp);
    ApartSuffix(b.On(side), opp, k, n);
    ApartSuffix(opp, opp, k, n);
    hide Reach, SlotsApart;
    assert opp == b.bids || opp == b.asks;
  }

  lemma ApartSuffix(s: seq<Resting>, opp: seq<Resting>, k: nat, n: nat)
    requires n > 0 && k <= |opp|
    ensures SlotsApart(s, opp, n) ==> SlotsApart(s, opp[k..], n) && SlotsApart(opp[k..], s, n)
    ensures SlotsApart(opp, s, n) ==> SlotsApart(s, opp[k..], n) && SlotsApart(opp[k..], s, n)
    ensures SlotsApart(opp, opp, n) ==> SlotsApart(opp[k..], opp[k..], n)
  {
    var t := opp[k..];
    assert forall i :: 0 <= i < |t| ==> t[i] == opp[k + i];
  }

  /**
   * add does what matching and price-time order ask for if and only if the order does not outlast what it crosses, or
   * no order it leaves behind is at another price of its slot. Both can be told from the book before the call.
   */
  lemma AddIsFaithfulIff(b: Book, key: ClientKey, side: Side, price: int, qty: nat, n: nat)
    requires n > 0 && Good(b) && Admissible(b, New(key, side, price, qty)) && OneLevelPerSlot(b, n)
    ensures AddBySlot(b, key, side, price, qty, n).book == Add(b, key, side, price, qty).book <==>
            FreeToRest(b, key, side, price, qty, n)
    ensures FreeToRest(b, key, side, price, qty, n) ==>
            && AddBySlot(b, key, side, price, qty, n) == Add(b, key, side, price, qty)
            && Good(AddBySlot(b, key, side, price, qty, n).book)
            && (Rests(b, key, side, price, qty) ==>
                  var c := BookToRest(b, key, side, price, qty);
                  SlotQueue(c.bids, c.asks, side, price, n) == (side, price))
  {
    AddKeepsGood(b, key, side, price, qty);
    var c := BookToRest(b, key, side, price, qty);
    BeforeRest(b, key, side, price, qty);
    RestsBeyond(b, key, side, price, qty);
    StillApart(b, key, side, price, n);
    hide Outlasts, Beyond;
    if Rests(b, key, side, price, qty) {
      var leaves := MatchAll(TakerOf(b, key, side, price), b.On(Opposite(side)), qty).leaves;
      AddRestsByPrice(b, key, side, price, qty);
      RestsFaithfullyIff(c, key, side, price, leaves, n);
      if SlotFree(c, price, n) {
        FreeSlotIsFaithful(c, key, side, price, leaves, n);
      }
      SameButNext(RestBySlot(c, key, side, price, leaves, n), RestByPrice(c, key, side, price, leaves), b.nextId + 1);
    }
  }

  /** What add makes of a book when nothing is left to rest. */
  lemma AddWithoutRest(b: Book, key: ClientKey, side: Side, price: int, qty: nat, n: nat, m: Matched)
    requires n > 0 && m == MatchAll(TakerOf(b, key, side, price), b.On(Opposite(side)), qty) && m.leaves == 0
    ensures !Rests(b, key, side, price, qty)
    ensures AddBySlot(b, key, side, price, qty, n)
         == Step(BookToRest(b, key, side, price, qty).(nextId := b.nextId + 1),
                 [Response(ACCEPTED, key, b.ticker, b.nextId, side, price, 0, qty)] + m.responses, m.updates)
  {
  }

  /** What add makes of a book when something is left to rest. */
  lemma AddWithRest(b: Book, key: ClientKey, side: Side, price: int, qty: nat, n: nat, m: Matched)
    requires n > 0 && m == MatchAll(TakerOf(b, key, side, price), b.On(Opposite(side)), qty) && m.leaves > 0
    ensures Rests(b, key, side, price, qty)
    ensures var c := BookToRest(b, key, side, price, qty);
            var e := SlotEntry(c, key, side, price, m.leaves, n);
            AddBySlot(b, key, side, price, qty, n)
            == Step(RestBySlot(c, key, side, price, m.leaves, n).(nextId := b.nextId + 1),
                    [Response(ACCEPTED, key, b.ticker, b.nextId, side, price, 0, qty)] + m.responses,
                    m.updates + [Update(ADD, b.nextId, b.ticker, side, price, m.leaves, e.order.priority)])
  {
  }

  lemma SameButNext(b: Book, c: Book, next: nat)
    requires b.nextId == c.nextId
    ensures b.(nextId := next) == c.(nextId := next) <==> b == c
  {
  }

  const KeyOne: ClientKey := ClientKey(1, 1)
  const KeyTwo: ClientKey := ClientKey(1, 2)
  const FirstBid: Resting := Entry(KeyOne, MktOrder(1, Buy, 100, 5, 1))
  const SecondBid: Resting := Entry(KeyTwo, MktOrder(2, Buy, 356, 7, 2))

  /** With 256 slots, a bid of 356 that meets a resting bid of 100 is queued behind it instead of ahead of it. */
  lemma SlotClashExample()
    ensures AddBySlot(Book(0, [], [], 1), KeyOne, Buy, 100, 5, 256).book == Book(0, [FirstBid], [], 2)
    ensures AddBySlot(Book(0, [FirstBid], [], 2), KeyTwo, Buy, 356, 7, 256).book
            == Book(0, [FirstBid, SecondBid], [], 3)
    ensures Add(Book(0, [FirstBid], [], 2), KeyTwo, Buy, 356, 7).book.bids
         == [SecondBid.(order := SecondBid.order.(priority := 1)), FirstBid]
  {
    assert Rank<ClientKey>([], Buy, 100) == 0;
    assert Rank([FirstBid], Buy, 100) == 1 by { assert [FirstBid][1..] == []; }
    assert Rank([FirstBid], Buy, 356) == 0;
    assert Slot(100, 256) == Slot(356, 256) == 100;
    assert SlotHit([FirstBid], 100, 256) == 0;
  }
}
