/** The life of an order as its client sees it in the responses, and conservation of its quantity over whole runs. */
module Lifecycles {
  import opened Types
  import opened PriceTime
  import opened Matching
  import opened BookRuns

  /** Requested with a quantity, resting with a quantity, done, or reported in a way that makes no sense. */
  datatype Life = Pending(qty: nat) | Open(leaves: nat) | Closed | Broken

  /** The next stage: ACCEPTED once and first, FILLED with consistent quantities, at most one CANCELED at the end. */
  function Next(l: Life, r: Response): Life {
    match r.kind
    case ACCEPTED =>
      if l.Pending? && r.execQty == 0 && r.leavesQty == l.qty > 0 then Open(l.qty) else Broken
    case FILLED =>
      if l.Open? && 0 < r.execQty <= l.leaves && r.leavesQty == l.leaves - r.execQty
      then (if r.leavesQty == 0 then Closed else Open(r.leavesQty)) else Broken
    case CANCELED =>
      if l.Open? && r.leavesQty == l.leaves then Closed else Broken
    case CANCEL_REJECTED => l
  }

  /** The stage reached after the responses that concern one order. */
  function After(l: Life, log: seq<Response>, key: ClientKey): Life
    decreases |log|
  {
    if log == [] then l
    else After(if log[0].key == key then Next(l, log[0]) else l, log[1..], key)
  }

  function Stage(qty: nat): Life {
    if qty == 0 then Closed else Open(qty)
  }

  /** The resting quantity of an order on one side. */
  function RestingOn(s: seq<Resting>, key: ClientKey): nat {
    var i := IndexOf(s, key);
    if i < |s| then s[i].order.qty else 0
  }

  function RestingQty(b: Book, key: ClientKey): nat {
    RestingOn(b.bids, key) + RestingOn(b.asks, key)
  }

  lemma {:induction false} AfterConcat(l: Life, a: seq<Response>, b: seq<Response>, key: ClientKey)
    ensures After(l, a + b, key) == After(After(l, a, key), b, key)
    decreases |a|
  {
    if a == [] {
      assert a + b == b;
    } else {
      assert (a + b)[1..] == a[1..] + b;
      AfterConcat(if a[0].key == key then Next(l, a[0]) else l, a[1..], b, key);
    }
  }

  lemma AfterTwo(l: Life, r0: Response, r1: Response, rest: seq<Response>, key: ClientKey)
    ensures var l0 := if r0.key == key then Next(l, r0) else l;
            var l1 := if r1.key == key then Next(l0, r1) else l0;
            After(l, [r0, r1] + rest, key) == After(l1, rest, key)
  {
    assert ([r0, r1] + rest)[1..] == [r1] + rest;
    assert ([r1] + rest)[1..] == rest;
  }

  // ----- one matching loop

  /** An order that neither takes nor rests on the opposite side hears nothing. */
  lemma {:induction false} MatchSilent(t: Taker, s: seq<Resting>, qty: nat, key: ClientKey, l: Life)
    requires key != t.key && !HasKey(s, key)
    ensures After(l, MatchAll(t, s, qty).responses, key) == l
    decreases qty, |s|
  {
    if qty != 0 && s != [] && Crosses(t.side, t.price, s[0].order.price) {
      var fill := Min(qty, s[0].order.qty);
      var rest := if fill == s[0].order.qty then s[1..] else [Reduced(s[0], fill)] + s[1..];
      assert s[0].key != key;
      forall i | 0 <= i < |rest|
        ensures rest[i].key != key
      {
        assert rest[i].key == s[if fill == s[0].order.qty then i + 1 else i].key;
      }
      var m := MatchAll(t, rest, qty - fill);
      var r := FillResponses(t, s[0], qty);
      AfterTwo(l, r[0], r[1], m.responses, key);
      assert [r[0], r[1]] == r;
      MatchSilent(t, rest, qty - fill, key, l);
    }
  }

  /** The taker hears of its fills in order, down to what is left of it. */
  lemma {:induction false} MatchTaker(t: Taker, s: seq<Resting>, qty: nat)
    requires Positive(s) && !HasKey(s, t.key) && qty > 0
    ensures After(Open(qty), MatchAll(t, s, qty).responses, t.key) == Stage(MatchAll(t, s, qty).leaves)
    decreases |s|
  {
    if s != [] && Crosses(t.side, t.price, s[0].order.price) {
      var fill := Min(qty, s[0].order.qty);
      assert s[0].key != t.key;
      var r := FillResponses(t, s[0], qty);
      assert [r[0], r[1]] == r;
      if qty <= s[0].order.qty {
        var rest := if fill == s[0].order.qty then s[1..] else [Reduced(s[0], fill)] + s[1..];
        assert MatchAll(t, rest, 0) == Matched(rest, 0, [], []);
        AfterTwo(Open(qty), r[0], r[1], [], t.key);
      } else {
        AfterTwo(Open(qty), r[0], r[1], MatchAll(t, s[1..], qty - fill).responses, t.key);
        forall i | 0 <= i < |s[1..]|
          ensures s[1..][i].key != t.key
        {
          assert s[1..][i] == s[i + 1];
        }
        MatchTaker(t, s[1..], qty - fill);
      }
    }
  }

  /** A passive order hears of its own fills only, down to what still rests of it. */
  lemma {:induction false} MatchPassive(t: Taker, side: Side, s: seq<Resting>, qty: nat, key: ClientKey)
    requires Wf(side, s) && HasKey(s, key) && key != t.key
    ensures After(Open(RestingOn(s, key)), MatchAll(t, s, qty).responses, key)
         == Stage(RestingOn(MatchAll(t, s, qty).opposite, key))
    decreases |s|
  {
    if qty != 0 && Crosses(t.side, t.price, s[0].order.price) {
      var p, l := s[0], Open(RestingOn(s, key));
      var fill := Min(qty, p.order.qty);
      var r := FillResponses(t, p, qty);
      assert [r[0], r[1]] == r;
      TailWf(side, s);
      if qty < p.order.qty {
        var rest := [Reduced(p, fill)] + s[1..];
        assert MatchAll(t, rest, 0) == Matched(rest, 0, [], []);
        AfterTwo(l, r[0], r[1], [], key);
        assert rest[1..] == s[1..];
      } else {
        var m := MatchAll(t, s[1..], qty - fill);
        AfterTwo(l, r[0], r[1], m.responses, key);
        if p.key == key {
          assert !HasKey(s[1..], key);
          MatchSilent(t, s[1..], qty - fill, key, Closed);
          RemainsAbsent(t, side, s[1..], qty - fill, key);
        } else {
          var i :| 0 <= i < |s| && s[i].key == key;
          assert s[1..][i - 1].key == key;
          MatchPassive(t, side, s[1..], qty - fill, key);
        }
      }
    }
  }

  lemma RemainsAbsent(t: Taker, side: Side, s: seq<Resting>, qty: nat, key: ClientKey)
    requires Wf(side, s) && !HasKey(s, key)
    ensures RestingOn(MatchAll(t, s, qty).opposite, key) == 0
  {
    var n := MatchIsGreedy(t, s, qty);
    TrimmedWf(side, s, MatchAll(t, s, qty).opposite, n, PartOf(t, s, qty, n));
    RemnantKeys(s, MatchAll(t, s, qty).opposite, key);
  }

  // ----- one request

  lemma RestingAt(side: Side, s: seq<Resting>, i: nat)
    requires Wf(side, s) && i < |s|
    ensures RestingOn(s, s[i].key) == s[i].order.qty
  {
    var j := IndexOf(s, s[i].key);
    assert j < i ==> Queued(side, s[j], s[i]);
  }

  lemma RestingInserted(side: Side, s: seq<Resting>, e: Resting, key: ClientKey)
    requires Wf(side, s) && Wf(side, Insert(s, e)) && !HasKey(s, e.key)
    ensures RestingOn(Insert(s, e), key) == if key == e.key then e.order.qty else RestingOn(s, key)
  {
    var t, r := Insert(s, e), Rank(s, e.order.side, e.order.price);
    RestingAt(side, t, r);
    assert forall j :: 0 <= j < |t| && j != r ==> t[j] == s[if j < r then j else j - 1];
    var i := IndexOf(s, key);
    if i < |s| {
      assert t[if i < r then i else i + 1] == s[i];
      RestingAt(side, t, if i < r then i else i + 1);
    }
  }

  lemma RestingRemoved(side: Side, s: seq<Resting>, gone: ClientKey, key: ClientKey)
    requires Wf(side, s)
    ensures RestingOn(Without(s, gone), key) == if key == gone then 0 else RestingOn(s, key)
  {
    var t := Without(s, gone);
    RemoveKeepsWf(side, s, gone);
    var i, j := IndexOf(s, key), IndexOf(t, key);
    if j < |t| {
      WithoutMembers(s, gone, t[j]);
      var k :| 0 <= k < |s| && s[k] == t[j];
      RestingAt(side, s, k);
    } else if i < |s| && key != gone {
      WithoutMembers(s, gone, s[i]);
    }
  }

  /** The stage an order is in agrees with the book. */
  ghost predicate Tracks(l: Life, b: Book, key: ClientKey) {
    match l
    case Open(q) => q > 0 && RestingQty(b, key) == q
    case Broken => false
    case _ => RestingQty(b, key) == 0
  }

  lemma LiveIffResting(b: Book, key: ClientKey)
    requires Good(b)
    ensures Live(b, key) <==> RestingQty(b, key) > 0
    ensures HasKey(b.bids, key) ==> RestingOn(b.asks, key) == 0
  {
    var i, j := IndexOf(b.bids, key), IndexOf(b.asks, key);
    assert i < |b.bids| && j < |b.asks| ==> Apart(b.bids[i], b.asks[j]);
  }

  /** What settling a new order changes for each key, in terms of what its match left. */
  lemma SettleResting(b: Book, taker: ClientKey, side: Side, price: int, qty: nat, m: Matched, key: ClientKey)
    requires Good(b) && Admissible(b, New(taker, side, price, qty))
    requires Good(Settle(b, taker, side, price, qty, m).book)
    ensures var after := Settle(b, taker, side, price, qty, m).book;
            RestingQty(after, key) == RestingOn(m.opposite, key)
                + (if key == taker then m.leaves else RestingOn(b.On(side), key))
  {
    if m.leaves > 0 {
      RestingInserted(side, b.On(side), Remainder(b, taker, side, price, m.leaves), key);
    }
  }

  /** The taker of a new order is acknowledged and hears its fills, down to what rests of it. */
  lemma AddLifeOfTaker(b: Book, key: ClientKey, side: Side, price: int, qty: nat)
    requires Good(b) && Admissible(b, New(key, side, price, qty))
    ensures var s := Matching.Add(b, key, side, price, qty);
            After(Pending(qty), s.responses, key) == Stage(RestingQty(s.book, key))
  {
    var t, opp := TakerOf(b, key, side, price), b.On(Opposite(side));
    var m := MatchAll(t, opp, qty);
    AddKeepsGood(b, key, side, price, qty);
    MatchTaker(t, opp, qty);
    SettleResting(b, key, side, price, qty, m, key);
    RemainsAbsent(t, Opposite(side), opp, qty, key);
    var accepted := Response(ACCEPTED, key, b.ticker, b.nextId, side, price, 0, qty);
    AfterConcat(Pending(qty), [accepted], m.responses, key);
  }

  /** Everybody else hears nothing, or the fills of a passive order. */
  lemma AddLifeOfOthers(b: Book, taker: ClientKey, side: Side, price: int, qty: nat, key: ClientKey, l: Life)
    requires Good(b) && Admissible(b, New(taker, side, price, qty)) && key != taker && Tracks(l, b, key)
    ensures var s := Matching.Add(b, taker, side, price, qty);
            && Tracks(After(l, s.responses, key), s.book, key)
            && (!l.Open? ==> After(l, s.responses, key) == l)
  {
    var t, opp := TakerOf(b, taker, side, price), b.On(Opposite(side));
    var m := MatchAll(t, opp, qty);
    AddKeepsGood(b, taker, side, price, qty);
    SettleResting(b, taker, side, price, qty, m, key);
    var accepted := Response(ACCEPTED, taker, b.ticker, b.nextId, side, price, 0, qty);
    AfterConcat(l, [accepted], m.responses, key);
    assert After(l, [accepted], key) == l;
    OneSided(b, side, key);
    OppositeHears(t, Opposite(side), opp, qty, key, l, RestingOn(b.On(side), key));
  }

  lemma OneSided(b: Book, side: Side, key: ClientKey)
    requires Good(b) && side != NoSide
    ensures RestingQty(b, key) == RestingOn(b.On(side), key) + RestingOn(b.On(Opposite(side)), key)
    ensures RestingOn(b.On(Opposite(side)), key) > 0 ==> RestingOn(b.On(side), key) == 0
    ensures Wf(side, b.On(side)) && Wf(Opposite(side), b.On(Opposite(side)))
  {
    LiveIffResting(b, key);
  }

  /**
   * The book entry and the life of an order other than the taker's move together; elsewhere is what rests on the
   * taker's side.
   */
  lemma OppositeHears(t: Taker, side: Side, s: seq<Resting>, qty: nat, key: ClientKey, l: Life, elsewhere: nat)
    requires Wf(side, s) && key != t.key
    requires l == Stage(RestingOn(s, key) + elsewhere) || (!l.Open? && RestingOn(s, key) + elsewhere == 0)
    requires RestingOn(s, key) > 0 ==> elsewhere == 0
    ensures var m := MatchAll(t, s, qty);
            && After(l, m.responses, key) ==
                 (if RestingOn(s, key) > 0 then Stage(RestingOn(m.opposite, key)) else l)
            && (RestingOn(s, key) == 0 ==> RestingOn(m.opposite, key) == 0)
  {
    if HasKey(s, key) {
      MatchPassive(t, side, s, qty, key);
    } else {
      MatchSilent(t, s, qty, key, l);
      RemainsAbsent(t, side, s, qty, key);
    }
  }

  lemma CancelResting(b: Book, gone: ClientKey, key: ClientKey)
    requires Good(b)
    ensures RestingQty(Matching.Cancel(b, gone).book, key) == if key == gone then 0 else RestingQty(b, key)
  {
    hide Wf, Without, IndexOf;
    LiveIffResting(b, key);
    LiveIffResting(b, gone);
    RestingRemoved(Buy, b.bids, gone, key);
    RestingRemoved(Sell, b.asks, gone, key);
  }

  /** The reply to a cancel reports what rests of the order, or rejects. */
  lemma CancelReply(b: Book, gone: ClientKey)
    requires Good(b)
    ensures var s := Matching.Cancel(b, gone);
            && |s.responses| == 1 && s.responses[0].key == gone
            && if RestingQty(b, gone) == 0 then s.responses[0].kind == CANCEL_REJECTED
               else s.responses[0].kind == CANCELED && s.responses[0].leavesQty == RestingQty(b, gone)
  {
    LiveIffResting(b, gone);
  }

  lemma CancelLife(b: Book, gone: ClientKey, key: ClientKey, l: Life)
    requires Good(b) && Tracks(l, b, key)
    ensures var s := Matching.Cancel(b, gone);
            && Tracks(After(l, s.responses, key), s.book, key)
            && (!l.Open? ==> After(l, s.responses, key) == l)
  {
    hide Good, Matching.Cancel, RestingQty;
    CancelResting(b, gone, key);
    CancelReply(b, gone);
    var r := Matching.Cancel(b, gone).responses;
    assert After(l, r, key) == if r[0].key == key then Next(l, r[0]) else l;
  }

  /** One request moves every order's life along with the book. */
  lemma StepLife(b: Book, r: Request, key: ClientKey, l: Life)
    requires Good(b) && Admissible(b, r) && Tracks(l, b, key)
    requires r.New? && r.key == key ==> l == Pending(r.qty)
    ensures var s := Process(b, r);
            && Tracks(After(l, s.responses, key), s.book, key)
            && (!l.Open? && !(r.New? && r.key == key) ==> After(l, s.responses, key) == l)
            && (r.New? && r.key == key ==> !After(l, s.responses, key).Pending?)
  {
    match r
    case New(taker, side, price, qty) =>
      if taker == key {
        AddLifeOfTaker(b, key, side, price, qty);
      } else {
        AddLifeOfOthers(b, taker, side, price, qty, key, l);
      }
    case CancelOrder(gone) =>
      CancelLife(b, gone, key, l);
  }

  // ----- runs

  function EmptyBook(ticker: nat): Book {
    Book(ticker, [], [], 1)
  }

  /** Real sides, positive quantities, and no client order id used twice. */
  ghost predicate Sensible(rs: seq<Request>) {
    && (forall i :: 0 <= i < |rs| && rs[i].New? ==> rs[i].side != NoSide && rs[i].qty > 0)
    && (forall i, j :: 0 <= i < j < |rs| && rs[i].New? && rs[j].New? ==> rs[i].key != rs[j].key)
  }

  /** The quantity with which a key was requested; 0 when it was not. */
  function Requested(rs: seq<Request>, key: ClientKey): nat {
    if rs == [] then 0
    else if rs[|rs| - 1].New? && rs[|rs| - 1].key == key then rs[|rs| - 1].qty
    else Requested(rs[..|rs| - 1], key)
  }

  lemma {:induction false} RequestedEarlier(rs: seq<Request>, key: ClientKey)
    requires forall i :: 0 <= i < |rs| && rs[i].New? ==> rs[i].key != key
    ensures Requested(rs, key) == 0
  {
    if rs != [] {
      RequestedEarlier(rs[..|rs| - 1], key);
    }
  }

  lemma SensiblePrefix(rs: seq<Request>)
    requires Sensible(rs) && rs != []
    ensures Sensible(rs[..|rs| - 1])
    ensures rs[|rs| - 1].New? ==> Requested(rs[..|rs| - 1], rs[|rs| - 1].key) == 0
  {
    var init := rs[..|rs| - 1];
    if rs[|rs| - 1].New? {
      RequestedEarlier(init, rs[|rs| - 1].key);
    }
  }

  /** What the client of an order, requested with quantity q (or never, if 0), has heard agrees with the book. */
  ghost predicate Heard(book: Book, log: seq<Response>, q: nat, key: ClientKey) {
    && (q > 0 ==> Tracks(After(Pending(q), log, key), book, key) && !After(Pending(q), log, key).Pending?)
    && (q == 0 ==> !Live(book, key) && forall l: Life :: !l.Open? ==> After(l, log, key) == l)
  }

  lemma HeardStep(s: Step, q: nat, r: Request, key: ClientKey)
    requires Good(s.book) && Admissible(s.book, r) && Heard(s.book, s.responses, q, key)
    requires r.New? && r.key == key ==> q == 0
    ensures var p := Process(s.book, r);
            && Good(p.book)
            && Heard(p.book, s.responses + p.responses, if r.New? && r.key == key then r.qty else q, key)
  {
    hide Process, Good, Admissible;
    var p := Process(s.book, r);
    ProcessKeepsGood(s.book, r);
    LiveIffResting(p.book, key);
    if q > 0 {
      AfterConcat(Pending(q), s.responses, p.responses, key);
      StepLife(s.book, r, key, After(Pending(q), s.responses, key));
      NeverPendingAgain(After(Pending(q), s.responses, key), p.responses, key);
    } else {
      FirstHeard(s, r, key);
      if r.New? {
        NewIsPositive(s.book, r);
      }
    }
  }

  lemma {:induction false} NeverPendingAgain(l: Life, log: seq<Response>, key: ClientKey)
    requires !l.Pending?
    ensures !After(l, log, key).Pending?
    decreases |log|
  {
    if log != [] {
      NeverPendingAgain(if log[0].key == key then Next(l, log[0]) else l, log[1..], key);
    }
  }

  lemma NewIsPositive(b: Book, r: Request)
    requires Admissible(b, r) && r.New?
    ensures r.qty > 0
  {
  }

  /**
   * In every run, the responses of every requested order spell out ACCEPTED, then FILLEDs with consistent and
   * decreasing leaves, then at most one CANCELED, and where they stop is what the book holds of the order.
   * Orders never requested are never heard of.
   */
  lemma {:induction false} EveryLifeTracks(ticker: nat, rs: seq<Request>, key: ClientKey)
    requires Sensible(rs)
    ensures AllAdmissible(EmptyBook(ticker), rs) && Good(Run(EmptyBook(ticker), rs).book)
    ensures var s := Run(EmptyBook(ticker), rs);
            Heard(s.book, s.responses, Requested(rs, key), key)
  {
    hide Process, Heard;
    if rs == [] {
      NothingHeard(EmptyBook(ticker), key);
    } else {
      var init, r := rs[..|rs| - 1], rs[|rs| - 1];
      SensiblePrefix(rs);
      EveryLifeTracks(ticker, init, key);
      var s := Run(EmptyBook(ticker), init);
      if r.New? {
        EveryLifeTracks(ticker, init, r.key);
        HeardNotLive(s.book, s.responses, r.key);
      }
      HeardStep(s, Requested(init, key), r, key);
    }
  }

  lemma NothingHeard(b: Book, key: ClientKey)
    requires b.bids == [] && b.asks == []
    ensures Heard(b, [], 0, key)
  {
  }

  lemma HeardNotLive(b: Book, log: seq<Response>, key: ClientKey)
    requires Heard(b, log, 0, key)
    ensures !Live(b, key)
  {
  }

  /** The step for a key not requested before. */
  lemma FirstHeard(s: Step, r: Request, key: ClientKey)
    requires Good(s.book) && Admissible(s.book, r) && !Live(s.book, key)
    requires forall l: Life :: !l.Open? ==> After(l, s.responses, key) == l
    ensures var p := Process(s.book, r);
            var log := s.responses + p.responses;
            && (r.New? && r.key == key ==>
                  Tracks(After(Pending(r.qty), log, key), p.book, key) && !After(Pending(r.qty), log, key).Pending?)
            && (!(r.New? && r.key == key) ==>
                  RestingQty(p.book, key) == 0 && forall l: Life :: !l.Open? ==> After(l, log, key) == l)
  {
    var p := Process(s.book, r);
    LiveIffResting(s.book, key);
    if r.New? && r.key == key {
      AfterConcat(Pending(r.qty), s.responses, p.responses, key);
      StepLife(s.book, r, key, Pending(r.qty));
    } else {
      StepLife(s.book, r, key, Closed);
      forall l: Life | !l.Open?
        ensures After(l, s.responses + p.responses, key) == l
      {
        AfterConcat(l, s.responses, p.responses, key);
        StepSilent(s.book, r, key, l);
      }
    }
  }

  /** A request does not tell anybody about an order that is neither live nor requested by it. */
  lemma StepSilent(b: Book, r: Request, key: ClientKey, l: Life)
    requires Good(b) && !Live(b, key) && !(r.New? && r.key == key) && !l.Open?
    ensures After(l, Process(b, r).responses, key) == l
  {
    match r
    case New(taker, side, price, qty) =>
      var t, opp := TakerOf(b, taker, side, price), b.On(Opposite(side));
      MatchSilent(t, opp, qty, key, l);
      var accepted := Response(ACCEPTED, taker, b.ticker, b.nextId, side, price, 0, qty);
      AfterConcat(l, [accepted], MatchAll(t, opp, qty).responses, key);
    case CancelOrder(gone) =>
  }

  // ----- conservation of quantity

  function Executed(log: seq<Response>, key: ClientKey): nat {
    if log == [] then 0 else
    var r := log[|log| - 1];
    Executed(log[..|log| - 1], key) + if r.key == key && r.kind == FILLED then r.execQty else 0
  }

  function CanceledLeaves(log: seq<Response>, key: ClientKey): nat {
    if log == [] then 0 else
    var r := log[|log| - 1];
    CanceledLeaves(log[..|log| - 1], key) + if r.key == key && r.kind == CANCELED then r.leavesQty else 0
  }

  lemma AfterLast(l: Life, log: seq<Response>, key: ClientKey)
    requires log != []
    ensures var r := log[|log| - 1];
            var before := After(l, log[..|log| - 1], key);
            After(l, log, key) == if r.key == key then Next(before, r) else before
  {
    assert log == log[..|log| - 1] + [log[|log| - 1]];
    AfterConcat(l, log[..|log| - 1], [log[|log| - 1]], key);
  }

  /** A life that makes sense accounts for the whole requested quantity. */
  lemma {:induction false} LifeConserves(q: nat, log: seq<Response>, key: ClientKey)
    requires After(Pending(q), log, key) != Broken
    ensures match After(Pending(q), log, key)
            case Pending(p) => p == q && Executed(log, key) == 0 && CanceledLeaves(log, key) == 0
            case Open(leaves) => q == Executed(log, key) + leaves && CanceledLeaves(log, key) == 0
            case Closed => q == Executed(log, key) + CanceledLeaves(log, key)
            case Broken => false
  {
    if log != [] {
      AfterLast(Pending(q), log, key);
      LifeConserves(q, log[..|log| - 1], key);
    }
  }

  /**
   * In every run, what was requested under a key has been executed, rests in the book, or was handed back; for a key
   * under which nothing was requested all three are zero.
   */
  lemma QuantityIsConserved(ticker: nat, rs: seq<Request>, key: ClientKey)
    requires Sensible(rs)
    ensures var s := Run(EmptyBook(ticker), rs);
            Requested(rs, key)
            == Executed(s.responses, key) + RestingQty(s.book, key) + CanceledLeaves(s.responses, key)
  {
    EveryLifeTracks(ticker, rs, key);
    var s := Run(EmptyBook(ticker), rs);
    LiveIffResting(s.book, key);
    LifeConserves(Requested(rs, key), s.responses, key);
  }

  /** The quantity reported as executed on one side of the market. */
  function SideExecuted(log: seq<Response>, side: Side): nat {
    if log == [] then 0 else
    (if log[0].kind == FILLED && log[0].side == side then log[0].execQty else 0) + SideExecuted(log[1..], side)
  }

  function TradedQty(updates: seq<Update>): nat {
    if updates == [] then 0 else (if updates[0].kind == TRADE then updates[0].qty else 0) + TradedQty(updates[1..])
  }

  lemma {:induction false} SideExecutedConcat(a: seq<Response>, b: seq<Response>, side: Side)
    ensures SideExecuted(a + b, side) == SideExecuted(a, side) + SideExecuted(b, side)
  {
    if a == [] {
      assert a + b == b;
    } else {
      assert (a + b)[1..] == a[1..] + b;
      SideExecutedConcat(a[1..], b, side);
    }
  }

  lemma {:induction false} TradedQtyConcat(a: seq<Update>, b: seq<Update>)
    ensures TradedQty(a + b) == TradedQty(a) + TradedQty(b)
  {
    if a == [] {
      assert a + b == b;
    } else {
      assert (a + b)[1..] == a[1..] + b;
      TradedQtyConcat(a[1..], b);
    }
  }

  lemma {:induction false} MatchBalances(t: Taker, s: seq<Resting>, qty: nat)
    requires t.side != NoSide && Wf(Opposite(t.side), s)
    ensures var m := MatchAll(t, s, qty);
            && SideExecuted(m.responses, t.side) == qty - m.leaves && m.leaves <= qty
            && SideExecuted(m.responses, Opposite(t.side)) == qty - m.leaves
            && TradedQty(m.updates) == qty - m.leaves
    decreases |s|
  {
    if qty != 0 && s != [] && Crosses(t.side, t.price, s[0].order.price) {
      var fill := Min(qty, s[0].order.qty);
      var rest := if fill == s[0].order.qty then s[1..] else [Reduced(s[0], fill)] + s[1..];
      var m := MatchAll(t, rest, qty - fill);
      if fill == s[0].order.qty {
        SuffixWf(Opposite(t.side), s, 1);
        MatchBalances(t, rest, qty - fill);
      } else {
        assert m == Matched(rest, 0, [], []);
      }
      HeadBalances(t, s[0], qty, m.responses, m.updates);
    }
  }

  lemma HeadBalances(t: Taker, p: Resting, qty: nat, responses: seq<Response>, updates: seq<Update>)
    requires t.side != NoSide && p.order.side == Opposite(t.side)
    ensures var fill := Min(qty, p.order.qty);
            && SideExecuted(FillResponses(t, p, qty) + responses, t.side) == fill + SideExecuted(responses, t.side)
            && SideExecuted(FillResponses(t, p, qty) + responses, Opposite(t.side))
                 == fill + SideExecuted(responses, Opposite(t.side))
            && TradedQty(FillUpdates(t, p, qty) + updates) == fill + TradedQty(updates)
  {
    var r, u := FillResponses(t, p, qty), FillUpdates(t, p, qty);
    SideExecutedConcat(r, responses, t.side);
    SideExecutedConcat(r, responses, Opposite(t.side));
    TradedQtyConcat(u, updates);
    assert r == [r[0], r[1]] && r[1..] == [r[1]];
    assert u == [u[0], u[1]] && u[1..] == [u[1]];
  }

  lemma StepBalances(b: Book, r: Request, side: Side)
    requires Good(b) && Admissible(b, r) && side != NoSide
    ensures SideExecuted(Process(b, r).responses, side) == TradedQty(Process(b, r).updates)
  {
    match r
    case New(key, d, price, qty) =>
      var t, opp := TakerOf(b, key, d, price), b.On(Opposite(d));
      var m := MatchAll(t, opp, qty);
      MatchBalances(t, opp, qty);
      SideExecutedConcat([Response(ACCEPTED, key, b.ticker, b.nextId, d, price, 0, qty)], m.responses, side);
      if m.leaves > 0 {
        var e := Remainder(b, key, d, price, m.leaves);
        TradedQtyConcat(m.updates, [Update(ADD, e.order.id, b.ticker, d, price, e.order.qty, e.order.priority)]);
      }
    case CancelOrder(key) =>
  }

  /** In every run as much is bought as is sold, and exactly that is published as traded. */
  lemma {:induction false} BoughtEqualsSold(b: Book, rs: seq<Request>)
    requires Good(b) && AllAdmissible(b, rs)
    ensures var s := Run(b, rs);
            SideExecuted(s.responses, Buy) == SideExecuted(s.responses, Sell) == TradedQty(s.updates)
  {
    if rs != [] {
      var init := rs[..|rs| - 1];
      BoughtEqualsSold(b, init);
      RunKeepsGood(b, init);
      var s, r := Run(b, init), rs[|rs| - 1];
      StepBalances(s.book, r, Buy);
      StepBalances(s.book, r, Sell);
      SideExecutedConcat(s.responses, Process(s.book, r).responses, Buy);
      SideExecutedConcat(s.responses, Process(s.book, r).responses, Sell);
      TradedQtyConcat(s.updates, Process(s.book, r).updates);
    }
  }
}
