/** The books of all tickers: the exchange's, and what a participant who replays the stream holds. */
module Markets {
  import opened Types
  import opened Matching
  import opened BookRuns
  import opened Replication

  type Market = seq<Pub>

  function Play(m: Market, u: Update): (r: Market)
    ensures |r| == |m|
  {
    if u.ticker < |m| then m[u.ticker := Apply(m[u.ticker], u)] else m
  }

  function PlayAll(m: Market, us: seq<Update>): (r: Market)
    ensures |r| == |m|
    decreases |us|
  {
    if us == [] then m else PlayAll(Play(m, us[0]), us[1..])
  }

  ghost predicate FitsMarket(m: Market, u: Update) {
    u.ticker < |m| && Fits(m[u.ticker], u)
  }

  /** A stream that a market starting at m may publish. */
  ghost predicate Stream(m: Market, us: seq<Update>)
    decreases |us|
  {
    us == [] || (FitsMarket(m, us[0]) && Stream(Play(m, us[0]), us[1..]))
  }

  ghost predicate GoodMarket(m: Market) {
    forall t :: 0 <= t < |m| ==> GoodPub(m[t])
  }

  function Opening(tickers: nat): (m: Market)
    ensures |m| == tickers && forall t :: 0 <= t < tickers ==> m[t] == Pub([], [], 1)
  {
    seq(tickers, t => Pub([], [], 1))
  }

  lemma {:induction false} PlayConcat(m: Market, a: seq<Update>, b: seq<Update>)
    ensures PlayAll(m, a + b) == PlayAll(PlayAll(m, a), b)
    ensures Stream(m, a + b) <==> Stream(m, a) && Stream(PlayAll(m, a), b)
    decreases |a|
  {
    if a == [] {
      assert a + b == b;
    } else {
      assert (a + b)[1..] == a[1..] + b;
      PlayConcat(Play(m, a[0]), a[1..], b);
    }
  }

  lemma PlayOne(m: Market, u: Update)
    ensures PlayAll(m, [u]) == Play(m, u)
    ensures Stream(m, [u]) <==> FitsMarket(m, u)
  {
    assert [u][1..] == [];
    assert PlayAll(Play(m, u), []) == Play(m, u);
  }

  lemma StreamPrefix(m: Market, us: seq<Update>, n: nat)
    requires Stream(m, us) && n < |us|
    ensures Stream(m, us[..n]) && Stream(m, us[..n + 1])
    ensures FitsMarket(PlayAll(m, us[..n]), us[n])
    ensures PlayAll(m, us[..n + 1]) == Play(PlayAll(m, us[..n]), us[n])
  {
    assert us == us[..n + 1] + us[n + 1..];
    PlayConcat(m, us[..n + 1], us[n + 1..]);
    assert us[..n + 1] == us[..n] + [us[n]];
    PlayConcat(m, us[..n], [us[n]]);
    PlayOne(PlayAll(m, us[..n]), us[n]);
  }

  /** Updates of one ticker play on its book alone. */
  lemma {:induction false} PlayTicker(m: Market, t: nat, us: seq<Update>)
    requires t < |m| && forall i :: 0 <= i < |us| ==> us[i].ticker == t
    ensures PlayAll(m, us) == m[t := ApplyAll(m[t], us)]
    ensures Stream(m, us) <==> FitsAll(m[t], us)
    decreases |us|
  {
    if us == [] {
      assert m[t := m[t]] == m;
    } else {
      PlayTicker(Play(m, us[0]), t, us[1..]);
    }
  }

  // ----- the whole exchange

  type Venue = seq<Book>

  ghost predicate GoodVenue(v: Venue) {
    forall t :: 0 <= t < |v| ==> Good(v[t]) && v[t].ticker == t
  }

  /** One request routed to the book of its ticker: the new books and the published updates. */
  function Route(v: Venue, t: nat, r: Request): (Venue, seq<Update>)
    requires t < |v|
  {
    var s := Process(v[t], r);
    (v[t := s.book], s.updates)
  }

  ghost predicate AdmissibleAt(v: Venue, t: nat, r: Request) {
    t < |v| && Admissible(v[t], r)
  }

  function RunVenue(v: Venue, rs: seq<(nat, Request)>): (Venue, seq<Update>)
    requires forall i :: 0 <= i < |rs| ==> rs[i].0 < |v|
    ensures |RunVenue(v, rs).0| == |v|
  {
    if rs == [] then (v, [])
    else
      var before := RunVenue(v, rs[..|rs| - 1]);
      var last := Route(before.0, rs[|rs| - 1].0, rs[|rs| - 1].1);
      (last.0, before.1 + last.1)
  }

  ghost predicate VenueAdmits(v: Venue, rs: seq<(nat, Request)>) {
    && (forall i :: 0 <= i < |rs| ==> rs[i].0 < |v|)
    && (rs == [] || (VenueAdmits(v, rs[..|rs| - 1])
                     && AdmissibleAt(RunVenue(v, rs[..|rs| - 1]).0, rs[|rs| - 1].0, rs[|rs| - 1].1)))
  }

  ghost predicate MirrorsVenue(m: Market, v: Venue) {
    |m| == |v| && forall t :: 0 <= t < |v| ==> Mirrors(m[t], v[t])
  }

  lemma {:induction false} MatchTickers(t: Taker, s: seq<Resting>, qty: nat)
    ensures forall i :: 0 <= i < |MatchAll(t, s, qty).updates| ==> MatchAll(t, s, qty).updates[i].ticker == t.ticker
    decreases qty, |s|
  {
    if qty != 0 && s != [] && Crosses(t.side, t.price, s[0].order.price) {
      var fill := Min(qty, s[0].order.qty);
      var rest := if fill == s[0].order.qty then s[1..] else [Reduced(s[0], fill)] + s[1..];
      MatchTickers(t, rest, qty - fill);
    }
  }

  lemma ProcessTickers(b: Book, r: Request)
    ensures Process(b, r).book.ticker == b.ticker
    ensures forall i :: 0 <= i < |Process(b, r).updates| ==> Process(b, r).updates[i].ticker == b.ticker
  {
    match r
    case New(key, side, price, qty) =>
      MatchTickers(TakerOf(b, key, side, price), b.On(Opposite(side)), qty);
    case CancelOrder(key) =>
  }

  /**
   * After every completed request the stream published so far, replayed from empty books, shows exactly the
   * resting orders of every book, with their levels, queues, quantities and priorities.
   */
  lemma {:induction false} StreamReproducesVenue(v: Venue, rs: seq<(nat, Request)>, m: Market)
    requires GoodVenue(v) && MirrorsVenue(m, v) && VenueAdmits(v, rs)
    ensures var (w, us) := RunVenue(v, rs);
            GoodVenue(w) && Stream(m, us) && MirrorsVenue(PlayAll(m, us), w)
  {
    hide Process, Good, Mirrors, Admissible;
    if rs != [] {
      var init, t, r := rs[..|rs| - 1], rs[|rs| - 1].0, rs[|rs| - 1].1;
      StreamReproducesVenue(v, init, m);
      var (w, us) := RunVenue(v, init);
      var m' := PlayAll(m, us);
      ProcessKeepsGood(w[t], r);
      ProcessTickers(w[t], r);
      ProcessMirrored(w[t], r, m'[t]);
      PlayTicker(m', t, Process(w[t], r).updates);
      PlayConcat(m, us, Process(w[t], r).updates);
    }
  }

  // ----- one ticker of it

  function RequestsFor(rs: seq<(nat, Request)>, t: nat): seq<Request> {
    if rs == [] then []
    else RequestsFor(rs[..|rs| - 1], t) + if rs[|rs| - 1].0 == t then [rs[|rs| - 1].1] else []
  }

  function UpdatesFor(us: seq<Update>, t: nat): seq<Update> {
    if us == [] then [] else (if us[0].ticker == t then [us[0]] else []) + UpdatesFor(us[1..], t)
  }

  lemma {:induction false} UpdatesForConcat(a: seq<Update>, b: seq<Update>, t: nat)
    ensures UpdatesFor(a + b, t) == UpdatesFor(a, t) + UpdatesFor(b, t)
  {
    if a == [] {
      assert a + b == b;
    } else {
      var first := if a[0].ticker == t then [a[0]] else [];
      assert (a + b)[0] == a[0] && (a + b)[1..] == a[1..] + b;
      UpdatesForConcat(a[1..], b, t);
      assert first + (UpdatesFor(a[1..], t) + UpdatesFor(b, t)) == (first + UpdatesFor(a[1..], t)) + UpdatesFor(b, t);
    }
  }

  lemma {:induction false} OneTicker(us: seq<Update>, of: nat, t: nat)
    requires forall i :: 0 <= i < |us| ==> us[i].ticker == of
    ensures UpdatesFor(us, t) == if of == t then us else []
  {
    if us != [] {
      OneTicker(us[1..], of, t);
    }
  }

  /** Every request goes to the book of its ticker only: each book and its updates are those of its own requests. */
  lemma {:induction false} VenueIsRuns(v: Venue, rs: seq<(nat, Request)>, t: nat)
    requires (forall i :: 0 <= i < |rs| ==> rs[i].0 < |v|) && t < |v|
    requires forall i :: 0 <= i < |v| ==> v[i].ticker == i
    ensures var (w, us) := RunVenue(v, rs);
            && (forall i :: 0 <= i < |w| ==> w[i].ticker == i)
            && w[t] == Run(v[t], RequestsFor(rs, t)).book
            && UpdatesFor(us, t) == Run(v[t], RequestsFor(rs, t)).updates
  {
    hide Process;
    if rs != [] {
      var init, k, r := rs[..|rs| - 1], rs[|rs| - 1].0, rs[|rs| - 1].1;
      VenueIsRuns(v, init, t);
      var (w, us) := RunVenue(v, init);
      var own := RequestsFor(init, t);
      ProcessTickers(w[k], r);
      OneTicker(Process(w[k], r).updates, k, t);
      UpdatesForConcat(us, Process(w[k], r).updates, t);
      assert (own + [r])[..|own|] == own && own + [] == own;
      assert UpdatesFor(us, t) + [] == UpdatesFor(us, t);
    }
  }
}
