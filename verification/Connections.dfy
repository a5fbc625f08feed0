/** Which requests of a client the order server accepts, whoever else uses its id on other connections. */
module Connections {
  import opened Framing
  import opened FIFOSequencers
  import opened OrderServers

  /** A request as the server meets it. */
  datatype Arrival<S> = Arrival(socket: S, time: nat, m: OMClientRequest)

  function Tagged<S>(socket: S, time: nat, ms: seq<OMClientRequest>): (r: seq<Arrival<S>>)
    ensures |r| == |ms| && forall i :: 0 <= i < |ms| ==> r[i] == Arrival(socket, time, ms[i])
  {
    seq(|ms|, i requires 0 <= i < |ms| => Arrival(socket, time, ms[i]))
  }

  /** All requests that the chunks complete, in the order in which they are met. */
  function Arrivals<S(==)>(n: nat, decode: Bytes -> OMClientRequest, cs: seq<Chunk<S>>): seq<Arrival<S>>
    requires n > 0
  {
    if cs == [] then []
    else
      var init, c := cs[..|cs| - 1], cs[|cs| - 1];
      Arrivals(n, decode, init) + Tagged(c.socket, c.time, Completed(n, decode, init, c, c.socket))
  }

  /** The requests that came over one connection. */
  function Over<S(==)>(arrivals: seq<Arrival<S>>, socket: S): seq<OMClientRequest> {
    if arrivals == [] then []
    else
      var a := arrivals[|arrivals| - 1];
      Over(arrivals[..|arrivals| - 1], socket) + if a.socket == socket then [a.m] else []
  }

  function Meet<S>(t: Intake<S>, arrivals: seq<Arrival<S>>): Intake<S> {
    if arrivals == [] then t
    else
      var a := arrivals[|arrivals| - 1];
      Take(Meet(t, arrivals[..|arrivals| - 1]), a.socket, a.time, a.m)
  }

  lemma {:induction false} OverConcat<S>(a: seq<Arrival<S>>, b: seq<Arrival<S>>, socket: S)
    ensures Over(a + b, socket) == Over(a, socket) + Over(b, socket)
  {
    if b == [] {
      assert a + b == a;
    } else {
      var last := b[|b| - 1];
      assert (a + b)[|a + b| - 1] == last && (a + b)[..|a + b| - 1] == a + b[..|b| - 1];
      OverConcat(a, b[..|b| - 1], socket);
      var before, own := Over(b[..|b| - 1], socket), if last.socket == socket then [last.m] else [];
      assert (Over(a, socket) + before) + own == Over(a, socket) + (before + own);
    }
  }

  lemma {:induction false} OverTagged<S>(socket: S, time: nat, ms: seq<OMClientRequest>, other: S)
    ensures Over(Tagged(socket, time, ms), other) == if other == socket then ms else []
  {
    if ms != [] {
      var init := ms[..|ms| - 1];
      OverTagged(socket, time, init, other);
      assert Tagged(socket, time, ms)[..|ms| - 1] == Tagged(socket, time, init);
      assert ms == init + [ms[|ms| - 1]];
    }
  }

  lemma MeetNext<S>(t: Intake<S>, before: seq<Arrival<S>>, a: Arrival<S>)
    ensures Meet(t, before + [a]) == Take(Meet(t, before), a.socket, a.time, a.m)
  {
    assert (before + [a])[..|before|] == before;
  }

  lemma TaggedNext<S>(socket: S, time: nat, ms: seq<OMClientRequest>, last: nat)
    requires |ms| == last + 1
    ensures Tagged(socket, time, ms) == Tagged(socket, time, ms[..last]) + [Arrival(socket, time, ms[last])]
  {
  }

  lemma {:induction false} MeetTagged<S>(t: Intake<S>, before: seq<Arrival<S>>, socket: S, time: nat,
      ms: seq<OMClientRequest>)
    ensures Meet(t, before + Tagged(socket, time, ms)) == TakeAll(Meet(t, before), socket, time, ms)
  {
    if ms == [] {
      assert before + Tagged(socket, time, ms) == before;
    } else {
      var last := |ms| - 1;
      var init, a := Tagged(socket, time, ms[..last]), Arrival(socket, time, ms[last]);
      hide Meet, Take, Tagged;
      MeetTagged(t, before, socket, time, ms[..last]);
      TaggedNext(socket, time, ms, last);
      MeetNext(t, before + init, a);
      assert before + (init + [a]) == (before + init) + [a];
    }
  }

  /** The server before it has met anything. */
  function Unmet<S(==)>(): Intake<S> {
    Intake(map[], map[], [])
  }

  /** However the streams are chopped up, the server meets the requests of each connection in their order. */
  lemma {:induction false} ReceivedIsMet<S>(n: nat, decode: Bytes -> OMClientRequest, cs: seq<Chunk<S>>, socket: S)
    requires n > 0
    ensures ReceiveAll(n, decode, cs).intake == Meet(Unmet(), Arrivals(n, decode, cs))
    ensures Over(Arrivals(n, decode, cs), socket) == SentOn(n, decode, cs, socket)
  {
    if cs == [] {
      assert BytesOn(cs, socket) == [];
    } else {
      var init, c := cs[..|cs| - 1], cs[|cs| - 1];
      var before, ms := Arrivals(n, decode, init), Completed(n, decode, init, c, c.socket);
      ReceivedIsMet(n, decode, init, socket);
      ReceiveIs(n, decode, cs);
      SentGrows(n, decode, cs, socket);
      hide Completed, SentOn, ReceiveAll, TakeAll, Meet, Over, Residue;
      MeetTagged(Unmet(), before, c.socket, c.time, ms);
      OverConcat(before, Tagged(c.socket, c.time, ms), socket);
      OverTagged(c.socket, c.time, ms, socket);
      if c.socket != socket {
        NothingCompleted(n, decode, init, c, socket);
      }
    }
  }

  // ----- the connection of a client

  /** The first request of a client. */
  function First<S>(arrivals: seq<Arrival<S>>, client: nat): (k: nat)
    ensures k <= |arrivals|
    ensures forall i :: 0 <= i < k ==> arrivals[i].m.client != client
    ensures k < |arrivals| ==> arrivals[k].m.client == client
  {
    if arrivals == [] then 0
    else
      var k := First(arrivals[..|arrivals| - 1], client);
      if k < |arrivals| - 1 || arrivals[k].m.client == client then k else |arrivals|
  }

  /** The requests of a client that carry the numbers 1, 2, 3, ..., each the first with its number behind the last. */
  function InTurn(ms: seq<OMClientRequest>, client: nat): seq<OMClientRequest> {
    if ms == [] then []
    else
      var before, m := InTurn(ms[..|ms| - 1], client), ms[|ms| - 1];
      if m.client == client && m.seqNum == |before| + 1 then before + [m] else before
  }

  /** The requests accepted of a client are these. */
  ghost predicate Accepts<S>(t: Intake<S>, client: nat, ms: seq<OMClientRequest>) {
    var own := OfClient(t.accepted, client);
    && |own| == |ms| && Expected(t, client) == |ms| + 1
    && forall i :: 0 <= i < |ms| ==> own[i].request == ms[i].request && own[i].seqNum == ms[i].seqNum == i + 1
  }

  /** A client belongs to the connection that carried its first request, and only what comes over it is accepted. */
  ghost predicate Bound<S>(t: Intake<S>, arrivals: seq<Arrival<S>>, client: nat) {
    var k := First(arrivals, client);
    if k == |arrivals| then client !in t.socketOf && Accepts(t, client, [])
    else
      && client in t.socketOf && t.socketOf[client] == arrivals[k].socket
      && Accepts(t, client, InTurn(Over(arrivals, arrivals[k].socket), client))
  }

  lemma {:induction false} NobodyInTurn<S>(arrivals: seq<Arrival<S>>, client: nat, socket: S)
    requires forall i :: 0 <= i < |arrivals| ==> arrivals[i].m.client != client
    ensures InTurn(Over(arrivals, socket), client) == []
  {
    if arrivals != [] {
      var init, a := arrivals[..|arrivals| - 1], arrivals[|arrivals| - 1];
      NobodyInTurn(init, client, socket);
      var before := Over(init, socket);
      assert (before + [a.m])[..|before|] == before;
      assert before + [] == before;
    }
  }

  lemma TakeMine<S>(t: Intake<S>, a: Arrival<S>, ms: seq<OMClientRequest>)
    requires Accepts(t, a.m.client, ms) && (a.m.client in t.socketOf ==> t.socketOf[a.m.client] == a.socket)
    ensures var u := Take(t, a.socket, a.time, a.m);
            && a.m.client in u.socketOf && u.socketOf[a.m.client] == a.socket
            && Accepts(u, a.m.client, if a.m.seqNum == |ms| + 1 then ms + [a.m] else ms)
  {
    OfClientAppend(t.accepted, Received(a.time, a.m.client, a.m.seqNum, a.m.request), a.m.client);
    hide OfClient;
  }

  /** A request on another connection than its client's, or of another client, leaves the client as it was. */
  lemma TakeOther<S>(t: Intake<S>, a: Arrival<S>, client: nat)
    requires a.m.client != client || (client in t.socketOf && t.socketOf[client] != a.socket)
    ensures var u := Take(t, a.socket, a.time, a.m);
            && OfClient(u.accepted, client) == OfClient(t.accepted, client)
            && Expected(u, client) == Expected(t, client)
            && (client in u.socketOf <==> client in t.socketOf)
            && (client in t.socketOf ==> u.socketOf[client] == t.socketOf[client])
  {
    OfClientAppend(t.accepted, Received(a.time, a.m.client, a.m.seqNum, a.m.request), client);
    hide OfClient;
  }

  lemma InTurnNext<S>(arrivals: seq<Arrival<S>>, client: nat, socket: S)
    requires arrivals != []
    ensures var a, before := arrivals[|arrivals| - 1], InTurn(Over(arrivals[..|arrivals| - 1], socket), client);
            InTurn(Over(arrivals, socket), client)
            == if a.socket == socket && a.m.client == client && a.m.seqNum == |before| + 1 then before + [a.m]
               else before
  {
    var a, before := arrivals[|arrivals| - 1], Over(arrivals[..|arrivals| - 1], socket);
    assert (before + [a.m])[..|before|] == before;
    assert before + [] == before;
  }

  lemma FirstNext<S>(arrivals: seq<Arrival<S>>, client: nat)
    requires arrivals != []
    ensures var init, a := arrivals[..|arrivals| - 1], arrivals[|arrivals| - 1];
            First(arrivals, client)
            == if First(init, client) < |init| || a.m.client == client then First(init, client) else |arrivals|
  {
  }

  lemma MetFirst<S>(t: Intake<S>, arrivals: seq<Arrival<S>>, client: nat)
    requires arrivals != [] && Bound(t, arrivals[..|arrivals| - 1], client)
    requires First(arrivals[..|arrivals| - 1], client) == |arrivals| - 1
    ensures var a := arrivals[|arrivals| - 1]; Bound(Take(t, a.socket, a.time, a.m), arrivals, client)
  {
    var init, a := arrivals[..|arrivals| - 1], arrivals[|arrivals| - 1];
    FirstNext(arrivals, client);
    InTurnNext(arrivals, client, a.socket);
    NobodyInTurn(init, client, a.socket);
    hide Take, OfClient, First, InTurn, Over;
    if a.m.client == client {
      TakeMine(t, a, []);
    } else {
      TakeOther(t, a, client);
    }
  }

  lemma MetLater<S>(t: Intake<S>, arrivals: seq<Arrival<S>>, client: nat)
    requires arrivals != [] && Bound(t, arrivals[..|arrivals| - 1], client)
    requires First(arrivals[..|arrivals| - 1], client) < |arrivals| - 1
    ensures var a := arrivals[|arrivals| - 1]; Bound(Take(t, a.socket, a.time, a.m), arrivals, client)
  {
    var init, a := arrivals[..|arrivals| - 1], arrivals[|arrivals| - 1];
    var socket := init[First(init, client)].socket;
    FirstNext(arrivals, client);
    InTurnNext(arrivals, client, socket);
    hide Take, OfClient, First, InTurn, Over, Accepts, Expected;
    StillBound(t, a, client, socket, InTurn(Over(init, socket), client));
  }

  lemma StillBound<S>(t: Intake<S>, a: Arrival<S>, client: nat, socket: S, ms: seq<OMClientRequest>)
    requires client in t.socketOf && t.socketOf[client] == socket && Accepts(t, client, ms)
    ensures var u := Take(t, a.socket, a.time, a.m);
            var next := a.socket == socket && a.m.client == client && a.m.seqNum == |ms| + 1;
            && client in u.socketOf && u.socketOf[client] == socket
            && Accepts(u, client, if next then ms + [a.m] else ms)
  {
    hide Take, OfClient, Expected;
    if a.m.client == client && a.socket == socket {
      TakeMine(t, a, ms);
    } else {
      TakeOther(t, a, client);
    }
  }

  /**
   * Whatever arrives on whatever connection: a client is bound to the connection that carried its first request, and
   * accepted of it are exactly the requests numbered in turn among those that came over this connection.
   */
  lemma {:induction false} MetIsBound<S>(arrivals: seq<Arrival<S>>, client: nat)
    ensures Bound(Meet(Unmet(), arrivals), arrivals, client)
  {
    if arrivals != [] {
      var init := arrivals[..|arrivals| - 1];
      MetIsBound(init, client);
      hide Bound, Take;
      if First(init, client) == |init| {
        MetFirst(Meet(Unmet(), init), arrivals, client);
      } else {
        MetLater(Meet(Unmet(), init), arrivals, client);
      }
    }
  }

  /**
   * For every chopping and interleaving of the streams, and whoever else uses the id of a client: if it has sent
   * anything at all, there is one connection, the one that carried its first request, such that accepted of the client
   * are exactly the requests numbered in turn in the stream of this connection.
   */
  lemma ClientIsBound<S>(n: nat, decode: Bytes -> OMClientRequest, cs: seq<Chunk<S>>, client: nat)
    requires n > 0
    ensures var t, arrivals := ReceiveAll(n, decode, cs).intake, Arrivals(n, decode, cs);
            var k := First(arrivals, client);
            && (k == |arrivals| ==> client !in t.socketOf && OfClient(t.accepted, client) == [])
            && (k < |arrivals| ==>
                  && client in t.socketOf && t.socketOf[client] == arrivals[k].socket
                  && Accepts(t, client, InTurn(SentOn(n, decode, cs, arrivals[k].socket), client)))
  {
    var t, arrivals := ReceiveAll(n, decode, cs).intake, Arrivals(n, decode, cs);
    var k := First(arrivals, client);
    MetIsBound(arrivals, client);
    hide ReceiveAll, Arrivals, Meet, First, InTurn, SentOn, OfClient;
    if k < |arrivals| {
      ReceivedIsMet(n, decode, cs, arrivals[k].socket);
    } else {
      MetAll(n, decode, cs);
    }
  }

  lemma {:induction false} MetAll<S>(n: nat, decode: Bytes -> OMClientRequest, cs: seq<Chunk<S>>)
    requires n > 0
    ensures ReceiveAll(n, decode, cs).intake == Meet(Unmet(), Arrivals(n, decode, cs))
  {
    if cs != [] {
      ReceivedIsMet(n, decode, cs, cs[0].socket);
    }
  }

  /** The indices of a client's requests that are numbered 1, 2, 3, ..., none passed over. */
  ghost predicate InTurnAt(ms: seq<OMClientRequest>, client: nat, ix: seq<nat>) {
    InSteps(ms, client, ix) && NonePassed(ms, client, ix)
  }

  ghost predicate InSteps(ms: seq<OMClientRequest>, client: nat, ix: seq<nat>) {
    && (forall i, j :: 0 <= i < j < |ix| ==> ix[i] < ix[j])
    && (forall i :: 0 <= i < |ix| ==> ix[i] < |ms| && ms[ix[i]].client == client && ms[ix[i]].seqNum == i + 1)
  }

  ghost predicate NonePassed(ms: seq<OMClientRequest>, client: nat, ix: seq<nat>) {
    forall i: nat, j: nat {:trigger Passed(ms, ix, i, j)} :: i <= |ix| && j < |ms| && Passed(ms, ix, i, j) ==>
      ms[j].client != client || ms[j].seqNum != i + 1
  }

  /** Request j comes after the first i indices and before the others. */
  ghost predicate Passed(ms: seq<OMClientRequest>, ix: seq<nat>, i: nat, j: nat)
    requires i <= |ix|
  {
    (i == 0 || ix[i - 1] < j) && (i == |ix| || j < ix[i])
  }

  /** The requests at the given indices. */
  ghost predicate Picks(ms: seq<OMClientRequest>, ix: seq<nat>, own: seq<OMClientRequest>) {
    |ix| == |own| && forall i :: 0 <= i < |ix| ==> ix[i] < |ms| && own[i] == ms[ix[i]]
  }

  lemma InTurnStep(ms: seq<OMClientRequest>, client: nat, last: nat, expected: nat)
    requires |ms| == last + 1 && expected == |InTurn(ms[..last], client)| + 1
    ensures InTurn(ms, client)
         == if ms[last].client == client && ms[last].seqNum == expected then InTurn(ms[..last], client) + [ms[last]]
            else InTurn(ms[..last], client)
  {
  }

  lemma PicksGrow(ms: seq<OMClientRequest>, ix: seq<nat>, last: nat, own: seq<OMClientRequest>)
    requires |ms| == last + 1 && Picks(ms[..last], ix, own)
    ensures Picks(ms, ix, own) && Picks(ms, ix + [last], own + [ms[last]])
  {
  }

  /** What is taken in turn: requests of the client in their order, numbered without a gap, and none is passed over. */
  lemma {:induction false} InTurnIs(ms: seq<OMClientRequest>, client: nat) returns (ix: seq<nat>)
    ensures InTurnAt(ms, client, ix) && Picks(ms, ix, InTurn(ms, client))
  {
    ix := [];
    if ms != [] {
      var last := |ms| - 1;
      var before := InTurnIs(ms[..last], client);
      var own := InTurn(ms[..last], client);
      var expected := |own| + 1;
      assert |before| == |own|;
      InTurnStep(ms, client, last, expected);
      hide Picks, InTurnAt, InTurn;
      InTurnGrows(ms, client, before, last, expected);
      PicksGrow(ms, before, last, own);
      ix := if ms[last].client == client && ms[last].seqNum == expected then before + [last] else before;
    }
  }

  lemma InTurnGrows(ms: seq<OMClientRequest>, client: nat, before: seq<nat>, last: nat, expected: nat)
    requires |ms| == last + 1 && expected == |before| + 1 && InTurnAt(ms[..last], client, before)
    ensures var taken := ms[last].client == client && ms[last].seqNum == expected;
            InTurnAt(ms, client, if taken then before + [last] else before)
  {
    hide InSteps, NonePassed;
    if ms[last].client == client && ms[last].seqNum == expected {
      NumberedGrows(ms, client, before, last);
      PassedTaken(ms, client, before, last);
    } else {
      PassedOver(ms, client, before, last);
    }
  }

  lemma NumberedGrows(ms: seq<OMClientRequest>, client: nat, before: seq<nat>, last: nat)
    requires |ms| == last + 1 && InSteps(ms[..last], client, before)
    requires ms[last].client == client && ms[last].seqNum == |before| + 1
    ensures InSteps(ms, client, before + [last])
  {
  }

  lemma PassedTaken(ms: seq<OMClientRequest>, client: nat, before: seq<nat>, last: nat)
    requires |ms| == last + 1 && InSteps(ms[..last], client, before) && NonePassed(ms[..last], client, before)
    ensures NonePassed(ms, client, before + [last])
  {
    var ix := before + [last];
    forall i: nat, j: nat | i <= |ix| && j < |ms| && Passed(ms, ix, i, j)
      ensures ms[j].client != client || ms[j].seqNum != i + 1
    {
      assert i <= |before| && j < last && Passed(ms[..last], before, i, j);
      assert ms[..last][j] == ms[j];
    }
  }

  lemma PassedOver(ms: seq<OMClientRequest>, client: nat, before: seq<nat>, last: nat)
    requires |ms| == last + 1 && InSteps(ms[..last], client, before) && NonePassed(ms[..last], client, before)
    requires ms[last].client != client || ms[last].seqNum != |before| + 1
    ensures InSteps(ms, client, before) && NonePassed(ms, client, before)
  {
    forall i: nat, j: nat | i <= |before| && j < |ms| && Passed(ms, before, i, j)
      ensures ms[j].client != client || ms[j].seqNum != i + 1
    {
      if j < last {
        assert Passed(ms[..last], before, i, j);
        assert ms[..last][j] == ms[j];
      }
    }
  }

  /** If all the client's requests in a stream are numbered without a gap, all of them are in turn. */
  lemma {:induction false} AllInTurn(ms: seq<OMClientRequest>, client: nat)
    requires InSequence(ms, client, 1)
    ensures InTurn(ms, client) == ms
  {
    if ms != [] {
      var init := ms[..|ms| - 1];
      AllInTurn(init, client);
      assert ms == init + [ms[|ms| - 1]];
    }
  }

  /** A chunk on another connection leaves what is accepted of a bound client, its number and its connection alone. */
  lemma {:induction false} OtherConnection<S>(t: Intake<S>, socket: S, time: nat, ms: seq<OMClientRequest>, client: nat)
    requires client in t.socketOf && t.socketOf[client] != socket
    ensures var u := TakeAll(t, socket, time, ms);
            && OfClient(u.accepted, client) == OfClient(t.accepted, client)
            && Expected(u, client) == Expected(t, client)
            && client in u.socketOf && u.socketOf[client] == t.socketOf[client]
  {
    if ms != [] {
      OtherConnection(t, socket, time, ms[..|ms| - 1], client);
      hide Take, OfClient;
      TakeOther(TakeAll(t, socket, time, ms[..|ms| - 1]), Arrival(socket, time, ms[|ms| - 1]), client);
    }
  }

  /** Whatever is accepted is what arrived, with the time at which it did. */
  lemma {:induction false} AcceptedArrived<S>(arrivals: seq<Arrival<S>>, r: Received)
    requires r in Meet(Unmet<S>(), arrivals).accepted
    ensures exists a :: a in arrivals && r == Received(a.time, a.m.client, a.m.seqNum, a.m.request)
  {
    var init, a := arrivals[..|arrivals| - 1], arrivals[|arrivals| - 1];
    if r in Meet(Unmet<S>(), init).accepted {
      AcceptedArrived(init, r);
    }
  }
}
