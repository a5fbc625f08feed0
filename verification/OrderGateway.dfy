/** The client's order gateway, the numbering of responses at the exchange, and what both together guarantee. */
module OrderGateways {
  import opened Framing
  import opened OrderServers

  /** A response as it travels. */
  datatype OMClientResponse = OMClientResponse(seqNum: nat, client: nat, response: Bytes)

  // ----- the exchange numbers the responses of each client

  datatype Outgoing = Outgoing(next: map<nat, nat>, sent: seq<OMClientResponse>)

  function NextTo(o: Outgoing, client: nat): nat {
    if client in o.next then o.next[client] else 1
  }

  function Stamp(o: Outgoing, client: nat, response: Bytes): Outgoing {
    Outgoing(o.next[client := NextTo(o, client) + 1], o.sent + [OMClientResponse(NextTo(o, client), client, response)])
  }

  function StampAll(o: Outgoing, rs: seq<(nat, Bytes)>): Outgoing {
    if rs == [] then o else Stamp(StampAll(o, rs[..|rs| - 1]), rs[|rs| - 1].0, rs[|rs| - 1].1)
  }

  function SentTo(sent: seq<OMClientResponse>, client: nat): seq<OMClientResponse> {
    if sent == [] then []
    else SentTo(sent[..|sent| - 1], client) + if sent[|sent| - 1].client == client then [sent[|sent| - 1]] else []
  }

  function ResponsesTo(rs: seq<(nat, Bytes)>, client: nat): seq<Bytes> {
    if rs == [] then []
    else ResponsesTo(rs[..|rs| - 1], client) + if rs[|rs| - 1].0 == client then [rs[|rs| - 1].1] else []
  }

  /** Messages of one client that carry the given responses, numbered from 1. */
  ghost predicate Carry(ms: seq<OMClientResponse>, client: nat, responses: seq<Bytes>) {
    |ms| == |responses| && forall i :: 0 <= i < |ms| ==> ms[i] == OMClientResponse(i + 1, client, responses[i])
  }

  /** Every client is sent exactly its own responses, in order and numbered 1, 2, 3, ... */
  lemma {:induction false} EveryClientNumbered(rs: seq<(nat, Bytes)>, client: nat)
    ensures var o := StampAll(Outgoing(map[], []), rs);
            Carry(SentTo(o.sent, client), client, ResponsesTo(rs, client))
                && NextTo(o, client) == |ResponsesTo(rs, client)| + 1
  {
    if rs != [] {
      EveryClientNumbered(rs[..|rs| - 1], client);
      var o := StampAll(Outgoing(map[], []), rs[..|rs| - 1]);
      var m := OMClientResponse(NextTo(o, rs[|rs| - 1].0), rs[|rs| - 1].0, rs[|rs| - 1].1);
      assert (o.sent + [m])[..|o.sent|] == o.sent;
    }
  }

  // ----- the gateway takes them

  datatype Inbox = Inbox(expected: nat, delivered: seq<Bytes>)

  function Admit(g: Inbox, me: nat, m: OMClientResponse): Inbox {
    if m.client != me || m.seqNum != g.expected then g else Inbox(g.expected + 1, g.delivered + [m.response])
  }

  function AdmitAll(g: Inbox, me: nat, ms: seq<OMClientResponse>): Inbox {
    if ms == [] then g else Admit(AdmitAll(g, me, ms[..|ms| - 1]), me, ms[|ms| - 1])
  }

  /** Nothing that was stamped for the client is dropped, added or reordered. */
  lemma {:induction false} AllAdmitted(me: nat, ms: seq<OMClientResponse>, responses: seq<Bytes>)
    requires Carry(ms, me, responses)
    ensures AdmitAll(Inbox(1, []), me, ms) == Inbox(|responses| + 1, responses)
  {
    if ms != [] {
      AllAdmitted(me, ms[..|ms| - 1], responses[..|ms| - 1]);
      assert responses == responses[..|ms| - 1] + [responses[|ms| - 1]];
    } else {
      assert responses == [];
    }
  }

  /** The indices of messages to me that are numbered 1, 2, 3, ..., none passed over. */
  ghost predicate InTurnAt(me: nat, ms: seq<OMClientResponse>, ix: seq<nat>) {
    InSteps(me, ms, ix) && NonePassed(me, ms, ix)
  }

  ghost predicate InSteps(me: nat, ms: seq<OMClientResponse>, ix: seq<nat>) {
    && (forall i, j :: 0 <= i < j < |ix| ==> ix[i] < ix[j])
    && (forall i :: 0 <= i < |ix| ==> ix[i] < |ms| && ms[ix[i]].client == me && ms[ix[i]].seqNum == i + 1)
  }

  ghost predicate NonePassed(me: nat, ms: seq<OMClientResponse>, ix: seq<nat>) {
    forall i: nat, j: nat {:trigger Passed(ms, ix, i, j)} :: i <= |ix| && j < |ms| && Passed(ms, ix, i, j) ==>
      ms[j].client != me || ms[j].seqNum != i + 1
  }

  /** Message j comes after the first i indices and before the others. */
  ghost predicate Passed(ms: seq<OMClientResponse>, ix: seq<nat>, i: nat, j: nat)
    requires i <= |ix|
  {
    (i == 0 || ix[i - 1] < j) && (i == |ix| || j < ix[i])
  }

  /** The responses in the messages at the given indices. */
  ghost predicate Picks(ms: seq<OMClientResponse>, ix: seq<nat>, delivered: seq<Bytes>) {
    |ix| == |delivered| && forall i :: 0 <= i < |ix| ==> ix[i] < |ms| && delivered[i] == ms[ix[i]].response
  }

  lemma PicksGrow(ms: seq<OMClientResponse>, ix: seq<nat>, last: nat, delivered: seq<Bytes>)
    requires |ms| == last + 1 && Picks(ms[..last], ix, delivered)
    ensures Picks(ms, ix, delivered) && Picks(ms, ix + [last], delivered + [ms[last].response])
  {
  }

  /**
   * Whatever messages arrive, of whatever clients and numbers: what is delivered are responses to this client numbered
   * 1, 2, 3, ... without a gap, in the order of their arrival, and none that is next in turn is passed over.
   */
  lemma {:induction false} DeliveredInTurn(me: nat, ms: seq<OMClientResponse>) returns (ix: seq<nat>)
    ensures var g := AdmitAll(Inbox(1, []), me, ms);
            InTurnAt(me, ms, ix) && Picks(ms, ix, g.delivered) && g.expected == |ix| + 1
  {
    ix := [];
    if ms != [] {
      var init, m := ms[..|ms| - 1], ms[|ms| - 1];
      var before := DeliveredInTurn(me, init);
      var g := AdmitAll(Inbox(1, []), me, init);
      assert AdmitAll(Inbox(1, []), me, ms) == Admit(g, me, m);
      hide Picks, InTurnAt, AdmitAll;
      var last := |ms| - 1;
      InTurnGrows(me, ms, before, last, g.expected);
      PicksGrow(ms, before, last, g.delivered);
      ix := if m.client == me && m.seqNum == g.expected then before + [last] else before;
    }
  }

  lemma InTurnGrows(me: nat, ms: seq<OMClientResponse>, before: seq<nat>, last: nat, expected: nat)
    requires |ms| == last + 1 && expected == |before| + 1 && InTurnAt(me, ms[..last], before)
    ensures var taken := ms[last].client == me && ms[last].seqNum == expected;
            InTurnAt(me, ms, if taken then before + [last] else before)
  {
    hide InSteps, NonePassed;
    if ms[last].client == me && ms[last].seqNum == expected {
      NumberedGrows(me, ms, before, last);
      PassedTaken(me, ms, before, last);
    } else {
      PassedOver(me, ms, before, last);
    }
  }

  lemma NumberedGrows(me: nat, ms: seq<OMClientResponse>, before: seq<nat>, last: nat)
    requires |ms| == last + 1 && InSteps(me, ms[..last], before)
    requires ms[last].client == me && ms[last].seqNum == |before| + 1
    ensures InSteps(me, ms, before + [last])
  {
  }

  lemma PassedTaken(me: nat, ms: seq<OMClientResponse>, before: seq<nat>, last: nat)
    requires |ms| == last + 1 && InSteps(me, ms[..last], before) && NonePassed(me, ms[..last], before)
    ensures NonePassed(me, ms, before + [last])
  {
    var ix := before + [last];
    forall i: nat, j: nat | i <= |ix| && j < |ms| && Passed(ms, ix, i, j)
      ensures ms[j].client != me || ms[j].seqNum != i + 1
    {
      assert i <= |before| && j < last && Passed(ms[..last], before, i, j);
      assert ms[..last][j] == ms[j];
    }
  }

  lemma PassedOver(me: nat, ms: seq<OMClientResponse>, before: seq<nat>, last: nat)
    requires |ms| == last + 1 && InSteps(me, ms[..last], before) && NonePassed(me, ms[..last], before)
    requires ms[last].client != me || ms[last].seqNum != |before| + 1
    ensures InSteps(me, ms, before) && NonePassed(me, ms, before)
  {
    forall i: nat, j: nat | i <= |before| && j < |ms| && Passed(ms, before, i, j)
      ensures ms[j].client != me || ms[j].seqNum != i + 1
    {
      if j < last {
        assert Passed(ms[..last], before, i, j);
        assert ms[..last][j] == ms[j];
      }
    }
  }

  /** The gateway's buffer and inbox after the chunks of a sequence of callbacks. */
  function Taken(n: nat, decode: Bytes -> OMClientResponse, me: nat, chunks: seq<Bytes>): (Bytes, Inbox)
    requires n > 0
  {
    if chunks == [] then ([], Inbox(1, []))
    else
      var (buffer, g) := Taken(n, decode, me, chunks[..|chunks| - 1]);
      var b := buffer + chunks[|chunks| - 1];
      (Residue(n, b), AdmitAll(g, me, DecodedResponses(decode, Frames(n, b))))
  }

  lemma {:induction false} AdmitConcat(g: Inbox, me: nat, a: seq<OMClientResponse>, b: seq<OMClientResponse>)
    ensures AdmitAll(g, me, a + b) == AdmitAll(AdmitAll(g, me, a), me, b)
  {
    if b == [] {
      assert a + b == a;
    } else {
      assert (a + b)[..|a + b| - 1] == a + b[..|b| - 1];
      AdmitConcat(g, me, a, b[..|b| - 1]);
    }
  }

  /** However the stream of responses is split into chunks, the gateway takes the frames of the whole stream. */
  lemma {:induction false} TakenIsWhole(n: nat, decode: Bytes -> OMClientResponse, me: nat, chunks: seq<Bytes>)
    requires n > 0
    ensures Taken(n, decode, me, chunks)
         == (Residue(n, Flatten(chunks)), AdmitAll(Inbox(1, []), me,
             DecodedResponses(decode, Frames(n, Flatten(chunks)))))
  {
    if chunks != [] {
      var init, c := chunks[..|chunks| - 1], chunks[|chunks| - 1];
      TakenIsWhole(n, decode, me, init);
      assert chunks == init + [c];
      FlattenAppend(init, c);
      FramesConcat(n, Flatten(init), c);
      var first, more := Frames(n, Flatten(init)), Frames(n, Residue(n, Flatten(init)) + c);
      hide Frames, Residue, Flatten, AdmitAll;
      assert DecodedResponses(decode, first + more) == DecodedResponses(decode, first) + DecodedResponses(decode, more);
      AdmitConcat(Inbox(1, []), me, DecodedResponses(decode, first), DecodedResponses(decode, more));
    }
  }

  /** The frames of some responses on their way to a client. */
  function Encoded(encode: OMClientResponse -> Bytes, ms: seq<OMClientResponse>): (frames: seq<Bytes>)
    ensures |frames| == |ms| && forall i :: 0 <= i < |ms| ==> frames[i] == encode(ms[i])
  {
    seq(|ms|, i requires 0 <= i < |ms| => encode(ms[i]))
  }

  /**
   * From the exchange's queue of responses to the client's, through any chunking of the byte stream between them: as
   * far as it arrived, the client receives its own responses, all of them and in order.
   */
  lemma ResponsesArrive(n: nat, encode: OMClientResponse -> Bytes, decode: Bytes -> OMClientResponse,
                        rs: seq<(nat, Bytes)>, me: nat, chunks: seq<Bytes>)
    requires n > 0 && forall m :: |encode(m)| == n && decode(encode(m)) == m
    requires Flatten(chunks) <= Flatten(Encoded(encode, SentTo(StampAll(Outgoing(map[], []), rs).sent, me)))
    ensures var delivered := Taken(n, decode, me, chunks).1.delivered;
            && delivered <= ResponsesTo(rs, me)
            && (Flatten(chunks) == Flatten(Encoded(encode, SentTo(StampAll(Outgoing(map[], []), rs).sent, me))) ==>
                  delivered == ResponsesTo(rs, me))
  {
    var sent, responses := SentTo(StampAll(Outgoing(map[], []), rs).sent, me), ResponsesTo(rs, me);
    EveryClientNumbered(rs, me);
    TakenIsWhole(n, decode, me, chunks);
    FramesOfPrefix(n, Encoded(encode, sent), Flatten(chunks));
    var cut := Frames(n, Flatten(chunks));
    hide Frames, Residue, Flatten, StampAll, SentTo, ResponsesTo, AdmitAll, Carry, Encoded, DecodedResponses;
    CutCarries(encode, decode, sent, me, responses, cut);
    AllAdmitted(me, DecodedResponses(decode, cut), responses[..|cut|]);
  }

  lemma CutCarries(encode: OMClientResponse -> Bytes, decode: Bytes -> OMClientResponse, sent: seq<OMClientResponse>,
                   me: nat, responses: seq<Bytes>, cut: seq<Bytes>)
    requires Carry(sent, me, responses) && cut <= Encoded(encode, sent) && forall m :: decode(encode(m)) == m
    ensures |cut| <= |responses| && Carry(DecodedResponses(decode, cut), me, responses[..|cut|])
    ensures cut == Encoded(encode, sent) ==> responses[..|cut|] == responses
  {
    var ms, frames := DecodedResponses(decode, cut), Encoded(encode, sent);
    forall i | 0 <= i < |ms|
      ensures ms[i] == sent[i]
    {
      assert cut[i] == frames[i];
    }
  }

  // ----- requests on their way to the exchange

  ghost predicate Codec(n: nat, encode: OMClientRequest -> Bytes, decode: Bytes -> OMClientRequest) {
    n > 0 && forall m :: |encode(m)| == n && decode(encode(m)) == m
  }

  /** The frames of requests numbered from first on. */
  function Outbound(encode: OMClientRequest -> Bytes, client: nat, first: nat, requests: seq<Bytes>):
    (frames: seq<Bytes>)
    ensures |frames| == |requests|
    ensures forall i :: 0 <= i < |requests| ==> frames[i] == encode(OMClientRequest(first + i, client, requests[i]))
  {
    seq(|requests|, i requires 0 <= i < |requests| => encode(OMClientRequest(first + i, client, requests[i])))
  }

  /** What a gateway has sent, as far as it has arrived, decodes to its requests with the numbers 1, 2, 3, ... */
  lemma ArrivedIsSent<S(!new)>(n: nat, encode: OMClientRequest -> Bytes, decode: Bytes -> OMClientRequest,
                         cs: seq<Chunk<S>>, socket: S, client: nat, requests: seq<Bytes>)
    requires Codec(n, encode, decode) && BytesOn(cs, socket) <= Flatten(Outbound(encode, client, 1, requests))
    ensures var own := SentOn(n, decode, cs, socket);
            && |own| <= |requests| && InSequence(own, client, 1)
              && (forall i :: 0 <= i < |own| ==> own[i].request == requests[i])
            && (BytesOn(cs, socket) == Flatten(Outbound(encode, client, 1, requests)) ==> |own| == |requests|)
  {
    var frames := Outbound(encode, client, 1, requests);
    FramesOfPrefix(n, frames, BytesOn(cs, socket));
    var cut := Frames(n, BytesOn(cs, socket));
    assert forall i :: 0 <= i < |cut| ==> cut[i] == frames[i];
  }

  /**
   * From the client's queue of requests to the sequencer: whatever the chunking and whatever other connections carry,
   * the exchange accepts exactly the client's requests in the order in which they were sent, as far as they arrived.
   */
  lemma RequestsArrive<S(!new)>(n: nat, encode: OMClientRequest -> Bytes, decode: Bytes -> OMClientRequest,
                          cs: seq<Chunk<S>>, socket: S, client: nat, requests: seq<Bytes>)
    requires Codec(n, encode, decode) && BytesOn(cs, socket) <= Flatten(Outbound(encode, client, 1, requests))
    requires forall other :: other != socket ==> NotFrom(SentOn(n, decode, cs, other), client)
    ensures var own := OfClient(ReceiveAll(n, decode, cs).intake.accepted, client);
            && |own| <= |requests|
            && (forall i :: 0 <= i < |own| ==> own[i].request == requests[i] && own[i].seqNum == i + 1)
            && (BytesOn(cs, socket) == Flatten(Outbound(encode, client, 1, requests)) ==> |own| == |requests|)
  {
    ArrivedIsSent(n, encode, decode, cs, socket, client, requests);
    hide SentOn, InSequence, NotFrom, BytesOn, Outbound, Flatten, ReceiveAll, OfClient;
    ClientIsServed(n, decode, cs, socket, client);
  }

  // ----- the object

  class OrderGateway {
    const clientId: nat
    const frameSize: nat
    const encode: OMClientRequest -> Bytes
    const decode: Bytes -> OMClientResponse
    var nextOutgoingSeqNum: nat
    var nextExpSeqNum: nat
    var outboundData: Bytes
    var incomingResponses: seq<Bytes>

    constructor (clientId: nat, frameSize: nat, encode: OMClientRequest -> Bytes, decode: Bytes -> OMClientResponse)
      ensures this.clientId == clientId && this.frameSize == frameSize && this.encode == encode && this.decode == decode
      ensures nextOutgoingSeqNum == 1 && nextExpSeqNum == 1 && outboundData == [] && incomingResponses == []
    {
      this.clientId, this.frameSize, this.encode, this.decode := clientId, frameSize, encode, decode;
      nextOutgoingSeqNum, nextExpSeqNum, outboundData, incomingResponses := 1, 1, [], [];
    }

    /** The sending half of run: the queued requests, numbered on. */
    method SendRequests(requests: seq<Bytes>)
      modifies this`nextOutgoingSeqNum, this`outboundData
      ensures nextOutgoingSeqNum == old(nextOutgoingSeqNum) + |requests|
      ensures outboundData == old(outboundData) + Flatten(Outbound(encode, clientId, old(nextOutgoingSeqNum), requests))
    {
      ghost var first := nextOutgoingSeqNum;
      ghost var frames := Outbound(encode, clientId, first, requests);
      for i := 0 to |requests|
        invariant nextOutgoingSeqNum == first + i
        invariant outboundData == old(outboundData) + Flatten(frames[..i])
      {
        FlattenAppend(frames[..i], frames[i]);
        assert frames[..i + 1] == frames[..i] + [frames[i]];
        outboundData := outboundData + encode(OMClientRequest(nextOutgoingSeqNum, clientId, requests[i]));
        nextOutgoingSeqNum := nextOutgoingSeqNum + 1;
      }
      assert frames[..|requests|] == frames;
    }

    /** recvCallback: all whole frames in the buffer are taken in order; the rest is moved to the front. */
    method RecvCallback(socket: TCPSocket)
      requires frameSize > 0 && socket.Valid()
      modifies this`nextExpSeqNum, this`incomingResponses, socket`nextRcvValidIndex, socket.inboundData
      ensures socket.Valid() && socket.Buffered() == Residue(frameSize, old(socket.Buffered()))
      ensures Inbox(nextExpSeqNum, incomingResponses)
           == AdmitAll(Inbox(old(nextExpSeqNum), old(incomingResponses)), clientId,
               DecodedResponses(decode, Frames(frameSize, old(socket.Buffered()))))
    {
      ghost var b := socket.Buffered();
      NoneAdmitted(Inbox(nextExpSeqNum, incomingResponses), clientId, decode);
      NoneCut(frameSize, b);
      hide AdmitAll, Frames, Residue, DecodedResponses, CutSoFar;
      if socket.nextRcvValidIndex < frameSize {
        AllCut(frameSize, b, 0, []);
        return;
      }
      var i := TakeFrames(socket);
      socket.Shift(i, frameSize);
    }

    /** The loop of recvCallback. */
    method TakeFrames(socket: TCPSocket) returns (i: nat)
      requires frameSize > 0 && socket.Valid()
      modifies this`nextExpSeqNum, this`incomingResponses
      ensures i <= socket.nextRcvValidIndex < i + frameSize && (i == 0 || i >= frameSize)
      ensures Residue(frameSize, socket.Buffered()) == socket.Buffered()[i..]
      ensures Inbox(nextExpSeqNum, incomingResponses)
           == AdmitAll(Inbox(old(nextExpSeqNum), old(incomingResponses)), clientId,
               DecodedResponses(decode, Frames(frameSize, socket.Buffered())))
    {
      ghost var b, g := socket.Buffered(), Inbox(nextExpSeqNum, incomingResponses);
      ghost var done: seq<Bytes> := [];
      NoneAdmitted(g, clientId, decode);
      NoneCut(frameSize, b);
      hide AdmitAll, Frames, Residue, DecodedResponses, CutSoFar;
      i := 0;
      while i + frameSize <= socket.nextRcvValidIndex
        invariant i <= |b| && (i == 0 || i >= frameSize)
        invariant CutSoFar(frameSize, b, i, done)
        invariant Inbox(nextExpSeqNum, incomingResponses) == AdmitAll(g, clientId, DecodedResponses(decode, done))
        decreases |b| - i
      {
        var frame := socket.FrameAt(i, frameSize);
        CutNext(frameSize, b, i, done);
        NextAdmitted(g, clientId, decode, done, frame);
        var response := decode(frame);
        if response.client == clientId && response.seqNum == nextExpSeqNum {
          nextExpSeqNum := nextExpSeqNum + 1;
          incomingResponses := incomingResponses + [response.response];
        }
        done := done + [frame];
        i := i + frameSize;
      }
      AllCut(frameSize, b, i, done);
    }
  }

  lemma NoneAdmitted(g: Inbox, me: nat, decode: Bytes -> OMClientResponse)
    ensures AdmitAll(g, me, DecodedResponses(decode, [])) == g
  {
  }

  function DecodedResponses(decode: Bytes -> OMClientResponse, frames: seq<Bytes>): (ms: seq<OMClientResponse>)
    ensures |ms| == |frames| && forall i :: 0 <= i < |frames| ==> ms[i] == decode(frames[i])
  {
    seq(|frames|, i requires 0 <= i < |frames| => decode(frames[i]))
  }

  lemma NextAdmitted(g: Inbox, me: nat, decode: Bytes -> OMClientResponse, done: seq<Bytes>, f: Bytes)
    ensures AdmitAll(g, me, DecodedResponses(decode, done + [f]))
            == Admit(AdmitAll(g, me, DecodedResponses(decode, done)), me, decode(f))
  {
    assert DecodedResponses(decode, done + [f])[..|done|] == DecodedResponses(decode, done);
  }

  lemma {:induction false} FlattenAppend(parts: seq<Bytes>, p: Bytes)
    ensures Flatten(parts + [p]) == Flatten(parts) + p
  {
    if parts == [] {
      assert [p][1..] == [];
      assert Flatten([p]) == p + Flatten([]);
    } else {
      assert (parts + [p])[1..] == parts[1..] + [p];
      FlattenAppend(parts[1..], p);
    }
  }
}
