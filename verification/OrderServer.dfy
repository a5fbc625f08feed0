/** The order server: requests cut from the connections' byte streams, checked by client and sequence number. */
module OrderServers {
  import opened Framing
  import opened FIFOSequencers

  /** A request as it travels: who sent it, under which number, and what it asks for. */
  datatype OMClientRequest = OMClientRequest(seqNum: nat, client: nat, request: Bytes)

  /** The connection of each client, the number expected next from it, and the requests accepted so far. */
  datatype Intake<S(==)> = Intake(socketOf: map<nat, S>, expected: map<nat, nat>, accepted: seq<Received>)

  /** Numbers start at 1. */
  function Expected<S>(t: Intake<S>, client: nat): nat {
    if client in t.expected then t.expected[client] else 1
  }

  /**
   * What becomes of one request: the first connection of a client is kept, and only the expected number is accepted.
   */
  function Take<S>(t: Intake<S>, socket: S, time: nat, m: OMClientRequest): Intake<S> {
    var u := if m.client in t.socketOf then t else t.(socketOf := t.socketOf[m.client := socket]);
    if u.socketOf[m.client] != socket || m.seqNum != Expected(u, m.client) then u
    else u.(expected := u.expected[m.client := m.seqNum + 1],
            accepted := u.accepted + [Received(time, m.client, m.seqNum, m.request)])
  }

  function TakeAll<S>(t: Intake<S>, socket: S, time: nat, ms: seq<OMClientRequest>): Intake<S> {
    if ms == [] then t else Take(TakeAll(t, socket, time, ms[..|ms| - 1]), socket, time, ms[|ms| - 1])
  }

  function Decoded(decode: Bytes -> OMClientRequest, frames: seq<Bytes>): (ms: seq<OMClientRequest>)
    ensures |ms| == |frames| && forall i :: 0 <= i < |frames| ==> ms[i] == decode(frames[i])
  {
    seq(|frames|, i requires 0 <= i < |frames| => decode(frames[i]))
  }

  /** The accepted requests of one client, in order. */
  function OfClient(accepted: seq<Received>, client: nat): seq<Received> {
    if accepted == [] then []
    else OfClient(accepted[..|accepted| - 1], client)
         + (if accepted[|accepted| - 1].client == client then [accepted[|accepted| - 1]] else [])
  }

  /** Numbered 1, 2, 3, ... up to before the number expected next. */
  ghost predicate Numbered<S>(t: Intake<S>, client: nat) {
    var own := OfClient(t.accepted, client);
    |own| + 1 == Expected(t, client) && forall i :: 0 <= i < |own| ==> own[i].seqNum == i + 1
  }

  lemma OfClientAppend(accepted: seq<Received>, r: Received, client: nat)
    ensures OfClient(accepted + [r], client) == OfClient(accepted, client) + if r.client == client then [r] else []
  {
    assert (accepted + [r])[..|accepted|] == accepted;
  }

  /** Whatever arrives on whatever connection, the accepted requests of every client stay numbered without a gap. */
  lemma TakeKeepsNumbered<S>(t: Intake<S>, socket: S, time: nat, m: OMClientRequest, client: nat)
    requires Numbered(t, client)
    ensures Numbered(Take(t, socket, time, m), client)
  {
    var r := Received(time, m.client, m.seqNum, m.request);
    OfClientAppend(t.accepted, r, client);
    hide OfClient;
    var u := Take(t, socket, time, m);
    assert u.accepted == t.accepted || u.accepted == t.accepted + [r];
  }

  lemma {:induction false} TakeAllKeepsNumbered<S>(t: Intake<S>, socket: S, time: nat, ms: seq<OMClientRequest>,
      client: nat)
    requires Numbered(t, client)
    ensures Numbered(TakeAll(t, socket, time, ms), client)
  {
    if ms != [] {
      TakeAllKeepsNumbered(t, socket, time, ms[..|ms| - 1], client);
      TakeKeepsNumbered(TakeAll(t, socket, time, ms[..|ms| - 1]), socket, time, ms[|ms| - 1], client);
    }
  }

  // ----- all connections together

  /** A chunk of bytes read from one connection. */
  datatype Chunk<S> = Chunk(socket: S, time: nat, bytes: Bytes)

  datatype Server<S(==)> = Server(buffers: map<S, Bytes>, intake: Intake<S>)

  function BufferOf<S>(v: Server<S>, socket: S): Bytes {
    if socket in v.buffers then v.buffers[socket] else []
  }

  /** One receive callback. */
  function Receive<S>(v: Server<S>, n: nat, decode: Bytes -> OMClientRequest, c: Chunk<S>): Server<S>
    requires n > 0
  {
    var b := BufferOf(v, c.socket) + c.bytes;
    Server(v.buffers[c.socket := Residue(n, b)], TakeAll(v.intake, c.socket, c.time, Decoded(decode, Frames(n, b))))
  }

  function ReceiveAll<S(==)>(n: nat, decode: Bytes -> OMClientRequest, cs: seq<Chunk<S>>): Server<S>
    requires n > 0
  {
    if cs == [] then Server(map[], Intake(map[], map[], []))
    else Receive(ReceiveAll(n, decode, cs[..|cs| - 1]), n, decode, cs[|cs| - 1])
  }

  /** Everything read from one connection. */
  function BytesOn<S(==)>(cs: seq<Chunk<S>>, socket: S): Bytes {
    if cs == [] then [] else BytesOn(cs[..|cs| - 1], socket) + if cs[|cs| - 1].socket == socket then cs[|cs| - 1].bytes
        else []
  }

  function SentOn<S(==)>(n: nat, decode: Bytes -> OMClientRequest, cs: seq<Chunk<S>>, socket: S): seq<OMClientRequest>
    requires n > 0
  {
    Decoded(decode, Frames(n, BytesOn(cs, socket)))
  }

  /** Requests of one client, numbered without a gap. */
  ghost predicate InSequence(ms: seq<OMClientRequest>, client: nat, first: nat) {
    forall i :: 0 <= i < |ms| ==> ms[i].client == client && ms[i].seqNum == first + i
  }

  lemma SplitSequence(a: seq<OMClientRequest>, b: seq<OMClientRequest>, client: nat, first: nat)
    requires InSequence(a + b, client, first)
    ensures InSequence(a, client, first) && InSequence(b, client, first + |a|)
  {
    assert forall i :: 0 <= i < |a| ==> a[i] == (a + b)[i];
    assert forall i :: 0 <= i < |b| ==> b[i] == (a + b)[|a| + i];
  }

  lemma SplitNotFrom(a: seq<OMClientRequest>, b: seq<OMClientRequest>, client: nat)
    requires NotFrom(a + b, client)
    ensures NotFrom(a, client) && NotFrom(b, client)
  {
    assert forall i :: 0 <= i < |a| ==> a[i] == (a + b)[i];
    assert forall i :: 0 <= i < |b| ==> b[i] == (a + b)[|a| + i];
  }

  /** The client sends requests numbered 1, 2, 3, ... on this connection, and nobody else uses its id. */
  ghost predicate Exclusive<S(!new)>(n: nat, decode: Bytes -> OMClientRequest, cs: seq<Chunk<S>>, socket: S,
      client: nat)
    requires n > 0
  {
    && InSequence(SentOn(n, decode, cs, socket), client, 1)
    && forall other :: other != socket ==> NotFrom(SentOn(n, decode, cs, other), client)
  }

  ghost predicate NotFrom(ms: seq<OMClientRequest>, client: nat) {
    forall i :: 0 <= i < |ms| ==> ms[i].client != client
  }

  /** A client whose requests have all been accepted so far, on one connection. */
  ghost predicate Served<S>(t: Intake<S>, socket: S, client: nat, sent: seq<OMClientRequest>) {
    var own := OfClient(t.accepted, client);
    && (client in t.socketOf ==> t.socketOf[client] == socket)
    && |own| == |sent| && Expected(t, client) == |sent| + 1
    && forall i :: 0 <= i < |sent| ==> own[i].request == sent[i].request && own[i].seqNum == i + 1
  }

  lemma TakeServes<S>(t: Intake<S>, socket: S, time: nat, m: OMClientRequest, client: nat, sent: seq<OMClientRequest>)
    requires Served(t, socket, client, sent) && m.client == client && m.seqNum == |sent| + 1
    ensures Served(Take(t, socket, time, m), socket, client, sent + [m])
  {
    OfClientAppend(t.accepted, Received(time, m.client, m.seqNum, m.request), client);
    hide OfClient;
  }

  lemma {:induction false} AllServed<S>(t: Intake<S>, socket: S, time: nat, client: nat, sent: seq<OMClientRequest>,
      ms: seq<OMClientRequest>)
    requires Served(t, socket, client, sent)
    requires InSequence(ms, client, |sent| + 1)
    ensures Served(TakeAll(t, socket, time, ms), socket, client, sent + ms)
  {
    if ms == [] {
      assert sent + ms == sent;
    } else {
      hide Served, Take;
      var init := ms[..|ms| - 1];
      assert ms == init + [ms[|ms| - 1]];
      SplitSequence(init, [ms[|ms| - 1]], client, |sent| + 1);
      AllServed(t, socket, time, client, sent, init);
      TakeServes(TakeAll(t, socket, time, init), socket, time, ms[|ms| - 1], client, sent + init);
      assert sent + ms == (sent + init) + [ms[|ms| - 1]];
    }
  }

  lemma {:induction false} OthersDoNotDisturb<S>(t: Intake<S>, other: S, time: nat, socket: S, client: nat,
      sent: seq<OMClientRequest>, ms: seq<OMClientRequest>)
    requires Served(t, socket, client, sent) && NotFrom(ms, client)
    ensures Served(TakeAll(t, other, time, ms), socket, client, sent)
  {
    if ms != [] {
      var init, m := ms[..|ms| - 1], ms[|ms| - 1];
      OthersDoNotDisturb(t, other, time, socket, client, sent, init);
      OfClientAppend(TakeAll(t, other, time, init).accepted, Received(time, m.client, m.seqNum, m.request), client);
    }
  }

  /** The requests that one more chunk completes on a connection. */
  function Completed<S(==)>(n: nat, decode: Bytes -> OMClientRequest, cs: seq<Chunk<S>>, c: Chunk<S>,
      socket: S): seq<OMClientRequest>
    requires n > 0
  {
    if c.socket == socket then Decoded(decode, Frames(n, Residue(n, BytesOn(cs, socket)) + c.bytes)) else []
  }

  lemma DecodedConcat(decode: Bytes -> OMClientRequest, a: seq<Bytes>, b: seq<Bytes>)
    ensures Decoded(decode, a + b) == Decoded(decode, a) + Decoded(decode, b)
  {
  }

  lemma SentGrows<S>(n: nat, decode: Bytes -> OMClientRequest, cs: seq<Chunk<S>>, socket: S)
    requires n > 0 && cs != []
    ensures var init, c := cs[..|cs| - 1], cs[|cs| - 1];
            && SentOn(n, decode, cs, socket) == SentOn(n, decode, init, socket) + Completed(n, decode, init, c, socket)
            && Residue(n, BytesOn(cs, socket))
                 == (if c.socket == socket then Residue(n, Residue(n, BytesOn(init, socket)) + c.bytes)
                     else Residue(n, BytesOn(init, socket)))
  {
    var init, c := cs[..|cs| - 1], cs[|cs| - 1];
    FramesConcat(n, BytesOn(init, socket), c.bytes);
    assert BytesOn(init, socket) + [] == BytesOn(init, socket);
    hide Frames, Residue, Decoded;
    if c.socket == socket {
      DecodedConcat(decode, Frames(n, BytesOn(init, socket)), Frames(n, Residue(n, BytesOn(init, socket)) + c.bytes));
    }
  }

  lemma {:induction false} BuffersHoldResidues<S>(n: nat, decode: Bytes -> OMClientRequest, cs: seq<Chunk<S>>,
      socket: S)
    requires n > 0
    ensures BufferOf(ReceiveAll(n, decode, cs), socket) == Residue(n, BytesOn(cs, socket))
  {
    if cs != [] {
      BuffersHoldResidues(n, decode, cs[..|cs| - 1], socket);
      SentGrows(n, decode, cs, socket);
    }
  }

  lemma ExclusivePrefix<S(!new)>(n: nat, decode: Bytes -> OMClientRequest, cs: seq<Chunk<S>>, socket: S, client: nat)
    requires n > 0 && cs != [] && Exclusive(n, decode, cs, socket, client)
    ensures Exclusive(n, decode, cs[..|cs| - 1], socket, client)
  {
    var init, c := cs[..|cs| - 1], cs[|cs| - 1];
    hide SentOn, Completed, Residue, InSequence, NotFrom;
    SentGrows(n, decode, cs, socket);
    SplitSequence(SentOn(n, decode, init, socket), Completed(n, decode, init, c, socket), client, 1);
    forall other | other != socket
      ensures NotFrom(SentOn(n, decode, init, other), client)
    {
      SentGrows(n, decode, cs, other);
      SplitNotFrom(SentOn(n, decode, init, other), Completed(n, decode, init, c, other), client);
    }
  }

  lemma ReceiveIs<S>(n: nat, decode: Bytes -> OMClientRequest, cs: seq<Chunk<S>>)
    requires n > 0 && cs != []
    ensures var init, c := cs[..|cs| - 1], cs[|cs| - 1];
            ReceiveAll(n, decode, cs).intake
              == TakeAll(ReceiveAll(n, decode, init).intake, c.socket, c.time, Completed(n, decode, init, c, c.socket))
  {
    BuffersHoldResidues(n, decode, cs[..|cs| - 1], cs[|cs| - 1].socket);
  }

  /**
   * However the byte streams are chopped up and interleaved, a client that numbers its requests 1, 2, 3, ... on one
   * connection, and whose id nobody else uses, has exactly the requests of its stream accepted, each once and in order.
   */
  lemma {:induction false} ClientIsServed<S(!new)>(n: nat, decode: Bytes -> OMClientRequest, cs: seq<Chunk<S>>,
      socket: S, client: nat)
    requires n > 0 && Exclusive(n, decode, cs, socket, client)
    ensures Served(ReceiveAll(n, decode, cs).intake, socket, client, SentOn(n, decode, cs, socket))
  {
    if cs != [] {
      var init, c := cs[..|cs| - 1], cs[|cs| - 1];
      ExclusivePrefix(n, decode, cs, socket, client);
      ClientIsServed(n, decode, init, socket, client);
      ReceiveIs(n, decode, cs);
      SentGrows(n, decode, cs, socket);
      SentGrows(n, decode, cs, c.socket);
      hide Served, Completed, SentOn, ReceiveAll, TakeAll, Residue, InSequence, NotFrom;
      var t, sent := ReceiveAll(n, decode, init).intake, SentOn(n, decode, init, socket);
      var ms := Completed(n, decode, init, c, c.socket);
      if c.socket == socket {
        SplitSequence(sent, ms, client, 1);
        AllServed(t, socket, c.time, client, sent, ms);
      } else {
        SplitNotFrom(SentOn(n, decode, init, c.socket), ms, client);
        OthersDoNotDisturb(t, c.socket, c.time, socket, client, sent, ms);
        NothingCompleted(n, decode, init, c, socket);
        assert sent + [] == sent;
      }
    }
  }

  lemma NothingCompleted<S>(n: nat, decode: Bytes -> OMClientRequest, cs: seq<Chunk<S>>, c: Chunk<S>, socket: S)
    requires n > 0 && c.socket != socket
    ensures Completed(n, decode, cs, c, socket) == []
  {
  }

  // ----- the object

  lemma NextTaken<S>(t: Intake<S>, socket: S, time: nat, decode: Bytes -> OMClientRequest, done: seq<Bytes>, f: Bytes)
    ensures TakeAll(t, socket, time, Decoded(decode, done + [f]))
            == Take(TakeAll(t, socket, time, Decoded(decode, done)), socket, time, decode(f))
  {
    assert Decoded(decode, done + [f])[..|done|] == Decoded(decode, done);
  }

  lemma NoneTaken<S>(t: Intake<S>, socket: S, time: nat, decode: Bytes -> OMClientRequest)
    ensures TakeAll(t, socket, time, Decoded(decode, [])) == t
  {
  }

  class OrderServer {
    const frameSize: nat
    const decode: Bytes -> OMClientRequest
    const fifoSequencer: FIFOSequencer
    var cidTcpSocket: map<nat, TCPSocket>
    var cidNextExpSeqNum: map<nat, nat>
    ghost var sequenced: seq<Received>

    /** Accepted are the requests that have been published and those still pending. */
    ghost function Now(): Intake<TCPSocket>
      reads this, fifoSequencer
    {
      Intake(cidTcpSocket, cidNextExpSeqNum, sequenced + fifoSequencer.pendingClientRequests)
    }

    /** There is room in the sequencer for everything accepted and not yet published. */
    ghost predicate Fits(t: Intake<TCPSocket>)
      reads this`sequenced
    {
      |t.accepted| <= |sequenced| + fifoSequencer.maxPending
    }

    constructor (frameSize: nat, decode: Bytes -> OMClientRequest, maxPending: nat)
      ensures this.frameSize == frameSize && this.decode == decode && fresh(fifoSequencer)
      ensures fifoSequencer.maxPending == maxPending
      ensures Now() == Intake(map[], map[], []) && fifoSequencer.pendingClientRequests == []
    {
      this.frameSize, this.decode := frameSize, decode;
      fifoSequencer := new FIFOSequencer(maxPending);
      cidTcpSocket, cidNextExpSeqNum, sequenced := map[], map[], [];
    }

    /** One request of recvCallback's loop. */
    method TakeRequest(socket: TCPSocket, rxTime: nat, m: OMClientRequest)
      requires Fits(Take(Now(), socket, rxTime, m))
      modifies this`cidTcpSocket, this`cidNextExpSeqNum, fifoSequencer`pendingClientRequests
      ensures Now() == Take(old(Now()), socket, rxTime, m)
      ensures old(m.client in cidTcpSocket && cidTcpSocket[m.client] != socket) ==> Now() == old(Now())
    {
      if m.client !in cidTcpSocket {
        cidTcpSocket := cidTcpSocket[m.client := socket];
      }
      if cidTcpSocket[m.client] != socket {
        return;
      }
      var nextExpSeqNum := Expected(Intake(cidTcpSocket, cidNextExpSeqNum, []), m.client);
      if m.seqNum != nextExpSeqNum {
        return;
      }
      cidNextExpSeqNum := cidNextExpSeqNum[m.client := nextExpSeqNum + 1];
      var r := Received(rxTime, m.client, m.seqNum, m.request);
      ghost var pending := fifoSequencer.pendingClientRequests;
      var ok := fifoSequencer.AddClientRequest(r);
      assert sequenced + (pending + [r]) == (sequenced + pending) + [r];
    }

    /**
     * recvCallback: all whole frames in the buffer are taken in order, what is accepted is queued for sequencing, and
     * the rest of the buffer, less than a frame, is moved to its front. Running out of room in the sequencer for what
     * is accepted is fatal.
     */
    method RecvCallback(socket: TCPSocket, rxTime: nat)
      requires frameSize > 0 && socket.Valid()
      requires Fits(TakeAll(Now(), socket, rxTime, Decoded(decode, Frames(frameSize, socket.Buffered()))))
      modifies this`cidTcpSocket, this`cidNextExpSeqNum, fifoSequencer`pendingClientRequests
      modifies socket`nextRcvValidIndex, socket.inboundData
      ensures socket.Valid() && socket.Buffered() == Residue(frameSize, old(socket.Buffered()))
      ensures Now() == TakeAll(old(Now()), socket, rxTime, Decoded(decode, Frames(frameSize, old(socket.Buffered()))))
    {
      hide Take, TakeAll, Frames, Residue, Decoded, Fits;
      if socket.nextRcvValidIndex < frameSize {
        ShortBuffer(frameSize, socket.Buffered(), Now(), socket, rxTime, decode);
        return;
      }
      var i := TakeFrames(socket, rxTime);
      socket.Shift(i, frameSize);
    }

    /** The request in the frame at an index of the buffer; next is the index behind it. */
    method TakeFrame(socket: TCPSocket, rxTime: nat, i: nat, ghost done: seq<Bytes>, ghost t: Intake<TCPSocket>,
        ghost b: Bytes) returns (next: nat, ghost more: seq<Bytes>)
      requires frameSize > 0 && socket.Valid() && i + frameSize <= socket.nextRcvValidIndex && b == socket.Buffered()
      requires TakenSoFar(frameSize, b, i, done, t, Now(), socket, rxTime, decode)
      requires Fits(TakeAll(t, socket, rxTime, Decoded(decode, Frames(frameSize, b))))
      modifies this`cidTcpSocket, this`cidNextExpSeqNum, fifoSequencer`pendingClientRequests
      ensures next == i + frameSize && TakenSoFar(frameSize, b, next, more, t, Now(), socket, rxTime, decode)
    {
      TakenNext(frameSize, b, i, done, t, Now(), socket, rxTime, decode);
      hide Take, TakeAll, Frames, Decoded, TakenSoFar;
      var frame := socket.FrameAt(i, frameSize);
      TakeRequest(socket, rxTime, decode(frame));
      next, more := i + frameSize, done + [frame];
    }

    /** The loop of recvCallback. */
    method TakeFrames(socket: TCPSocket, rxTime: nat) returns (i: nat)
      requires frameSize > 0 && socket.Valid()
      requires Fits(TakeAll(Now(), socket, rxTime, Decoded(decode, Frames(frameSize, socket.Buffered()))))
      modifies this`cidTcpSocket, this`cidNextExpSeqNum, fifoSequencer`pendingClientRequests
      ensures i <= socket.nextRcvValidIndex < i + frameSize && (i == 0 || i >= frameSize)
      ensures Residue(frameSize, socket.Buffered()) == socket.Buffered()[i..]
      ensures Now() == TakeAll(old(Now()), socket, rxTime, Decoded(decode, Frames(frameSize, socket.Buffered())))
    {
      ghost var t, b := Now(), socket.Buffered();
      ghost var done: seq<Bytes> := [];
      NothingTaken(frameSize, b, t, socket, rxTime, decode);
      assert |b| == socket.nextRcvValidIndex;
      hide Take, TakeAll, Frames, Residue, Decoded, TakenSoFar, Fits, TCPSocket.Buffered, Now;
      i := 0;
      while i + frameSize <= socket.nextRcvValidIndex
        invariant i == 0 || i >= frameSize
        invariant TakenSoFar(frameSize, b, i, done, t, Now(), socket, rxTime, decode)
        decreases |b| - i
      {
        i, done := TakeFrame(socket, rxTime, i, done, t, b);
      }
      AllTaken(frameSize, b, i, done, t, Now(), socket, rxTime, decode);
    }

    /** recvFinishedCallback: everything pending is published by receive time, and nothing accepted is lost. */
    method RecvFinishedCallback(arrangement: seq<Received>)
      requires multiset(arrangement) == multiset(fifoSequencer.pendingClientRequests)
      modifies this`sequenced, fifoSequencer
      ensures Now() == old(Now()) && fifoSequencer.pendingClientRequests == []
      ensures SortOf(old(fifoSequencer.pendingClientRequests), Sort(arrangement))
      ensures fifoSequencer.published == old(fifoSequencer.published) + Requests(Sort(arrangement))
    {
      sequenced := sequenced + fifoSequencer.pendingClientRequests;
      fifoSequencer.SequenceAndPublish(arrangement);
      assert sequenced + [] == sequenced;
    }
  }

  /** No more requests are accepted in t than in u. */
  ghost predicate NotMore<S>(t: Intake<S>, u: Intake<S>) {
    |t.accepted| <= |u.accepted|
  }

  /** The first i bytes have been cut into frames, and the requests in them taken. */
  ghost predicate TakenSoFar<S>(n: nat, b: Bytes, i: nat, done: seq<Bytes>, t: Intake<S>, u: Intake<S>, socket: S,
      time: nat, decode: Bytes -> OMClientRequest)
    requires n > 0
  {
    CutSoFar(n, b, i, done) && u == TakeAll(t, socket, time, Decoded(decode, done))
  }

  lemma NothingTaken<S>(n: nat, b: Bytes, t: Intake<S>, socket: S, time: nat, decode: Bytes -> OMClientRequest)
    requires n > 0
    ensures TakenSoFar(n, b, 0, [], t, t, socket, time, decode)
  {
    NoneTaken(t, socket, time, decode);
    NoneCut(n, b);
  }

  /** Less than a frame is left where it is. */
  lemma ShortBuffer<S>(n: nat, b: Bytes, t: Intake<S>, socket: S, time: nat, decode: Bytes -> OMClientRequest)
    requires |b| < n
    ensures Residue(n, b) == b && TakeAll(t, socket, time, Decoded(decode, Frames(n, b))) == t
  {
    NothingTaken(n, b, t, socket, time, decode);
    AllTaken(n, b, 0, [], t, t, socket, time, decode);
    assert b[0..] == b;
  }

  lemma {:induction false} AcceptedGrows<S>(t: Intake<S>, socket: S, time: nat, ms: seq<OMClientRequest>, k: nat)
    requires k <= |ms|
    ensures |TakeAll(t, socket, time, ms[..k]).accepted| <= |TakeAll(t, socket, time, ms).accepted|
  {
    if k < |ms| {
      AcceptedGrows(t, socket, time, ms[..|ms| - 1], k);
      assert ms[..|ms| - 1][..k] == ms[..k];
    } else {
      assert ms[..k] == ms;
    }
  }

  lemma DecodedPrefix(decode: Bytes -> OMClientRequest, a: seq<Bytes>, b: seq<Bytes>)
    ensures Decoded(decode, a + b)[..|a|] == Decoded(decode, a)
  {
  }

  lemma TakenNext<S>(n: nat, b: Bytes, i: nat, done: seq<Bytes>, t: Intake<S>, u: Intake<S>, socket: S, time: nat,
                     decode: Bytes -> OMClientRequest)
    requires n > 0 && TakenSoFar(n, b, i, done, t, u, socket, time, decode) && i + n <= |b|
    ensures var v := Take(u, socket, time, decode(b[i..i + n]));
            && TakenSoFar(n, b, i + n, done + [b[i..i + n]], t, v, socket, time, decode)
            && NotMore(v, TakeAll(t, socket, time, Decoded(decode, Frames(n, b))))
  {
    CutNext(n, b, i, done);
    var more := done + [b[i..i + n]];
    assert Frames(n, b) == more + Frames(n, b[i + n..]);
    hide CutSoFar, Take, Decoded, Frames;
    NextTaken(t, socket, time, decode, done, b[i..i + n]);
    DecodedPrefix(decode, more, Frames(n, b[i + n..]));
    AcceptedGrows(t, socket, time, Decoded(decode, Frames(n, b)), |more|);
  }

  lemma AllTaken<S>(n: nat, b: Bytes, i: nat, done: seq<Bytes>, t: Intake<S>, u: Intake<S>, socket: S, time: nat,
                    decode: Bytes -> OMClientRequest)
    requires n > 0 && TakenSoFar(n, b, i, done, t, u, socket, time, decode) && |b| < i + n
    ensures u == TakeAll(t, socket, time, Decoded(decode, Frames(n, b))) && i <= |b| && Residue(n, b) == b[i..]
  {
    AllCut(n, b, i, done);
  }
}
