/** Fixed-size frames in a byte stream that arrives in chunks, and the receive buffer they are cut from. */
module Framing {

  type Bytes = seq<bv8>

  /** The whole frames at the front of b. */
  function Frames(n: nat, b: Bytes): (r: seq<Bytes>)
    requires n > 0
    ensures forall i :: 0 <= i < |r| ==> |r[i]| == n
  {
    if |b| < n then [] else [b[..n]] + Frames(n, b[n..])
  }

  /** What is left when the whole frames have been cut off. */
  function Residue(n: nat, b: Bytes): (r: Bytes)
    requires n > 0
    ensures |r| < n && |r| <= |b|
  {
    if |b| < n then b else Residue(n, b[n..])
  }

  function Flatten(parts: seq<Bytes>): Bytes {
    if parts == [] then [] else parts[0] + Flatten(parts[1..])
  }

  /** Cutting what arrived, and then the residue together with what arrives later, is cutting everything at once. */
  lemma {:induction false} FramesConcat(n: nat, a: Bytes, b: Bytes)
    requires n > 0
    ensures Frames(n, a + b) == Frames(n, a) + Frames(n, Residue(n, a) + b)
    ensures Residue(n, a + b) == Residue(n, Residue(n, a) + b)
    decreases |a|
  {
    if |a| >= n {
      assert (a + b)[..n] == a[..n] && (a + b)[n..] == a[n..] + b;
      FramesConcat(n, a[n..], b);
    }
  }

  /** The frames of any prefix of a framed stream are the first frames that were sent. */
  lemma {:induction false} FramesOfPrefix(n: nat, sent: seq<Bytes>, b: Bytes)
    requires n > 0 && (forall i :: 0 <= i < |sent| ==> |sent[i]| == n) && b <= Flatten(sent)
    ensures Frames(n, b) <= sent
    ensures b == Flatten(sent) ==> Frames(n, b) == sent && Residue(n, b) == []
    decreases |sent|
  {
    if sent != [] {
      var rest := Flatten(sent[1..]);
      assert Flatten(sent)[..n] == sent[0] && Flatten(sent)[n..] == rest;
      if |b| >= n {
        assert b[..n] == Flatten(sent)[..n] && b[n..] == Flatten(sent)[n..][..|b| - n];
        FramesOfPrefix(n, sent[1..], b[n..]);
        assert b == Flatten(sent) ==> b[n..] == rest;
      }
    }
  }

  /** Everything that arrived in the chunks of a sequence of callbacks. */
  function Cut(n: nat, buffer: Bytes, chunks: seq<Bytes>): (seq<Bytes>, Bytes)
    requires n > 0
    decreases |chunks|
  {
    if chunks == [] then ([], buffer)
    else
      var (later, left) := Cut(n, Residue(n, buffer + chunks[0]), chunks[1..]);
      (Frames(n, buffer + chunks[0]) + later, left)
  }

  /** However a stream is split into chunks, the frames and the residue are those of the whole stream. */
  lemma {:induction false} ChunksDoNotMatter(n: nat, buffer: Bytes, chunks: seq<Bytes>)
    requires n > 0 && |buffer| < n
    ensures Cut(n, buffer, chunks) == (Frames(n, buffer + Flatten(chunks)), Residue(n, buffer + Flatten(chunks)))
    decreases |chunks|
  {
    if chunks == [] {
      assert buffer + Flatten(chunks) == buffer;
    } else {
      var rest := Flatten(chunks[1..]);
      ChunksDoNotMatter(n, Residue(n, buffer + chunks[0]), chunks[1..]);
      FramesConcat(n, buffer + chunks[0], rest);
      assert buffer + Flatten(chunks) == (buffer + chunks[0]) + rest;
    }
  }

  /** The first i bytes of b have been cut into the given frames. */
  ghost predicate CutSoFar(n: nat, b: Bytes, i: nat, done: seq<Bytes>)
    requires n > 0
  {
    i <= |b| && done + Frames(n, b[i..]) == Frames(n, b) && Residue(n, b[i..]) == Residue(n, b)
  }

  lemma NoneCut(n: nat, b: Bytes)
    requires n > 0
    ensures CutSoFar(n, b, 0, [])
  {
    assert b[0..] == b;
  }

  lemma CutNext(n: nat, b: Bytes, i: nat, done: seq<Bytes>)
    requires n > 0 && CutSoFar(n, b, i, done) && i + n <= |b|
    ensures CutSoFar(n, b, i + n, done + [b[i..i + n]]) && |done| < |Frames(n, b)|
  {
    assert b[i..][..n] == b[i..i + n] && b[i..][n..] == b[i + n..];
  }

  lemma AllCut(n: nat, b: Bytes, i: nat, done: seq<Bytes>)
    requires n > 0 && CutSoFar(n, b, i, done) && |b| < i + n
    ensures done == Frames(n, b) && Residue(n, b) == b[i..] && (i == 0 ==> b[i..] == b)
  {
  }

  /** A connection's receive buffer. */
  class TCPSocket {
    const inboundData: array<bv8>
    var nextRcvValidIndex: nat

    ghost predicate Valid()
      reads this
    {
      nextRcvValidIndex <= inboundData.Length
    }

    ghost function Buffered(): Bytes
      requires Valid()
      reads this, inboundData
    {
      inboundData[..nextRcvValidIndex]
    }

    constructor (size: nat)
      ensures Valid() && fresh(inboundData) && Buffered() == [] && inboundData.Length == size
    {
      inboundData := new bv8[size];
      nextRcvValidIndex := 0;
    }

    /** The receiving half of sendAndRecv: what was read is stored behind what is buffered. */
    method Store(chunk: Bytes)
      requires Valid() && nextRcvValidIndex + |chunk| <= inboundData.Length
      modifies this`nextRcvValidIndex, inboundData
      ensures Valid() && Buffered() == old(Buffered()) + chunk
    {
      for k := 0 to |chunk|
        invariant nextRcvValidIndex == old(nextRcvValidIndex)
        invariant inboundData[..nextRcvValidIndex] == old(Buffered())
        invariant inboundData[nextRcvValidIndex..nextRcvValidIndex + k] == chunk[..k]
      {
        inboundData[nextRcvValidIndex + k] := chunk[k];
      }
      nextRcvValidIndex := nextRcvValidIndex + |chunk|;
      assert chunk[..|chunk|] == chunk;
    }

    /** The frame that starts at an index of the buffer. */
    method FrameAt(i: nat, n: nat) returns (frame: Bytes)
      requires Valid() && i + n <= nextRcvValidIndex
      ensures frame == Buffered()[i..i + n]
    {
      frame := inboundData[i..i + n];
      assert inboundData[..nextRcvValidIndex][i..i + n] == frame;
    }

    /** memcpy of len bytes to the front of the buffer; the two ranges must not overlap. */
    method CopyToFront(from: nat, len: nat)
      requires len <= from && from + len <= inboundData.Length
      modifies inboundData
      ensures inboundData[..len] == old(inboundData[from..from + len])
      ensures forall k :: len <= k < inboundData.Length ==> inboundData[k] == old(inboundData[k])
    {
      for k := 0 to len
        invariant inboundData[..k] == old(inboundData[from..from + k])
        invariant forall j :: k <= j < inboundData.Length ==> inboundData[j] == old(inboundData[j])
      {
        inboundData[k] := inboundData[from + k];
      }
    }

    /** The end of a receive callback that used the first consumed bytes, which leave less than a frame. */
    method Shift(consumed: nat, n: nat)
      requires Valid() && 0 < n <= consumed <= nextRcvValidIndex < consumed + n
      modifies this`nextRcvValidIndex, inboundData
      ensures Valid() && Buffered() == old(Buffered())[consumed..]
    {
      CopyToFront(consumed, nextRcvValidIndex - consumed);
      nextRcvValidIndex := nextRcvValidIndex - consumed;
      assert inboundData[..nextRcvValidIndex] == old(inboundData[..nextRcvValidIndex][consumed..]);
    }
  }
}
