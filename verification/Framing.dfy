/**
 * Framing over a byte stream: the sender concatenates frames, the receiver
 * appends whatever arrives to a buffer and cuts complete frames off its front.
 * Everything here holds for any lawful codec; WireFormats supplies the codecs of
 * the proxy, mount, rsync and tunnel commands.
 */
module Framing {
  import opened Bytes

  datatype Frame = Frame(kind: byte, id: nat, payload: bytes)

  datatype Parsed = Incomplete | Complete(frame: Frame, size: nat)

  datatype Drained = Drained(frames: seq<Frame>, rest: bytes)

  /**
   * next: the frame at the front of a buffer, if it is there in full.
   * encode: the bytes a sender writes for a frame.
   * sendable: the frames a sender can write; outside of it packing raises.
   */
  datatype Codec = Codec(next: bytes -> Parsed, encode: Frame -> bytes, sendable: Frame -> bool)

  // ---------- laws of a codec ----------

  /** A complete frame takes up some of the buffer, and is exactly the bytes it is cut from. */
  predicate CutsWhatWasSent(c: Codec, buf: bytes) {
    var p := c.next(buf);
    p.Complete? ==> 0 < p.size <= |buf| && c.sendable(p.frame) && c.encode(p.frame) == buf[..p.size]
  }

  /** A complete frame is recognised the same way whatever follows it. */
  predicate Stable(c: Codec, buf: bytes, more: bytes) {
    c.next(buf).Complete? ==> c.next(buf + more) == c.next(buf)
  }

  /** What was sent is recognised. */
  predicate Recognises(c: Codec, fr: Frame) {
    c.sendable(fr) ==> c.next(c.encode(fr)) == Complete(fr, |c.encode(fr)|)
  }

  ghost predicate Lawful(c: Codec) {
    && (forall buf :: CutsWhatWasSent(c, buf))
    && (forall buf, more :: Stable(c, buf, more))
    && (forall fr :: Recognises(c, fr))
    && c.next([]).Incomplete?
  }

  // ---------- streams ----------

  /** All complete frames of the buffer in order, and the bytes that stay behind. */
  function Drain(c: Codec, buf: bytes): Drained
    decreases |buf|
  {
    var p := c.next(buf);
    if p.Incomplete? || p.size == 0 || |buf| < p.size then Drained([], buf)
    else
      var d := Drain(c, buf[p.size..]);
      Drained([p.frame] + d.frames, d.rest)
  }

  function EncodeAll(c: Codec, frames: seq<Frame>): bytes {
    if frames == [] then [] else c.encode(frames[0]) + EncodeAll(c, frames[1..])
  }

  predicate AllSendable(c: Codec, frames: seq<Frame>) {
    forall i :: 0 <= i < |frames| ==> c.sendable(frames[i])
  }

  lemma DrainFirst(c: Codec, buf: bytes, fr: Frame, size: nat)
    requires c.next(buf) == Complete(fr, size) && 0 < size <= |buf|
    ensures Drain(c, buf) == Drained([fr] + Drain(c, buf[size..]).frames, Drain(c, buf[size..]).rest)
  {
  }

  /** Draining in two instalments equals draining at once. */
  lemma {:induction false} DrainConcat(c: Codec, a: bytes, b: bytes)
    requires Lawful(c)
    ensures var d := Drain(c, a); var e := Drain(c, d.rest + b);
            Drain(c, a + b) == Drained(d.frames + e.frames, e.rest)
    decreases |a|
  {
    assert CutsWhatWasSent(c, a) && Stable(c, a, b);
    var p := c.next(a);
    if p.Incomplete? {
      assert Drain(c, a).frames + Drain(c, a + b).frames == Drain(c, a + b).frames;
    } else {
      DrainConcat(c, a[p.size..], b);
      assert (a + b)[p.size..] == a[p.size..] + b;
      var d := Drain(c, a[p.size..]);
      DrainFirst(c, a, p.frame, p.size);
      DrainFirst(c, a + b, p.frame, p.size);
      Associative([p.frame], d.frames, Drain(c, d.rest + b).frames);
    }
  }

  /** Feeding chunks one by one into a buffer that is drained after each. */
  function Feed(c: Codec, buf: bytes, chunks: seq<bytes>): Drained
    decreases |chunks|
  {
    if chunks == [] then Drained([], buf)
    else
      var d := Drain(c, buf + chunks[0]);
      var e := Feed(c, d.rest, chunks[1..]);
      Drained(d.frames + e.frames, e.rest)
  }

  lemma {:induction false} RestIncomplete(c: Codec, buf: bytes)
    requires Lawful(c)
    ensures c.next(Drain(c, buf).rest).Incomplete?
    decreases |buf|
  {
    assert CutsWhatWasSent(c, buf);
    var p := c.next(buf);
    if p.Complete? {
      RestIncomplete(c, buf[p.size..]);
    }
  }

  lemma {:induction false} FeedIsDrain(c: Codec, buf: bytes, chunks: seq<bytes>)
    requires Lawful(c) && c.next(buf).Incomplete?
    ensures Feed(c, buf, chunks) == Drain(c, buf + Flatten(chunks))
    decreases |chunks|
  {
    if chunks == [] {
      assert buf + Flatten(chunks) == buf;
    } else {
      var d := Drain(c, buf + chunks[0]);
      RestIncomplete(c, buf + chunks[0]);
      FeedIsDrain(c, d.rest, chunks[1..]);
      DrainConcat(c, buf + chunks[0], Flatten(chunks[1..]));
      assert buf + Flatten(chunks) == buf + chunks[0] + Flatten(chunks[1..]);
    }
  }

  /** However a byte string is cut into chunks, the same frames come out and the same bytes stay buffered. */
  lemma ChunkingIsInvisible(c: Codec, chunks: seq<bytes>, chunks': seq<bytes>)
    requires Lawful(c) && Flatten(chunks) == Flatten(chunks')
    ensures Feed(c, [], chunks) == Feed(c, [], chunks') == Drain(c, Flatten(chunks))
  {
    FeedIsDrain(c, [], chunks);
    FeedIsDrain(c, [], chunks');
    assert [] + Flatten(chunks) == Flatten(chunks);
  }

  /** No byte is lost or made up: the frames and the remainder spell the input. */
  lemma {:induction false} DrainLossless(c: Codec, buf: bytes)
    requires Lawful(c)
    ensures AllSendable(c, Drain(c, buf).frames)
    ensures EncodeAll(c, Drain(c, buf).frames) + Drain(c, buf).rest == buf
    decreases |buf|
  {
    assert CutsWhatWasSent(c, buf);
    var p := c.next(buf);
    if p.Complete? {
      var head, tail := buf[..p.size], buf[p.size..];
      DrainLossless(c, tail);
      var d := Drain(c, tail);
      EncodeFirst(c, p.frame, d.frames);
      Rejoin(buf, p.size, EncodeAll(c, d.frames), d.rest);
      assert Drain(c, buf) == Drained([p.frame] + d.frames, d.rest);
    }
  }

  lemma Rejoin(buf: bytes, n: nat, a: bytes, b: bytes)
    requires n <= |buf| && a + b == buf[n..]
    ensures buf[..n] + a + b == buf
  {
    assert buf[..n] + a + b == buf[..n] + (a + b);
  }

  lemma EncodeFirst(c: Codec, f: Frame, frames: seq<Frame>)
    ensures EncodeAll(c, [f] + frames) == c.encode(f) + EncodeAll(c, frames)
  {
    assert ([f] + frames)[1..] == frames;
  }

  lemma {:induction false} MemberFits(c: Codec, frames: seq<Frame>, fr: Frame)
    requires fr in frames
    ensures |c.encode(fr)| <= |EncodeAll(c, frames)|
  {
    if fr != frames[0] {
      MemberFits(c, frames[1..], fr);
    }
  }

  /** A frame cut from a buffer is no longer than the buffer. */
  lemma FramesFit(c: Codec, buf: bytes, fr: Frame)
    requires Lawful(c) && fr in Drain(c, buf).frames
    ensures |c.encode(fr)| <= |buf|
  {
    DrainLossless(c, buf);
    MemberFits(c, Drain(c, buf).frames, fr);
  }

  lemma {:induction false} EncodeAllAppend(c: Codec, a: seq<Frame>, b: seq<Frame>)
    ensures EncodeAll(c, a + b) == EncodeAll(c, a) + EncodeAll(c, b)
  {
    if a == [] {
      assert a + b == b;
    } else {
      EncodeAllAppend(c, a[1..], b);
      assert (a + b)[1..] == a[1..] + b;
    }
  }

  /** A list of well-formed frames parses back to itself, with whatever follows left to parse. */
  lemma {:induction false} DrainOfEncodeAll(c: Codec, frames: seq<Frame>, tail: bytes)
    requires Lawful(c) && AllSendable(c, frames)
    ensures Drain(c, EncodeAll(c, frames) + tail)
         == Drained(frames + Drain(c, tail).frames, Drain(c, tail).rest)
    decreases |frames|
  {
    if frames == [] {
      assert EncodeAll(c, frames) + tail == tail;
      assert frames + Drain(c, tail).frames == Drain(c, tail).frames;
    } else {
      var e := c.encode(frames[0]);
      var more := EncodeAll(c, frames[1..]) + tail;
      assert Recognises(c, frames[0]) && CutsWhatWasSent(c, e) && Stable(c, e, more);
      assert EncodeAll(c, frames) + tail == e + more;
      assert (e + more)[|e|..] == more;
      DrainOfEncodeAll(c, frames[1..], tail);
      assert frames == [frames[0]] + frames[1..];
    }
  }

  lemma RoundTrip(c: Codec, frames: seq<Frame>)
    requires Lawful(c) && AllSendable(c, frames)
    ensures Drain(c, EncodeAll(c, frames)) == Drained(frames, [])
  {
    DrainOfEncodeAll(c, frames, []);
    assert EncodeAll(c, frames) + [] == EncodeAll(c, frames);
  }

  // ---------- a link in flight ----------

  /** The frames still on their way: what the receive buffer and the wire spell together. */
  function InFlight(c: Codec, buffer: bytes, wire: bytes): seq<Frame> {
    Drain(c, buffer + wire).frames
  }

  /** Nothing but whole frames is on its way, and the buffer holds no complete one. */
  predicate LinkOk(c: Codec, buffer: bytes, wire: bytes) {
    c.next(buffer).Incomplete? && Drain(c, buffer + wire).rest == []
  }

  /** Writing a frame at the sending end puts it behind everything in flight. */
  lemma SendOnLink(c: Codec, buffer: bytes, wire: bytes, frames: seq<Frame>)
    requires Lawful(c) && LinkOk(c, buffer, wire) && AllSendable(c, frames)
    ensures LinkOk(c, buffer, wire + EncodeAll(c, frames))
    ensures InFlight(c, buffer, wire + EncodeAll(c, frames)) == InFlight(c, buffer, wire) + frames
  {
    var e := EncodeAll(c, frames);
    DrainConcat(c, buffer + wire, e);
    assert buffer + (wire + e) == (buffer + wire) + e;
    assert [] + e == e;
    RoundTrip(c, frames);
  }

  /** Delivering any chunk hands over the first frames in flight, and keeps the rest in flight. */
  lemma DeliverOnLink(c: Codec, buffer: bytes, wire: bytes, n: nat)
    requires Lawful(c) && LinkOk(c, buffer, wire) && n <= |wire|
    ensures var d := Drain(c, buffer + wire[..n]);
            && LinkOk(c, d.rest, wire[n..])
            && InFlight(c, buffer, wire) == d.frames + InFlight(c, d.rest, wire[n..])
  {
    assert buffer + wire == buffer + wire[..n] + wire[n..];
    DrainConcat(c, buffer + wire[..n], wire[n..]);
    RestIncomplete(c, buffer + wire[..n]);
  }

  lemma EmptyLink(c: Codec)
    requires Lawful(c)
    ensures LinkOk(c, [], []) && InFlight(c, [], []) == []
  {
    var empty: bytes := [];
    assert empty + empty == empty;
  }

  // ---------- the receiving end ----------

  /** `_buffer` with `_on_data` and the `_process_buffer` loop; dispatch is left to the caller. */
  class FrameReader {
    const codec: Codec
    var buffer: bytes

    constructor (codec: Codec)
      ensures this.codec == codec && buffer == []
    {
      this.codec := codec;
      buffer := [];
    }

    method OnData(data: bytes) returns (frames: seq<Frame>)
      requires Lawful(codec)
      modifies this
      ensures Drained(frames, buffer) == Drain(codec, old(buffer) + data)
    {
      buffer := buffer + data;
      frames := [];
      ghost var all := Drain(codec, buffer);
      while codec.next(buffer).Complete?
        invariant all == Drained(frames + Drain(codec, buffer).frames, Drain(codec, buffer).rest)
        decreases |buffer|
      {
        assert CutsWhatWasSent(codec, buffer);
        var p := codec.next(buffer);
        ghost var d := Drain(codec, buffer[p.size..]);
        assert frames + ([p.frame] + d.frames) == (frames + [p.frame]) + d.frames;
        frames, buffer := frames + [p.frame], buffer[p.size..];
      }
    }
  }
}
