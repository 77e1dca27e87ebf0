/** The wire formats of the multiplexed commands, each shown to be a lawful codec. */
module WireFormats {
  import opened Bytes
  import opened Framing

  // ---------- type (1) + id (w) + length (4) + payload ----------
  // The proxy uses w = 2, mount w = 4 and rsync w = 0.

  function FixedNext(w: nat, buf: bytes): Parsed {
    if |buf| < 5 + w then Incomplete
    else
      var len := ValueBE(buf[1 + w..5 + w]);
      if |buf| < 5 + w + len then Incomplete
      else Complete(Frame(buf[0], ValueBE(buf[1..1 + w]), buf[5 + w..5 + w + len]), 5 + w + len)
  }

  function FixedEncode(w: nat, fr: Frame): bytes {
    [fr.kind] + BytesBE(fr.id, w) + BytesBE(|fr.payload|, 4) + fr.payload
  }

  predicate FixedSendable(w: nat, fr: Frame) {
    fr.id < Pow256(w) && |fr.payload| < Pow256(4)
  }

  function Fixed(w: nat): Codec {
    Codec(buf => FixedNext(w, buf), fr => FixedEncode(w, fr), fr => FixedSendable(w, fr))
  }

  /** What follows does not show in a slice of what is already there. */
  lemma SliceOfPrefix(buf: bytes, more: bytes, i: nat, j: nat)
    requires i <= j <= |buf|
    ensures (buf + more)[i..j] == buf[i..j]
  {
  }

  lemma FixedStable(w: nat, buf: bytes, more: bytes)
    requires FixedNext(w, buf).Complete?
    ensures FixedNext(w, buf + more) == FixedNext(w, buf)
  {
    SliceOfPrefix(buf, more, 1 + w, 5 + w);
    SliceOfPrefix(buf, more, 1, 1 + w);
    SliceOfPrefix(buf, more, 5 + w, 5 + w + ValueBE(buf[1 + w..5 + w]));
  }

  /** Slices of a concatenation of four parts, the first a single byte. */
  lemma FourParts(k: byte, a: bytes, b: bytes, p: bytes)
    ensures var e := [k] + a + b + p; var n := 1 + |a|; var m := n + |b|;
            && e[0] == k && e[1..n] == a && e[n..m] == b && e[m..] == p
  {
  }

  lemma FixedRecognises(w: nat, fr: Frame)
    requires FixedSendable(w, fr)
    ensures FixedNext(w, FixedEncode(w, fr)) == Complete(fr, |FixedEncode(w, fr)|)
  {
    FourParts(fr.kind, BytesBE(fr.id, w), BytesBE(|fr.payload|, 4), fr.payload);
    ValueOfBytesBE(fr.id, w);
    ValueOfBytesBE(|fr.payload|, 4);
    var e := FixedEncode(w, fr);
    assert e[5 + w..5 + w + |fr.payload|] == e[5 + w..];
  }

  lemma FixedCuts(w: nat, buf: bytes)
    requires FixedNext(w, buf).Complete?
    ensures FixedSendable(w, FixedNext(w, buf).frame)
    ensures FixedEncode(w, FixedNext(w, buf).frame) == buf[..FixedNext(w, buf).size]
  {
    var id, len := buf[1..1 + w], buf[1 + w..5 + w];
    ValueBEBound(id);
    ValueBEBound(len);
    BytesOfValueBE(id);
    BytesOfValueBE(len);
    var payload := FixedNext(w, buf).frame.payload;
    assert buf[..5 + w + |payload|] == [buf[0]] + id + len + payload;
  }

  lemma FixedLawful(w: nat)
    ensures Lawful(Fixed(w))
  {
    var c := Fixed(w);
    forall buf ensures CutsWhatWasSent(c, buf) {
      if c.next(buf).Complete? { FixedCuts(w, buf); }
    }
    forall buf, more ensures Stable(c, buf, more) {
      if c.next(buf).Complete? { FixedStable(w, buf, more); }
    }
    forall fr ensures Recognises(c, fr) {
      if c.sendable(fr) { FixedRecognises(w, fr); }
    }
  }

  /** The bytes of a message of the proxy, of mount and of rsync. */
  lemma FixedLayout(kind: byte, id: nat, payload: bytes)
    requires |payload| < 0x1_0000_0000
    ensures id < 0x1_0000 ==>
              FixedEncode(2, Frame(kind, id, payload)) == [kind, id / 256, id % 256] + FourBytes(|payload|) + payload
    ensures id < 0x1_0000_0000 ==>
              FixedEncode(4, Frame(kind, id, payload)) == [kind] + FourBytes(id) + FourBytes(|payload|) + payload
    ensures FixedEncode(0, Frame(kind, 0, payload)) == [kind] + FourBytes(|payload|) + payload
  {
    FourBytesBE(|payload|);
    if id < 0x1_0000 {
      TwoBytes(id);
      assert [kind] + [id / 256, id % 256] == [kind, id / 256, id % 256];
    }
    if id < 0x1_0000_0000 {
      FourBytesBE(id);
    }
    assert [kind] + BytesBE(0, 0) == [kind];
  }

  // ---------- the tunnel: type (1) + channel (2) + a body that depends on the type ----------

  const TUNNEL_OPEN: byte := 1
  const TUNNEL_DATA: byte := 4

  function TunnelNext(buf: bytes): Parsed {
    if |buf| < 3 then Incomplete
    else if buf[0] == TUNNEL_DATA then
      if |buf| < 7 then Incomplete
      else
        var total := 7 + ValueBE(buf[3..7]);
        if |buf| < total then Incomplete else Complete(Frame(buf[0], ValueBE(buf[1..3]), buf[7..total]), total)
    else if buf[0] == TUNNEL_OPEN then
      if |buf| < 4 then Incomplete
      else
        var hostLength: nat := buf[3];
        var total := 6 + hostLength;
        // An undecodable host raises before the buffer is advanced, so the frame stays in front.
        if |buf| < total || !Utf8(buf[4..4 + hostLength]) then Incomplete
        else Complete(Frame(buf[0], ValueBE(buf[1..3]), buf[3..total]), total)
    else Complete(Frame(buf[0], ValueBE(buf[1..3]), []), 3)
  }

  predicate OpenBody(payload: bytes) {
    |payload| >= 3 && var hostLength: nat := payload[0]; |payload| == 3 + hostLength && Utf8(payload[1..1 + hostLength])
  }

  predicate TunnelSendable(fr: Frame) {
    && fr.id < Pow256(2)
    && (if fr.kind == TUNNEL_DATA then |fr.payload| < Pow256(4)
        else if fr.kind == TUNNEL_OPEN then OpenBody(fr.payload)
        else fr.payload == [])
  }

  function TunnelEncode(fr: Frame): bytes {
    [fr.kind] + BytesBE(fr.id, 2) + (if fr.kind == TUNNEL_DATA then BytesBE(|fr.payload|, 4) else []) + fr.payload
  }

  function TunnelCodec(): Codec {
    Codec(buf => TunnelNext(buf), fr => TunnelEncode(fr), fr => TunnelSendable(fr))
  }

  lemma TunnelStable(buf: bytes, more: bytes)
    requires TunnelNext(buf).Complete?
    ensures TunnelNext(buf + more) == TunnelNext(buf)
  {
    SliceOfPrefix(buf, more, 1, 3);
    if buf[0] == TUNNEL_DATA {
      SliceOfPrefix(buf, more, 3, 7);
      SliceOfPrefix(buf, more, 7, 7 + ValueBE(buf[3..7]));
    } else if buf[0] == TUNNEL_OPEN {
      var hostLength: nat := buf[3];
      SliceOfPrefix(buf, more, 3, 6 + hostLength);
      SliceOfPrefix(buf, more, 4, 4 + hostLength);
    }
  }

  lemma TunnelRecognises(fr: Frame)
    requires TunnelSendable(fr)
    ensures TunnelNext(TunnelEncode(fr)) == Complete(fr, |TunnelEncode(fr)|)
  {
    var e := TunnelEncode(fr);
    ValueOfBytesBE(fr.id, 2);
    if fr.kind == TUNNEL_DATA {
      FourParts(fr.kind, BytesBE(fr.id, 2), BytesBE(|fr.payload|, 4), fr.payload);
      ValueOfBytesBE(|fr.payload|, 4);
      assert e[7..7 + |fr.payload|] == e[7..];
    } else {
      FourParts(fr.kind, BytesBE(fr.id, 2), [], fr.payload);
      if fr.kind == TUNNEL_OPEN {
        var hostLength: nat := fr.payload[0];
        assert e[4..4 + hostLength] == fr.payload[1..1 + hostLength];
        assert e[3..6 + hostLength] == e[3..];
      }
    }
  }

  lemma TunnelCutsData(buf: bytes)
    requires TunnelNext(buf).Complete? && buf[0] == TUNNEL_DATA
    ensures CutsWhatWasSent(TunnelCodec(), buf)
  {
    var fr, len := TunnelNext(buf).frame, buf[3..7];
    HeaderIsFront(buf);
    ValueBEBound(len);
    BytesOfValueBE(len);
    ThreeSlices(buf, 3, 7, 7 + |fr.payload|);
    assert TunnelEncode(fr) == [buf[0]] + buf[1..3] + len + fr.payload;
  }

  lemma TunnelCutsOpen(buf: bytes)
    requires TunnelNext(buf).Complete? && buf[0] == TUNNEL_OPEN
    ensures CutsWhatWasSent(TunnelCodec(), buf)
  {
    var fr := TunnelNext(buf).frame;
    var hostLength: nat := buf[3];
    HeaderIsFront(buf);
    SliceOfSlice(buf, 3, 6 + hostLength, 1, 1 + hostLength);
    assert OpenBody(fr.payload);
    ThreeSlices(buf, 3, 3, 6 + hostLength);
    assert TunnelEncode(fr) == [buf[0]] + buf[1..3] + [] + fr.payload;
  }

  lemma SliceOfSlice(buf: bytes, i: nat, j: nat, a: nat, b: nat)
    requires i <= j <= |buf| && a <= b <= j - i
    ensures buf[i..j][a..b] == buf[i + a..i + b]
  {
    var s, t := buf[i..j][a..b], buf[i + a..i + b];
    forall k | 0 <= k < b - a ensures s[k] == t[k] {
      assert s[k] == buf[i..j][a + k] == buf[i + (a + k)];
    }
  }

  lemma ThreeSlices(buf: bytes, i: nat, j: nat, k: nat)
    requires i <= j <= k <= |buf|
    ensures buf[..i] + buf[i..j] + buf[j..k] == buf[..k]
  {
  }

  lemma TunnelCutsBare(buf: bytes)
    requires |buf| >= 3 && buf[0] != TUNNEL_DATA && buf[0] != TUNNEL_OPEN
    ensures CutsWhatWasSent(TunnelCodec(), buf)
  {
    var fr := TunnelNext(buf).frame;
    HeaderIsFront(buf);
    assert TunnelEncode(fr) == [buf[0]] + BytesBE(fr.id, 2) + [] + [];
    assert [buf[0]] + buf[1..3] + [] + [] == [buf[0]] + buf[1..3];
  }

  /** The three header bytes are the packed type and channel. */
  lemma HeaderIsFront(buf: bytes)
    requires |buf| >= 3
    ensures ValueBE(buf[1..3]) < Pow256(2) && BytesBE(ValueBE(buf[1..3]), 2) == buf[1..3]
    ensures [buf[0]] + buf[1..3] == buf[..3]
  {
    ValueBEBound(buf[1..3]);
    BytesOfValueBE(buf[1..3]);
  }

  lemma TunnelLawful()
    ensures Lawful(TunnelCodec())
  {
    var c := TunnelCodec();
    forall buf ensures CutsWhatWasSent(c, buf) {
      if c.next(buf).Complete? {
        if buf[0] == TUNNEL_DATA {
          TunnelCutsData(buf);
        } else if buf[0] == TUNNEL_OPEN {
          TunnelCutsOpen(buf);
        } else {
          TunnelCutsBare(buf);
        }
      }
    }
    forall buf, more ensures Stable(c, buf, more) {
      if c.next(buf).Complete? { TunnelStable(buf, more); }
    }
    forall fr ensures Recognises(c, fr) {
      if c.sendable(fr) { TunnelRecognises(fr); }
    }
  }

  // ---------- opening a tunnel channel ----------

  function OpenPayload(host: bytes, port: nat): bytes
    requires |host| < 256 && port < 0x1_0000
  {
    [|host|] + host + BytesBE(port, 2)
  }

  /** The bytes `open_channel` puts on the wire: a bare OPEN header, then the real message. */
  function OpenChannelBytes(id: nat, host: bytes, port: nat): bytes
    requires |host| < 256 && port < 0x1_0000
  {
    [TUNNEL_OPEN] + BytesBE(id, 2) + TunnelEncode(Frame(TUNNEL_OPEN, id, OpenPayload(host, port)))
  }

  /** The bytes of a tunnel message: an open ... */
  lemma TunnelOpenLayout(id: nat, host: bytes, port: nat)
    requires id < 0x1_0000 && |host| < 256 && port < 0x1_0000
    ensures TunnelEncode(Frame(1, id, OpenPayload(host, port)))
         == [1, id / 256, id % 256, |host|] + host + [port / 256, port % 256]
  {
    var head, address: bytes := [1, id / 256, id % 256], [|host|] + host + [port / 256, port % 256];
    TwoBytes(id);
    TwoBytes(port);
    TunnelParts(1, id, address);
    assert head + address == [1, id / 256, id % 256, |host|] + host + [port / 256, port % 256];
  }

  lemma TunnelParts(kind: byte, id: nat, payload: bytes)
    requires id < 0x1_0000 && kind != 4
    ensures TunnelEncode(Frame(kind, id, payload)) == [kind, id / 256, id % 256] + payload
  {
    TwoBytes(id);
    assert [kind] + [id / 256, id % 256] + [] == [kind, id / 256, id % 256];
  }

  /** ... data, and any other. */
  lemma TunnelLayout(id: nat, data: bytes, kind: byte)
    requires id < 0x1_0000 && |data| < 0x1_0000_0000 && kind !in {1, 4}
    ensures TunnelEncode(Frame(4, id, data)) == [4, id / 256, id % 256] + FourBytes(|data|) + data
    ensures TunnelEncode(Frame(kind, id, [])) == [kind, id / 256, id % 256]
  {
    TwoBytes(id);
    FourBytesBE(|data|);
    assert [4] + [id / 256, id % 256] == [4, id / 256, id % 256];
    TunnelParts(kind, id, []);
  }

  /** The message alone would arrive intact. */
  lemma TunnelOpenAlone(id: nat, host: bytes, port: nat)
    requires id < 0x1_0000 && |host| < 256 && Utf8(host) && port < 0x1_0000
    ensures var fr := Frame(TUNNEL_OPEN, id, OpenPayload(host, port));
            TunnelNext(TunnelEncode(fr)) == Complete(fr, |TunnelEncode(fr)|)
  {
    var fr := Frame(TUNNEL_OPEN, id, OpenPayload(host, port));
    Pow256Values();
    assert fr.payload[1..1 + |host|] == host;
    TunnelRecognises(fr);
  }

  /** The first seven bytes of an `open_channel` run. */
  lemma OpenChannelStart(id: nat, host: bytes, port: nat)
    requires id < 0x1_0000 && |host| < 256 && port < 0x1_0000
    ensures var e := OpenChannelBytes(id, host, port);
            |e| >= 7 && e[..7] == [1, id / 256, id % 256, 1, id / 256, id % 256, |host|]
  {
    TwoBytes(id);
  }

  lemma OneCharacter(h: byte)
    ensures Utf8([h]) <==> h < 0x80
  {
    assert [h][1..] == [];
  }

  lemma FrontSlices(e: bytes, h: byte, l: byte, length: byte)
    requires |e| >= 7 && e[..7] == [1, h, l, 1, h, l, length]
    ensures e[0] == e[3] == 1 && e[1..3] == [h, l] && e[4..5] == [h] && e[3..7] == [1, h, l, length]
  {
    var front: bytes := [1, h, l, 1, h, l, length];
    assert e == front + e[7..];
    SliceOfPrefix(front, e[7..], 1, 3);
    SliceOfPrefix(front, e[7..], 4, 5);
    SliceOfPrefix(front, e[7..], 3, 7);
  }

  lemma MisreadHost(e: bytes, id: nat, length: nat)
    requires id < 0x1_0000 && length < 256 && |e| >= 7
    requires e[..7] == [1, id / 256, id % 256, 1, id / 256, id % 256, length]
    ensures TunnelNext(e)
         == if id < 0x8000 then Complete(Frame(TUNNEL_OPEN, id, OpenPayload([id / 256], id % 256 * 256 + length)), 7)
            else Incomplete
  {
    var h: byte, l: byte := id / 256, id % 256;
    TwoBytes(id);
    OneCharacter(h);
    FrontSlices(e, h, l, length);
    HeaderAsPayload(h, l, length);
    if id < 0x8000 {
      assert Utf8(e[4..5]);
    }
  }

  lemma HeaderAsPayload(h: byte, l: byte, length: byte)
    ensures OpenPayload([h], l as int * 256 + length as int) == [1, h, l, length]
  {
    LastDigit(l, length);
    TwoBytes(l as int * 256 + length as int);
  }

  /** What the peer takes for the request: a one-byte host and a port of the low id byte and the host length. */
  function Misreading(id: nat, length: nat): Frame
    requires id < 0x1_0000 && length < 256
  {
    Frame(TUNNEL_OPEN, id, OpenPayload([id / 256], id % 256 * 256 + length))
  }

  /**
   * Behind the bare header the peer takes the second header for host and port, and parses
   * the real host and port as further messages.  From channel 0x8000 on that "host" is not
   * UTF-8, and the peer's parser never gets past it.
   */
  lemma TunnelOpenChannelIsMisread(id: nat, host: bytes, port: nat)
    requires id < 0x1_0000 && |host| < 256 && port < 0x1_0000
    ensures var e := OpenChannelBytes(id, host, port); var d := Drain(TunnelCodec(), host + BytesBE(port, 2));
            Drain(TunnelCodec(), e)
            == if id < 0x8000 then Drained([Misreading(id, |host|)] + d.frames, d.rest) else Drained([], e)
  {
    OpenChannelStart(id, host, port);
    OpenChannelTail(id, host, port);
    DrainOfMisread(OpenChannelBytes(id, host, port), id, |host|, host + BytesBE(port, 2));
  }

  lemma DrainOfMisread(e: bytes, id: nat, length: nat, tail: bytes)
    requires id < 0x1_0000 && length < 256 && |e| >= 7 && e[7..] == tail
    requires e[..7] == [1, id / 256, id % 256, 1, id / 256, id % 256, length]
    ensures var d := Drain(TunnelCodec(), tail);
            Drain(TunnelCodec(), e)
            == if id < 0x8000 then Drained([Misreading(id, length)] + d.frames, d.rest) else Drained([], e)
  {
    MisreadHost(e, id, length);
    if id < 0x8000 {
      DrainFirst(TunnelCodec(), e, Misreading(id, length), 7);
    }
  }

  lemma OpenChannelTail(id: nat, host: bytes, port: nat)
    requires |host| < 256 && port < 0x1_0000
    ensures var e := OpenChannelBytes(id, host, port); |e| >= 7 && e[7..] == host + BytesBE(port, 2)
  {
    var front := [TUNNEL_OPEN] + BytesBE(id, 2) + ([TUNNEL_OPEN] + BytesBE(id, 2)) + [|host|];
    assert OpenChannelBytes(id, host, port) == front + (host + BytesBE(port, 2));
  }

  /** The misreading is the request for these requests only. */
  lemma MisreadingIsRequest(id: nat, host: bytes, port: nat)
    requires id < 0x1_0000 && |host| < 256 && port < 0x1_0000
    ensures Misreading(id, |host|) == Frame(TUNNEL_OPEN, id, OpenPayload(host, port))
       <==> host == [id / 256] && port == id % 256 * 256 + 1
  {
    var read, sent := Misreading(id, |host|).payload, OpenPayload(host, port);
    if read == sent {
      assert |host| == 1;
      assert read[1] == sent[1] == host[0];
      TwoBytes(port);
      TwoBytes(id % 256 * 256 + 1);
      assert read[2..] == BytesBE(id % 256 * 256 + 1, 2) && sent[2..] == BytesBE(port, 2);
    }
  }

  /**
   * The request reaches the peer's parser as it was sent if and only if the channel is below
   * 0x8000, the host is the one byte id / 256, and the port is id % 256 * 256 + 1.
   */
  lemma TunnelOpenChannelArrivesExactlyWhen(id: nat, host: bytes, port: nat)
    requires id < 0x1_0000 && |host| < 256 && port < 0x1_0000
    ensures Frame(TUNNEL_OPEN, id, OpenPayload(host, port))
         in Drain(TunnelCodec(), OpenChannelBytes(id, host, port)).frames
       <==> id < 0x8000 && host == [id / 256] && port == id % 256 * 256 + 1
  {
    var request, tail := Frame(TUNNEL_OPEN, id, OpenPayload(host, port)), host + BytesBE(port, 2);
    TunnelOpenChannelIsMisread(id, host, port);
    MisreadingIsRequest(id, host, port);
    TunnelLawful();
    if request in Drain(TunnelCodec(), tail).frames {
      FramesFit(TunnelCodec(), tail, request);
      assert false;
    }
  }

  /** The first channel's request for "ab", port 80, is not among what the peer parses. */
  lemma TunnelFirstChannelIsLost()
    ensures Frame(TUNNEL_OPEN, 1, OpenPayload([97, 98], 80))
         !in Drain(TunnelCodec(), OpenChannelBytes(1, [97, 98], 80)).frames
  {
    TunnelOpenChannelArrivesExactlyWhen(1, [97, 98], 80);
  }
}
