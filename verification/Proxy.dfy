/**
 * The proxy's multiplexer: one `ProxyProtocol` object at each end of the wormhole,
 * a SOCKS client behind the one and target sockets behind the other.
 */
module Proxy {
  import opened Bytes
  import opened Framing
  import opened WireFormats

  const MSG_CONNECT: byte := 1
  const MSG_CONNECT_OK: byte := 2
  const MSG_CONNECT_FAIL: byte := 3
  const MSG_DATA: byte := 4
  const MSG_CLOSE: byte := 5

  const ID_LIMIT := 0x1_0000
  const READ_LIMIT := 4096

  datatype Address = Address(host: bytes, port: nat)

  /** What `connect` waits on. */
  datatype Future = Waiting | Answered(ok: bool)

  /** An entry of `_channels`; "pending" is set on the connecting side only. */
  datatype Channel = Channel(pending: bool, hasWriter: bool)

  /** A scheduled `_handle_connect`. */
  datatype Task = Task(id: nat, payload: bytes)

  /**
   * The protocol object.  `written` holds what each channel's writer was given,
   * `dropped` what arrived for a channel that had no writer yet.
   */
  datatype Peer = Peer(channels: map<nat, Channel>, futures: map<nat, Future>, nextId: nat, tasks: seq<Task>,
                       written: map<nat, bytes>, dropped: map<nat, bytes>)

  const NEW_PEER := Peer(map[], map[], 1, [], map[], map[])

  /** The bytes logged for a channel, none if there is no log. */
  function At(log: map<nat, bytes>, c: nat): bytes {
    if c in log then log[c] else []
  }

  // ---------- what each handler does ----------

  function Answer(p: Peer, c: nat, ok: bool): Peer {
    if c in p.channels && p.channels[c].pending && c in p.futures && p.futures[c] == Waiting
    then p.(futures := p.futures[c := Answered(ok)])
    else p
  }

  function HandleData(p: Peer, c: nat, data: bytes): Peer {
    if c !in p.channels then p
    else if p.channels[c].hasWriter then p.(written := p.written[c := At(p.written, c) + data])
    else p.(dropped := p.dropped[c := At(p.dropped, c) + data])
  }

  function Forget(p: Peer, c: nat): Peer {
    p.(channels := p.channels - {c})
  }

  /** One iteration of the dispatch in `_process_buffer`. */
  function Handle(p: Peer, f: Frame): Peer {
    if f.kind == MSG_CONNECT then p.(tasks := p.tasks + [Task(f.id, f.payload)])
    else if f.kind == MSG_CONNECT_OK then Answer(p, f.id, true)
    else if f.kind == MSG_CONNECT_FAIL then Answer(p, f.id, false)
    else if f.kind == MSG_DATA then HandleData(p, f.id, f.payload)
    else if f.kind == MSG_CLOSE then Forget(p, f.id)
    else p
  }

  function HandleAll(p: Peer, frames: seq<Frame>): Peer
    decreases |frames|
  {
    if frames == [] then p else HandleAll(Handle(p, frames[0]), frames[1..])
  }

  lemma {:induction false} HandleAllAppend(p: Peer, a: seq<Frame>, b: seq<Frame>)
    ensures HandleAll(p, a + b) == HandleAll(HandleAll(p, a), b)
    decreases |a|
  {
    if a == [] {
      assert a + b == b;
    } else {
      HandleAllAppend(Handle(p, a[0]), a[1..], b);
      assert (a + b)[1..] == a[1..] + b;
    }
  }

  datatype Sent = Sent(peer: Peer, frames: seq<Frame>)

  /** The CONNECT payload: host length (1) + host + port (2). */
  predicate Packable(address: Address) {
    |address.host| < 256 && address.port < 0x1_0000
  }

  function ConnectPayload(address: Address): bytes
    requires Packable(address)
  {
    OpenPayload(address.host, address.port)
  }

  function ParseConnect(payload: bytes): Option<Address> {
    if |payload| < 3 then None
    else
      var hostLength: nat := payload[0];
      if |payload| < 3 + hostLength then None
      else Some(Address(payload[1..1 + hostLength], ValueBE(payload[1 + hostLength..3 + hostLength])))
  }

  /** `connect` up to its await.  Packing the id or the host may raise after the channel was registered. */
  function Connect(p: Peer, address: Address): Sent {
    var id := p.nextId;
    var p' := p.(nextId := id + 1,
                 channels := p.channels[id := Channel(true, false)],
                 futures := p.futures[id := Waiting]);
    if Packable(address) && id < ID_LIMIT
    then Sent(p', [Frame(MSG_CONNECT, id, ConnectPayload(address))])
    else Sent(p', [])
  }

  /** `_handle_connect`; `reachable` is the outcome of opening the connection. */
  function RunTask(p: Peer, t: Task, reachable: bool): Sent {
    match ParseConnect(t.payload)
    case None => Sent(p, [Frame(MSG_CONNECT_FAIL, t.id, [])])
    case Some(address) =>
      // An undecodable host raises out of the task before anything is sent.
      if !Utf8(address.host) then Sent(p, [])
      else if reachable then
        Sent(p.(channels := p.channels[t.id := Channel(false, true)]), [Frame(MSG_CONNECT_OK, t.id, [])])
      else Sent(p, [Frame(MSG_CONNECT_FAIL, t.id, [])])
  }

  /** One read of a forwarding loop, on either side. */
  function Forward(c: nat, data: bytes): Frame { Frame(MSG_DATA, c, data) }

  /** The end of a forwarding loop, on either side. */
  function EndForward(p: Peer, c: nat): Sent {
    Sent(Forget(p, c), [Frame(MSG_CLOSE, c, [])])
  }

  /** The peer dials what was asked for. */
  lemma ParseOfConnectPayload(address: Address)
    requires Packable(address)
    ensures ParseConnect(ConnectPayload(address)) == Some(address)
  {
    var payload := ConnectPayload(address);
    assert payload[1..1 + |address.host|] == address.host;
    assert payload[1 + |address.host|..3 + |address.host|] == BytesBE(address.port, 2);
    Pow256Values();
    ValueOfBytesBE(address.port, 2);
  }

  // ---------- the bytes on the wire ----------

  lemma OneOnTheWire(f: Frame)
    requires f.id < ID_LIMIT && |f.payload| < 0x1_0000
    ensures var n := |f.payload|;
            EncodeAll(Fixed(2), [f]) == [f.kind, f.id / 256, f.id % 256, 0, 0, n / 256, n % 256] + f.payload
  {
    var n := |f.payload|;
    FixedLayout(f.kind, f.id, f.payload);
    assert FourBytes(n) == [0, 0, n / 256, n % 256];
    assert [f.kind, f.id / 256, f.id % 256] + FourBytes(n) == [f.kind, f.id / 256, f.id % 256, 0, 0, n / 256, n % 256];
    assert EncodeAll(Fixed(2), [f]) == FixedEncode(2, f) + [];
  }

  /** What `connect` puts on the wire, byte by byte. */
  lemma ConnectOnTheWire(p: Peer, host: bytes, port: nat)
    requires |host| < 256 && port < 0x1_0000 && p.nextId < ID_LIMIT
    ensures var id, n := p.nextId, |host| + 3;
            EncodeAll(Fixed(2), Connect(p, Address(host, port)).frames)
            == [1, id / 256, id % 256, 0, 0, n / 256, n % 256, |host|] + host + [port / 256, port % 256]
  {
    var id, n, payload := p.nextId, |host| + 3, ConnectPayload(Address(host, port));
    OneOnTheWire(Frame(MSG_CONNECT, id, payload));
    TwoBytes(port);
    HostBehindHead([1, id / 256, id % 256, 0, 0, n / 256, n % 256], |host|, host, [port / 256, port % 256]);
  }

  lemma HostBehindHead(head: bytes, n: byte, host: bytes, port: bytes)
    requires |head| == 7
    ensures head + ([n] + host + port) == [head[0], head[1], head[2], head[3], head[4], head[5], head[6], n] + host + port
  {
  }

  lemma ReplyOnTheWire(kind: byte, id: nat)
    requires id < ID_LIMIT
    ensures EncodeAll(Fixed(2), [Frame(kind, id, [])]) == [kind, id / 256, id % 256, 0, 0, 0, 0]
  {
    var head := [kind, id / 256, id % 256, 0, 0, 0, 0];
    OneOnTheWire(Frame(kind, id, []));
    assert head + [] == head;
  }

  lemma PayloadIsRead(host: bytes, port: nat, more: bytes)
    requires |host| < 256 && port < 0x1_0000
    ensures ParseConnect([|host|] + host + [port / 256, port % 256] + more) == Some(Address(host, port))
  {
    var payload := [|host|] + host + [port / 256, port % 256] + more;
    assert payload[1..1 + |host|] == host;
    assert payload[1 + |host|..3 + |host|] == [port / 256, port % 256];
    TwoBytes(port);
  }

  /** A request that is there in full, whatever follows it: the address dialled, and the reply on the wire. */
  lemma ConnectIsAnswered(p: Peer, id: nat, host: bytes, port: nat, more: bytes, reachable: bool)
    requires |host| < 256 && port < 0x1_0000 && id < ID_LIMIT
    ensures var t := Task(id, [|host|] + host + [port / 256, port % 256] + more); var s := RunTask(p, t, reachable);
            && ParseConnect(t.payload) == Some(Address(host, port))
            && EncodeAll(Fixed(2), s.frames)
               == (if !Utf8(host) then [] else [if reachable then 2 else 3, id / 256, id % 256, 0, 0, 0, 0])
            && s.peer == if Utf8(host) && reachable
                         then p.(channels := p.channels[id := Channel(false, true)]) else p
  {
    PayloadIsRead(host, port, more);
    ReplyOnTheWire(if reachable then 2 else 3, id);
  }

  /** A request that is cut short fails, and nothing is dialled. */
  lemma ShortConnectFails(p: Peer, id: nat, payload: bytes, reachable: bool)
    requires id < ID_LIMIT && (payload == [] || |payload| - 3 < payload[0])
    ensures var s := RunTask(p, Task(id, payload), reachable);
            && ParseConnect(payload) == None && s.peer == p
            && EncodeAll(Fixed(2), s.frames) == [3, id / 256, id % 256, 0, 0, 0, 0]
  {
    ReplyOnTheWire(3, id);
  }

  // ---------- the object itself ----------

  class ProxyProtocol {
    var channels: map<nat, Channel>
    var futures: map<nat, Future>
    var nextId: nat
    var tasks: seq<Task>
    var written: map<nat, bytes>
    var dropped: map<nat, bytes>
    var buffer: bytes
    var wire: bytes
    const codec: Codec

    ghost function Value(): Peer
      reads this
    {
      Peer(channels, futures, nextId, tasks, written, dropped)
    }

    constructor (codec: Codec)
      ensures Value() == NEW_PEER && buffer == [] && wire == [] && this.codec == codec
    {
      channels, futures, nextId, tasks := map[], map[], 1, [];
      written, dropped, buffer, wire := map[], map[], [], [];
      this.codec := codec;
    }

    /** Packs and sends one frame; false when packing raises. */
    method SendMessage(f: Frame) returns (ok: bool)
      modifies this`wire
      ensures ok == codec.sendable(f)
      ensures wire == if ok then old(wire) + codec.encode(f) else old(wire)
    {
      ok := codec.sendable(f);
      if ok {
        wire := wire + codec.encode(f);
      }
    }

    method HandleFrame(f: Frame)
      modifies this`channels, this`futures, this`tasks, this`written, this`dropped
      ensures Value() == Handle(old(Value()), f)
    {
      var c := f.id;
      if f.kind == MSG_CONNECT {
        tasks := tasks + [Task(c, f.payload)];
      } else if f.kind == MSG_CONNECT_OK || f.kind == MSG_CONNECT_FAIL {
        if c in channels && channels[c].pending && c in futures && futures[c] == Waiting {
          futures := futures[c := Answered(f.kind == MSG_CONNECT_OK)];
        }
      } else if f.kind == MSG_DATA {
        if c in channels {
          if channels[c].hasWriter {
            written := written[c := At(written, c) + f.payload];
          } else {
            dropped := dropped[c := At(dropped, c) + f.payload];
          }
        }
      } else if f.kind == MSG_CLOSE {
        channels := channels - {c};
      }
    }

    /** `_on_data`: every complete frame is handled in order, the rest stays buffered. */
    method OnData(data: bytes)
      requires Lawful(codec)
      modifies this
      ensures var d := Drain(codec, old(buffer) + data);
              Value() == HandleAll(old(Value()), d.frames) && buffer == d.rest && wire == old(wire)
    {
      buffer := buffer + data;
      ghost var all := Drain(codec, buffer);
      while codec.next(buffer).Complete?
        invariant wire == old(wire) && all.rest == Drain(codec, buffer).rest
        invariant HandleAll(Value(), Drain(codec, buffer).frames) == HandleAll(old(Value()), all.frames)
        decreases |buffer|
      {
        assert CutsWhatWasSent(codec, buffer);
        var p := codec.next(buffer);
        ghost var d := Drain(codec, buffer);
        assert d.frames[1..] == Drain(codec, buffer[p.size..]).frames;
        buffer := buffer[p.size..];
        HandleFrame(p.frame);
      }
    }

    method StartConnect(address: Address) returns (id: nat, ok: bool)
      requires codec == Fixed(2)
      modifies this
      ensures var s := Connect(old(Value()), address);
              Value() == s.peer && wire == old(wire) + EncodeAll(codec, s.frames) && ok == (s.frames != [])
      ensures id == old(nextId) && buffer == old(buffer)
      ensures ok <==> |address.host| < 256 && address.port < 0x1_0000 && id < 0x1_0000
      ensures nextId == id + 1 && channels == old(channels)[id := Channel(true, false)]
      ensures futures == old(futures)[id := Waiting]
    {
      id := nextId;
      nextId := nextId + 1;
      channels := channels[id := Channel(true, false)];
      futures := futures[id := Waiting];
      Pow256Values();
      ok := false;
      if Packable(address) {
        ok := SendMessage(Frame(MSG_CONNECT, id, ConnectPayload(address)));
      }
    }

    method HandleConnect(t: Task, reachable: bool)
      requires codec == Fixed(2) && t.id < ID_LIMIT
      modifies this`channels, this`wire
      ensures var s := RunTask(old(Value()), t, reachable);
              Value() == s.peer && wire == old(wire) + EncodeAll(codec, s.frames)
    {
      Pow256Values();
      var address := ParseConnect(t.payload);
      if address == None {
        var _ := SendMessage(Frame(MSG_CONNECT_FAIL, t.id, []));
      } else if Utf8(address.value.host) {
        if reachable {
          channels := channels[t.id := Channel(false, true)];
        }
        var _ := SendMessage(Frame(if reachable then MSG_CONNECT_OK else MSG_CONNECT_FAIL, t.id, []));
      }
    }

    method FinishForward(c: nat)
      requires codec == Fixed(2) && c < ID_LIMIT
      modifies this`channels, this`wire
      ensures var s := EndForward(old(Value()), c);
              Value() == s.peer && wire == old(wire) + EncodeAll(codec, s.frames)
    {
      Pow256Values();
      var _ := SendMessage(Frame(MSG_CLOSE, c, []));
      channels := channels - {c};
    }
  }
}
