/**
 * Dilation: subchannels multiplexed over one ordered message channel.  A record is
 * type (1) + subchannel id (4) + data, encrypted; the channel delivers whole messages.
 */
module Dilation {
  import opened Bytes

  const OPEN: byte := 1
  const DATA: byte := 2
  const CLOSE: byte := 3
  const ACK: byte := 4

  const ID_LIMIT := 0x1_0000_0000

  // ---------- records ----------

  datatype Record = Record(kind: byte, id: nat, data: bytes)

  /** `_sendRecord`: setUint32 keeps the id modulo 2^32. */
  function EncodeRecord(r: Record): bytes {
    [r.kind] + BytesBE(r.id % ID_LIMIT, 4) + r.data
  }

  /** `_parseRecord`: None for null, and where reading an ACK's number throws. */
  function ParseRecord(m: bytes): Option<Record> {
    if |m| < 5 || (m[0] == ACK && |m| < 9) then None
    else Some(Record(m[0], ValueBE(m[1..5]), m[5..]))
  }

  /** Records survive the wire exactly when their id fits and an ACK carries its number. */
  lemma RecordRoundTrip(r: Record)
    ensures ParseRecord(EncodeRecord(r)) == Some(r) <==> r.id < ID_LIMIT && (r.kind == ACK ==> |r.data| >= 4)
  {
    var m := EncodeRecord(r);
    Pow256Values();
    ValueOfBytesBE(r.id % ID_LIMIT, 4);
    assert m[1..5] == BytesBE(r.id % ID_LIMIT, 4);
    assert m[5..] == r.data;
  }

  /** The bytes of a record. */
  lemma RecordLayout(r: Record)
    ensures EncodeRecord(r) == [r.kind] + FourBytes(r.id % 0x1_0000_0000) + r.data
  {
    FourBytesBE(r.id % ID_LIMIT);
  }

  // ---------- subchannels ----------

  /**
   * A `Subchannel`: `handed` is everything `_receiveData` got, `given` what went to
   * `onData`, `read` what `read()` returned; `sent` is what was sent on it.
   */
  datatype Sub = Sub(isOpen: bool, hasHandler: bool, sent: seq<bytes>, recvSeqnum: nat, buffer: seq<bytes>,
                     handed: seq<bytes>, given: seq<bytes>, read: seq<bytes>)

  const NEW_SUB := Sub(true, false, [], 0, [], [], [], [])

  function ReceiveData(s: Sub, data: bytes): Sub {
    var t := s.(recvSeqnum := s.recvSeqnum + 1, handed := s.handed + [data]);
    if s.hasHandler then t.(given := s.given + [data]) else t.(buffer := s.buffer + [data])
  }

  function ReadBuffered(s: Sub): Sub {
    if s.buffer == [] then s else s.(buffer := s.buffer[1..], read := s.read + [s.buffer[0]])
  }

  /** What an application does with a subchannel it holds, besides sending and closing. */
  datatype Use = SetHandler(on: bool) | ReadOne

  function Apply(u: Use, s: Sub): Sub {
    match u
    case SetHandler(on) => s.(hasHandler := on)
    case ReadOne => ReadBuffered(s)
  }

  /** The counter counts every record once, and no record is lost between buffer, reader and handler. */
  predicate SubOk(s: Sub) {
    && s.recvSeqnum == |s.handed| == |s.given| + |s.read| + |s.buffer|
    && multiset(s.handed) == multiset(s.given) + multiset(s.read) + multiset(s.buffer)
    && (s.given == [] ==> s.handed == s.read + s.buffer)
    && (s.read + s.buffer == [] ==> s.handed == s.given)
  }

  lemma ReceiveDataOk(s: Sub, data: bytes)
    requires SubOk(s)
    ensures SubOk(ReceiveData(s, data))
  {
    assert s.given == [] ==> s.read + (s.buffer + [data]) == s.read + s.buffer + [data];
  }

  lemma ReadBufferedOk(s: Sub)
    requires SubOk(s)
    ensures SubOk(ReadBuffered(s))
  {
    if s.buffer != [] {
      assert s.buffer == [s.buffer[0]] + s.buffer[1..];
      assert s.read + s.buffer == (s.read + [s.buffer[0]]) + s.buffer[1..];
    }
  }

  lemma ApplyOk(u: Use, s: Sub)
    requires SubOk(s)
    ensures SubOk(Apply(u, s)) && Apply(u, s).sent == s.sent && Apply(u, s).handed == s.handed
  {
    ReadBufferedOk(s);
  }

  /** The object behind a `Sub`; what was handed on, read and sent is history. */
  class Subchannel {
    var isOpen: bool
    var hasHandler: bool
    var recvSeqnum: nat
    var receiveBuffer: seq<bytes>
    ghost var sent: seq<bytes>
    ghost var handed: seq<bytes>
    ghost var given: seq<bytes>
    ghost var readOut: seq<bytes>

    ghost function Value(): Sub
      reads this
    {
      Sub(isOpen, hasHandler, sent, recvSeqnum, receiveBuffer, handed, given, readOut)
    }

    constructor ()
      ensures Value() == NEW_SUB && SubOk(Value())
    {
      isOpen, hasHandler, recvSeqnum, receiveBuffer := true, false, 0, [];
      sent, handed, given, readOut := [], [], [], [];
    }

    /** `_receiveData`: a record goes to the handler if one is set, else into the buffer. */
    method Receive(data: bytes) returns (toHandler: bool)
      requires SubOk(Value())
      modifies this
      ensures Value() == ReceiveData(old(Value()), data) && SubOk(Value()) && toHandler == old(hasHandler)
      ensures recvSeqnum == old(recvSeqnum) + 1 && handed == old(handed) + [data]
      ensures toHandler ==> given == old(given) + [data] && receiveBuffer == old(receiveBuffer)
      ensures !toHandler ==> given == old(given) && receiveBuffer == old(receiveBuffer) + [data]
      ensures readOut == old(readOut) && sent == old(sent) && isOpen == old(isOpen) && hasHandler == old(hasHandler)
    {
      ReceiveDataOk(Value(), data);
      recvSeqnum := recvSeqnum + 1;
      handed := handed + [data];
      toHandler := hasHandler;
      if hasHandler {
        given := given + [data];
      } else {
        receiveBuffer := receiveBuffer + [data];
      }
    }

    /** `read`: the oldest buffered record, if any. */
    method Read() returns (data: Option<bytes>)
      requires SubOk(Value())
      modifies this
      ensures Value() == ReadBuffered(old(Value())) && SubOk(Value())
      ensures data == if old(receiveBuffer) == [] then None else Some(old(receiveBuffer)[0])
      ensures receiveBuffer == if data.None? then [] else old(receiveBuffer)[1..]
    {
      ReadBufferedOk(Value());
      data := None;
      if receiveBuffer != [] {
        data := Some(receiveBuffer[0]);
        readOut := readOut + [receiveBuffer[0]];
        receiveBuffer := receiveBuffer[1..];
      }
    }
  }

  // ---------- one end ----------

  /** `subs` are all subchannel objects of this end by id, `registered` the manager's map, `listeners` its protocols. */
  datatype End = End(subs: map<nat, Sub>, registered: set<nat>, nextId: nat, listeners: set<bytes>)

  datatype Out = Out(end: End, records: seq<Record>)

  function OpenSubchannel(e: End, protocol: bytes): Out {
    var id := e.nextId;
    Out(e.(nextId := id + 1, subs := e.subs[id := NEW_SUB], registered := e.registered + {id}),
        [Record(OPEN, id, protocol)])
  }

  function SetListeners(e: End, listeners: set<bytes>): Out {
    Out(e.(listeners := listeners), [])
  }

  function SendData(e: End, id: nat, data: bytes): Out {
    if id in e.subs && e.subs[id].isOpen
    then Out(e.(subs := e.subs[id := e.subs[id].(sent := e.subs[id].sent + [data])]), [Record(DATA, id, data)])
    else Out(e, [])
  }

  /** `close` up to the end of its await; records may still arrive before it resumes ... */
  function CloseSub(e: End, id: nat): Out {
    if id in e.subs && e.subs[id].isOpen
    then Out(e.(subs := e.subs[id := e.subs[id].(isOpen := false)]), [Record(CLOSE, id, [0])])
    else Out(e, [])
  }

  /** ... and takes the subchannel out of the manager's map. */
  function AfterClose(e: End, id: nat): Out {
    Out(if id in e.subs && !e.subs[id].isOpen then e.(registered := e.registered - {id}) else e, [])
  }

  function UseOn(e: End, id: nat, u: Use): Out {
    Out(if id in e.subs then e.(subs := e.subs[id := Apply(u, e.subs[id])]) else e, [])
  }

  /** `_handleControlMessage` after parsing. */
  function HandleRecord(e: End, r: Record): Out {
    if r.kind == OPEN then
      if r.data in e.listeners
      then Out(e.(subs := e.subs[r.id := NEW_SUB], registered := e.registered + {r.id}), [])
      else Out(e, [Record(CLOSE, r.id, [0])])
    else if r.id !in e.registered || r.id !in e.subs then Out(e, [])
    else if r.kind == DATA then Out(e.(subs := e.subs[r.id := ReceiveData(e.subs[r.id], r.data)]), [])
    else if r.kind == CLOSE then
      Out(e.(subs := e.subs[r.id := e.subs[r.id].(isOpen := false)], registered := e.registered - {r.id}), [])
    else Out(e, [])
  }

  /** The manager, with `_sendRecord` appending to the channel. */
  class DilationManager {
    var subs: map<nat, Sub>
    var registered: set<nat>
    var nextId: nat
    var listeners: set<bytes>
    var channel: seq<bytes>

    ghost function Value(): End
      reads this
    {
      End(subs, registered, nextId, listeners)
    }

    constructor ()
      ensures Value() == End(map[], {}, 1, {}) && channel == []
    {
      subs, registered, nextId, listeners, channel := map[], {}, 1, {}, [];
    }

    method SendRecord(r: Record)
      modifies this`channel
      ensures channel == old(channel) + [EncodeRecord(r)]
    {
      channel := channel + [EncodeRecord(r)];
    }

    method Open(protocol: bytes) returns (id: nat)
      modifies this
      ensures var o := OpenSubchannel(old(Value()), protocol);
              Value() == o.end && channel == old(channel) + Wire(o.records) && id == old(nextId)
      ensures nextId == id + 1 && id in registered && id in subs && subs[id] == Sub(true, false, [], 0, [], [], [], [])
      ensures id < 0x1_0000_0000 ==> channel == old(channel) + [[1] + FourBytes(id) + protocol]
    {
      RecordLayout(Record(OPEN, nextId, protocol));
      id := nextId;
      nextId := nextId + 1;
      subs := subs[id := NEW_SUB];
      registered := registered + {id};
      SendRecord(Record(OPEN, id, protocol));
    }

    /** False where `send` throws: the subchannel is closed. */
    method Send(id: nat, data: bytes) returns (ok: bool)
      modifies this
      ensures var o := SendData(old(Value()), id, data);
              Value() == o.end && channel == old(channel) + Wire(o.records)
      ensures ok == (id in old(subs) && old(subs)[id].isOpen)
      ensures !ok ==> Value() == old(Value()) && channel == old(channel)
      ensures ok && id < 0x1_0000_0000 ==> channel == old(channel) + [[2] + FourBytes(id) + data]
    {
      RecordLayout(Record(DATA, id, data));
      ok := id in subs && subs[id].isOpen;
      if ok {
        SendRecord(Record(DATA, id, data));
        subs := subs[id := subs[id].(sent := subs[id].sent + [data])];
      }
    }

    /** `close` after its await. */
    method FinishClose(id: nat)
      modifies this`registered
      ensures Value() == AfterClose(old(Value()), id).end
      ensures registered == old(registered) - (if id in subs && !subs[id].isOpen then {id} else {})
    {
      if id in subs && !subs[id].isOpen {
        registered := registered - {id};
      }
    }

    /** `close` up to its await. */
    method Close(id: nat)
      modifies this
      ensures var o := CloseSub(old(Value()), id);
              Value() == o.end && channel == old(channel) + Wire(o.records)
      ensures id in subs ==> !subs[id].isOpen
      ensures id < 0x1_0000_0000 ==>
                channel == old(channel) + (if id in old(subs) && old(subs)[id].isOpen then [[3] + FourBytes(id) + [0]]
                                           else [])
    {
      RecordLayout(Record(CLOSE, id, [0]));
      if id in subs && subs[id].isOpen {
        subs := subs[id := subs[id].(isOpen := false)];
        SendRecord(Record(CLOSE, id, [0]));
      }
    }

    /** A decrypted message from the channel; what does not parse is ignored. */
    method OnMessage(m: bytes)
      modifies this
      ensures match ParseRecord(m)
              case None => Value() == old(Value()) && channel == old(channel)
              case Some(r) =>
                var o := HandleRecord(old(Value()), r);
                Value() == o.end && channel == old(channel) + Wire(o.records)
    {
      var p := ParseRecord(m);
      if p.Some? {
        var r := p.value;
        if r.kind == OPEN {
          if r.data in listeners {
            subs := subs[r.id := NEW_SUB];
            registered := registered + {r.id};
          } else {
            SendRecord(Record(CLOSE, r.id, [0]));
          }
        } else if r.id in registered && r.id in subs {
          if r.kind == DATA {
            subs := subs[r.id := ReceiveData(subs[r.id], r.data)];
          } else if r.kind == CLOSE {
            subs := subs[r.id := subs[r.id].(isOpen := false)];
            registered := registered - {r.id};
          }
        }
      }
    }
  }

  function Wire(records: seq<Record>): seq<bytes> {
    if records == [] then [] else [EncodeRecord(records[0])] + Wire(records[1..])
  }

  // ---------- two ends ----------

  /** toB and toA are the messages on the channel, in order. */
  datatype Sys = Sys(a: End, b: End, toA: seq<bytes>, toB: seq<bytes>)

  /** `side` true is end A. */
  datatype Step =
    | Open(side: bool, protocol: bytes)
    | Listen(side: bool, protocol: bytes)
    | Unlisten(side: bool, protocol: bytes)
    | Send(side: bool, id: nat, data: bytes)
    | Close(side: bool, id: nat)
    | Closed(side: bool, id: nat)
    | UseSub(side: bool, id: nat, u: Use)
    | Deliver(side: bool)

  const START := Sys(End(map[], {}, 1, {}), End(map[], {}, 1, {}), [], [])

  function Get(s: Sys, side: bool): End { if side then s.a else s.b }

  /** An end changes and sends; records travel to the other end. */
  function Put(s: Sys, side: bool, o: Out): Sys {
    if side then s.(a := o.end, toB := s.toB + Wire(o.records)) else s.(b := o.end, toA := s.toA + Wire(o.records))
  }

  function Do(s: Sys, step: Step): Sys {
    match step
    case Open(side, protocol) => Put(s, side, OpenSubchannel(Get(s, side), protocol))
    case Listen(side, protocol) => Put(s, side, SetListeners(Get(s, side), Get(s, side).listeners + {protocol}))
    case Unlisten(side, protocol) => Put(s, side, SetListeners(Get(s, side), Get(s, side).listeners - {protocol}))
    case Send(side, id, data) => Put(s, side, SendData(Get(s, side), id, data))
    case Close(side, id) => Put(s, side, CloseSub(Get(s, side), id))
    case Closed(side, id) => Put(s, side, AfterClose(Get(s, side), id))
    case UseSub(side, id, u) => Put(s, side, UseOn(Get(s, side), id, u))
    case Deliver(side) =>
      var m := if side then s.toA else s.toB;
      if m == [] then s
      else
        var s' := if side then s.(toA := m[1..]) else s.(toB := m[1..]);
        match ParseRecord(m[0])
        case None => s'
        case Some(r) => Put(s', side, HandleRecord(Get(s', side), r))
  }

  function Run(steps: seq<Step>): Sys {
    if steps == [] then START else Do(Run(steps[..|steps| - 1]), steps[|steps| - 1])
  }
}
