/** The SOCKS5 front end (RFC 1928, sections 3 to 6): from the client's bytes to the address that is dialled. */
module Socks {
  import opened Bytes
  import opened WireFormats
  import opened Proxy

  const SOCKS_VERSION: byte := 5
  const AUTH_NONE: byte := 0
  const AUTH_NO_ACCEPTABLE: byte := 255
  const CMD_CONNECT: byte := 1
  const ATYP_IPV4: byte := 1
  const ATYP_DOMAIN: byte := 3
  const ATYP_IPV6: byte := 4
  const REP_CMD_NOT_SUPPORTED: byte := 7
  const REP_ATYP_NOT_SUPPORTED: byte := 8

  // ---------- the stream reader ----------

  /**
   * What the client sends before it closes, and how many bytes have arrived by the
   * time of each successive `read`; once `arrivals` is used up, everything has.
   */
  datatype Reader = Reader(stream: bytes, arrivals: seq<nat>)

  datatype Read = Read(data: bytes, reader: Reader)

  /** `reader.read(n)`: at least one byte unless at the end, at most n, no more than has arrived. */
  function ReadUpTo(r: Reader, n: nat): Read {
    var arrived := if r.arrivals == [] || r.arrivals[0] > |r.stream| then |r.stream|
                   else if r.arrivals[0] == 0 && r.stream != [] then 1
                   else r.arrivals[0];
    var m := if n < arrived then n else arrived;
    Read(r.stream[..m], Reader(r.stream[m..], if r.arrivals == [] then [] else r.arrivals[1..]))
  }

  /**
   * A read takes a front part of the stream: nothing only if nothing is asked for or left, as
   * much as is asked for if everything has arrived, and otherwise no more than has, or one byte.
   */
  lemma ReadsTheFront(r: Reader, n: nat)
    ensures var x := ReadUpTo(r, n);
            && x.data + x.reader.stream == r.stream && |x.data| <= n
            && (x.data == [] <==> n == 0 || r.stream == [])
            && (r.arrivals == [] ==> x.reader.arrivals == [] && (|x.data| == n || x.reader.stream == []))
            && (r.arrivals != [] ==>
                  && x.reader.arrivals == r.arrivals[1..] && (|x.data| <= r.arrivals[0] || |x.data| == 1)
                  && (|x.data| >= r.arrivals[0] || |x.data| == n || x.reader.stream == []))
  {
  }

  // ---------- the handler, up to `connect` ----------

  datatype Outcome = Closed | Dial(address: Address, rest: Reader)

  datatype Handshake = Handshake(replies: bytes, outcome: Outcome)

  function Failure(code: byte): bytes { [SOCKS_VERSION, code, 0, ATYP_IPV4, 0, 0, 0, 0, 0, 0] }

  /** `inet_ntoa`. */
  function Dotted(a: bytes): bytes
    requires |a| == 4
  {
    Decimal(a[0]) + [46] + Decimal(a[1]) + [46] + Decimal(a[2]) + [46] + Decimal(a[3])
  }

  /** The part of `_handle_client` from the greeting to the call of `connect`; `ntop` is `inet_ntop` for IPv6. */
  function HandleClient(r: Reader, ntop: bytes -> bytes): Handshake {
    var greeting := ReadUpTo(r, 2);
    if |greeting.data| < 2 || greeting.data[0] != SOCKS_VERSION then Handshake([], Closed)
    else
      var methods := ReadUpTo(greeting.reader, greeting.data[1]);
      if AUTH_NONE !in methods.data then Handshake([SOCKS_VERSION, AUTH_NO_ACCEPTABLE], Closed)
      else
        var h := HandleRequest(methods.reader, ntop);
        Handshake([SOCKS_VERSION, AUTH_NONE] + h.replies, h.outcome)
  }

  function HandleRequest(r: Reader, ntop: bytes -> bytes): Handshake {
    var request := ReadUpTo(r, 4);
    if |request.data| < 4 then Handshake([], Closed)
    else if request.data[1] != CMD_CONNECT then Handshake(Failure(REP_CMD_NOT_SUPPORTED), Closed)
    else if request.data[3] == ATYP_IPV4 then
      var a := ReadUpTo(request.reader, 4);
      if |a.data| != 4 then Handshake([], Closed) else HandlePort(Dotted(a.data), a.reader)
    else if request.data[3] == ATYP_DOMAIN then HandleDomain(request.reader)
    else if request.data[3] == ATYP_IPV6 then
      var a := ReadUpTo(request.reader, 16);
      if |a.data| != 16 then Handshake([], Closed) else HandlePort(ntop(a.data), a.reader)
    else Handshake(Failure(REP_ATYP_NOT_SUPPORTED), Closed)
  }

  function HandleDomain(r: Reader): Handshake {
    var length := ReadUpTo(r, 1);
    if length.data == [] then Handshake([], Closed)
    else
      var name := ReadUpTo(length.reader, length.data[0]);
      if !Utf8(name.data) then Handshake([], Closed) else HandlePort(name.data, name.reader)
  }

  function HandlePort(host: bytes, r: Reader): Handshake {
    var port := ReadUpTo(r, 2);
    if |port.data| != 2 then Handshake([], Closed)
    else Handshake([], Dial(Address(host, ValueBE(port.data)), port.reader))
  }

  // ---------- the handler itself ----------

  class StreamReader {
    var stream: bytes
    var arrivals: seq<nat>

    ghost function Value(): Reader
      reads this
    {
      Reader(stream, arrivals)
    }

    constructor (r: Reader)
      ensures Value() == r
    {
      stream, arrivals := r.stream, r.arrivals;
    }

    method Next(n: nat) returns (data: bytes)
      modifies this
      ensures Read(data, Value()) == ReadUpTo(old(Value()), n)
    {
      var arrived := |stream|;
      if arrivals != [] {
        if arrivals[0] < arrived {
          arrived := if arrivals[0] == 0 then 1 else arrivals[0];
        }
        arrivals := arrivals[1..];
      }
      var m := if n < arrived then n else arrived;
      data, stream := stream[..m], stream[m..];
    }
  }

  /** The port, behind any address. */
  method ReadPort(r: StreamReader, host: bytes) returns (h: Handshake)
    modifies r
    ensures h == HandlePort(host, old(r.Value()))
  {
    var port := r.Next(2);
    if |port| != 2 {
      return Handshake([], Closed);
    }
    h := Handshake([], Dial(Address(host, port[0] as int * 256 + port[1] as int), Reader(r.stream, r.arrivals)));
    assert port == [port[0], port[1]];
    TwoBytes(port[0] as int * 256 + port[1] as int);
  }

  method ReadDomain(r: StreamReader) returns (h: Handshake)
    modifies r
    ensures h == HandleDomain(old(r.Value()))
  {
    var length := r.Next(1);
    if length == [] {
      return Handshake([], Closed);
    }
    var name := r.Next(length[0]);
    if !Utf8(name) {
      return Handshake([], Closed);
    }
    h := ReadPort(r, name);
  }

  method ReadRequest(r: StreamReader, ntop: bytes -> bytes) returns (h: Handshake)
    modifies r
    ensures h == HandleRequest(old(r.Value()), ntop)
  {
    var request := r.Next(4);
    if |request| < 4 {
      return Handshake([], Closed);
    }
    if request[1] != CMD_CONNECT {
      return Handshake(Failure(REP_CMD_NOT_SUPPORTED), Closed);
    }
    var atyp := request[3];
    if atyp == ATYP_DOMAIN {
      h := ReadDomain(r);
    } else if atyp == ATYP_IPV4 || atyp == ATYP_IPV6 {
      var size := if atyp == ATYP_IPV4 then 4 else 16;
      var a := r.Next(size);
      if |a| != size {
        return Handshake([], Closed);
      }
      h := ReadPort(r, if atyp == ATYP_IPV4 then Dotted(a) else ntop(a));
    } else {
      h := Handshake(Failure(REP_ATYP_NOT_SUPPORTED), Closed);
    }
  }

  /** `_handle_client` up to the call of `connect`. */
  method ServeClient(r: StreamReader, ntop: bytes -> bytes) returns (h: Handshake)
    modifies r
    ensures h == HandleClient(old(r.Value()), ntop)
  {
    var greeting := r.Next(2);
    if |greeting| < 2 || greeting[0] != SOCKS_VERSION {
      return Handshake([], Closed);
    }
    var methods := r.Next(greeting[1]);
    if AUTH_NONE !in methods {
      return Handshake([SOCKS_VERSION, AUTH_NO_ACCEPTABLE], Closed);
    }
    var request := ReadRequest(r, ntop);
    h := Handshake([SOCKS_VERSION, AUTH_NONE] + request.replies, request.outcome);
  }

  // ---------- what a client asks for ----------

  datatype Destination = V4(a: bytes) | Domain(name: bytes) | V6(a: bytes)

  predicate WellFormed(d: Destination, port: nat) {
    && port < 0x1_0000
    && match d
       case V4(a) => |a| == 4
       case Domain(name) => |name| < 256 && Utf8(name)
       case V6(a) => |a| == 16
  }

  function HostText(d: Destination, ntop: bytes -> bytes): bytes
    requires WellFormed(d, 0)
  {
    match d
    case V4(a) => Dotted(a)
    case Domain(name) => name
    case V6(a) => ntop(a)
  }

  function EncodeDestination(d: Destination): bytes
    requires WellFormed(d, 0)
  {
    match d
    case V4(a) => [ATYP_IPV4] + a
    case Domain(name) => [ATYP_DOMAIN, |name|] + name
    case V6(a) => [ATYP_IPV6] + a
  }

  /** RFC 1928, section 4. */
  function EncodeRequest(d: Destination, port: nat): bytes
    requires WellFormed(d, port)
  {
    [SOCKS_VERSION, CMD_CONNECT, 0] + EncodeDestination(d) + BytesBE(port, 2)
  }

  /** RFC 1928, section 3. */
  function EncodeGreeting(methods: bytes): bytes
    requires |methods| < 256
  {
    [SOCKS_VERSION, |methods|] + methods
  }

  // ---------- short reads ----------

  /** The i-th read, of n bytes, is not cut short by what has arrived. */
  predicate InTime(arrivals: seq<nat>, i: nat, n: nat) {
    |arrivals| <= i || n <= 1 || arrivals[i] >= n
  }

  function Tail(s: seq<nat>): seq<nat> { if s == [] then [] else s[1..] }

  lemma FullRead(data: bytes, tail: bytes, arrivals: seq<nat>)
    ensures InTime(arrivals, 0, |data|) ==>
              ReadUpTo(Reader(data + tail, arrivals), |data|) == Read(data, Reader(tail, Tail(arrivals)))
    ensures !InTime(arrivals, 0, |data|) ==> |ReadUpTo(Reader(data + tail, arrivals), |data|).data| < |data|
  {
    assert (data + tail)[..|data|] == data && (data + tail)[|data|..] == tail;
  }

  lemma PortDialled(host: bytes, port: nat, tail: bytes, arrivals: seq<nat>)
    requires port < 0x1_0000
    ensures var h := HandlePort(host, Reader(BytesBE(port, 2) + tail, arrivals));
            h == if InTime(arrivals, 0, 2)
                 then Handshake([], Dial(Address(host, port), Reader(tail, Tail(arrivals))))
                 else Handshake([], Closed)
  {
    FullRead(BytesBE(port, 2), tail, arrivals);
    Pow256Values();
    ValueOfBytesBE(port, 2);
  }

  /** The sizes of the reads after the four-byte request head. */
  function AddressReads(d: Destination): seq<nat> {
    match d
    case V4(a) => [4, 2]
    case Domain(name) => [1, |name|, 2]
    case V6(a) => [16, 2]
  }

  predicate AllInTime(arrivals: seq<nat>, sizes: seq<nat>) {
    forall i :: 0 <= i < |sizes| ==> InTime(arrivals, i, sizes[i])
  }

  lemma ConsInTime(arrivals: seq<nat>, size: nat, sizes: seq<nat>)
    ensures AllInTime(arrivals, [size] + sizes) <==> InTime(arrivals, 0, size) && AllInTime(Tail(arrivals), sizes)
  {
    forall i | 0 <= i < |sizes|
      ensures InTime(arrivals, i + 1, ([size] + sizes)[i + 1]) <==> InTime(Tail(arrivals), i, sizes[i])
    {
    }
    if InTime(arrivals, 0, size) && AllInTime(Tail(arrivals), sizes) {
      forall i | 0 <= i < |sizes| + 1 ensures InTime(arrivals, i, ([size] + sizes)[i]) {
        if i > 0 { assert InTime(Tail(arrivals), i - 1, sizes[i - 1]); }
      }
    }
    if AllInTime(arrivals, [size] + sizes) {
      assert InTime(arrivals, 0, ([size] + sizes)[0]);
      forall i | 0 <= i < |sizes| ensures InTime(Tail(arrivals), i, sizes[i]) {
        assert InTime(arrivals, i + 1, ([size] + sizes)[i + 1]);
      }
    }
  }

  predicate DialsExactly(h: Handshake, address: Address) {
    h.outcome.Dial? && h.outcome.address == address
  }

  /** The address of an IPv4 or IPv6 request, after the request head. */
  lemma NumericHost(d: Destination, after: bytes, arrivals: seq<nat>, ntop: bytes -> bytes)
    requires WellFormed(d, 0) && !d.Domain? && InTime(arrivals, 0, 4)
    ensures var atyp := if d.V4? then ATYP_IPV4 else ATYP_IPV6;
            HandleRequest(Reader([SOCKS_VERSION, CMD_CONNECT, 0, atyp] + (d.a + after), arrivals), ntop)
            == if InTime(Tail(arrivals), 0, |d.a|)
               then HandlePort(HostText(d, ntop), Reader(after, Tail(Tail(arrivals))))
               else Handshake([], Closed)
  {
    FullRead([SOCKS_VERSION, CMD_CONNECT, 0, if d.V4? then ATYP_IPV4 else ATYP_IPV6], d.a + after, arrivals);
    FullRead(d.a, after, Tail(arrivals));
  }

  /** An IPv4 or IPv6 request: a short read closes the connection. */
  lemma NumericAddress(d: Destination, port: nat, tail: bytes, arrivals: seq<nat>, ntop: bytes -> bytes)
    requires WellFormed(d, port) && !d.Domain?
    requires InTime(arrivals, 0, 4)
    ensures var h := HandleRequest(Reader(EncodeRequest(d, port) + tail, arrivals), ntop);
            if AllInTime(Tail(arrivals), AddressReads(d)) then DialsExactly(h, Address(HostText(d, ntop), port))
            else h == Handshake([], Closed)
  {
    var atyp := if d.V4? then ATYP_IPV4 else ATYP_IPV6;
    var head, after := [SOCKS_VERSION, CMD_CONNECT, 0, atyp], BytesBE(port, 2) + tail;
    assert EncodeRequest(d, port) + tail == head + (d.a + after);
    NumericHost(d, after, arrivals, ntop);
    PortDialled(HostText(d, ntop), port, tail, Tail(Tail(arrivals)));
    TwoReads(Tail(arrivals), |d.a|, 2);
  }

  lemma TwoReads(arrivals: seq<nat>, m: nat, n: nat)
    ensures AllInTime(arrivals, [m, n]) <==> InTime(arrivals, 0, m) && InTime(Tail(arrivals), 0, n)
  {
    assert [m, n] == [m] + ([n] + []);
    ConsInTime(arrivals, m, [n] + []);
    ConsInTime(Tail(arrivals), n, []);
  }

  /** A read that is cut short takes a proper front part. */
  lemma ShortRead(data: bytes, tail: bytes, arrivals: seq<nat>)
    requires !InTime(arrivals, 0, |data|)
    ensures ReadUpTo(Reader(data + tail, arrivals), |data|).data < data
  {
    var m := |ReadUpTo(Reader(data + tail, arrivals), |data|).data|;
    assert m < |data| && (data + tail)[..m] == data[..m];
  }

  /**
   * A domain name and port, after the request head: a short read of the name makes a shorter
   * name, if any, a short read of the port closes the connection.
   */
  lemma DomainName(name: bytes, port: nat, tail: bytes, arrivals: seq<nat>)
    requires WellFormed(Domain(name), port)
    ensures var h := HandleDomain(Reader([|name|] + (name + (BytesBE(port, 2) + tail)), arrivals));
            && (DialsExactly(h, Address(name, port)) <==> AllInTime(arrivals, AddressReads(Domain(name))))
            && (!InTime(Tail(arrivals), 0, |name|) && h.outcome.Dial? ==> h.outcome.address.host < name)
            && (InTime(Tail(arrivals), 0, |name|) && !InTime(Tail(Tail(arrivals)), 0, 2) ==> h == Handshake([], Closed))
  {
    var after := BytesBE(port, 2) + tail;
    var t1 := Tail(arrivals);
    if !InTime(t1, 0, |name|) { ShortRead(name, after, t1); }
    FullRead([|name|], name + after, arrivals);
    FullRead(name, after, t1);
    PortDialled(name, port, tail, Tail(t1));
    ConsInTime(arrivals, 1, [|name|, 2]);
    TwoReads(t1, |name|, 2);
    assert AddressReads(Domain(name)) == [1] + [|name|, 2];
  }

  lemma DomainAddress(name: bytes, port: nat, tail: bytes, arrivals: seq<nat>, ntop: bytes -> bytes)
    requires WellFormed(Domain(name), port)
    requires InTime(arrivals, 0, 4)
    ensures DialsExactly(HandleRequest(Reader(EncodeRequest(Domain(name), port) + tail, arrivals), ntop),
                         Address(name, port))
        <==> AllInTime(Tail(arrivals), AddressReads(Domain(name)))
  {
    var head, after := [SOCKS_VERSION, CMD_CONNECT, 0, ATYP_DOMAIN], [|name|] + (name + (BytesBE(port, 2) + tail));
    DomainRequest(name, port, tail);
    DomainHead(after, arrivals, ntop);
    DomainName(name, port, tail, Tail(arrivals));
  }

  lemma DomainRequest(name: bytes, port: nat, tail: bytes)
    requires WellFormed(Domain(name), port)
    ensures EncodeRequest(Domain(name), port) + tail
         == [SOCKS_VERSION, CMD_CONNECT, 0, ATYP_DOMAIN] + ([|name|] + (name + (BytesBE(port, 2) + tail)))
  {
  }

  lemma DomainHead(after: bytes, arrivals: seq<nat>, ntop: bytes -> bytes)
    requires InTime(arrivals, 0, 4)
    ensures HandleRequest(Reader([SOCKS_VERSION, CMD_CONNECT, 0, ATYP_DOMAIN] + after, arrivals), ntop)
         == HandleDomain(Reader(after, Tail(arrivals)))
  {
    FullRead([SOCKS_VERSION, CMD_CONNECT, 0, ATYP_DOMAIN], after, arrivals);
  }

  lemma RequestDialled(d: Destination, port: nat, tail: bytes, arrivals: seq<nat>, ntop: bytes -> bytes)
    requires WellFormed(d, port)
    ensures DialsExactly(HandleRequest(Reader(EncodeRequest(d, port) + tail, arrivals), ntop),
                         Address(HostText(d, ntop), port))
        <==> AllInTime(arrivals, [4] + AddressReads(d))
  {
    ConsInTime(arrivals, 4, AddressReads(d));
    if !InTime(arrivals, 0, 4) {
      var request := EncodeRequest(d, port) + tail;
      assert request == request[..4] + request[4..];
      FullRead(request[..4], request[4..], arrivals);
    } else if d.Domain? {
      DomainAddress(d.name, port, tail, arrivals, ntop);
    } else {
      NumericAddress(d, port, tail, arrivals, ntop);
    }
  }

  lemma GreetingRead(methods: bytes, request: bytes, arrivals: seq<nat>, ntop: bytes -> bytes)
    requires |methods| < 256 && AUTH_NONE in methods && InTime(arrivals, 1, |methods|)
    ensures HandleClient(Reader(EncodeGreeting(methods) + request, arrivals), ntop).outcome
         == if InTime(arrivals, 0, 2) then HandleRequest(Reader(request, Tail(Tail(arrivals))), ntop).outcome
            else Closed
  {
    var head := [SOCKS_VERSION, |methods|];
    assert EncodeGreeting(methods) + request == head + (methods + request);
    FullRead(head, methods + request, arrivals);
    FullRead(methods, request, Tail(arrivals));
  }

  /**
   * For a client that offers "no authentication" and whose method list arrives in
   * time, the address dialled is the one requested if and only if no other read is
   * cut short either.
   */
  lemma DialsWhatWasRequested(methods: bytes, d: Destination, port: nat,
                              tail: bytes, arrivals: seq<nat>, ntop: bytes -> bytes)
    requires |methods| < 256 && AUTH_NONE in methods && WellFormed(d, port)
    requires InTime(arrivals, 1, |methods|)
    ensures DialsExactly(HandleClient(Reader(EncodeGreeting(methods) + EncodeRequest(d, port) + tail, arrivals), ntop),
                         Address(HostText(d, ntop), port))
        <==> AllInTime(arrivals, [2, |methods|, 4] + AddressReads(d))
  {
    var request := EncodeRequest(d, port) + tail;
    assert EncodeGreeting(methods) + EncodeRequest(d, port) + tail == EncodeGreeting(methods) + request;
    GreetingRead(methods, request, arrivals, ntop);
    RequestDialled(d, port, tail, Tail(Tail(arrivals)), ntop);
    FirstReads(arrivals, |methods|, AddressReads(d));
  }

  lemma FirstReads(arrivals: seq<nat>, methods: nat, sizes: seq<nat>)
    ensures AllInTime(arrivals, [2, methods, 4] + sizes)
        <==> InTime(arrivals, 0, 2) && InTime(arrivals, 1, methods) && AllInTime(Tail(Tail(arrivals)), [4] + sizes)
  {
    ConsInTime(arrivals, 2, [methods] + ([4] + sizes));
    ConsInTime(Tail(arrivals), methods, [4] + sizes);
    assert [2, methods, 4] + sizes == [2] + ([methods] + ([4] + sizes));
  }

  /**
   * When only the first k bytes of a name have arrived, those k bytes are taken for the
   * whole name and the rest of it for the port: here "ab", port 80 becomes "a", port 25088.
   */
  lemma ShortNameDialsAnotherHost()
    ensures HandleDomain(Reader([2, 97, 98, 0, 80], [1, 1])).outcome == Dial(Address([97], 98 * 256), Reader([80], []))
  {
    var r0 := Reader([2, 97, 98, 0, 80], [1, 1]);
    var r1, r2 := Reader([97, 98, 0, 80], [1]), Reader([98, 0, 80], []);
    assert ReadUpTo(r0, 1) == Read([2], r1);
    assert ReadUpTo(r1, 2) == Read([97], r2);
    assert ReadUpTo(r2, 2) == Read([98, 0], Reader([80], []));
    TwoBytes(98 * 256);
    AsciiIsUtf8([97]);
  }

  // ---------- refusals ----------

  /**
   * What a client that has sent everything is told before anything is dialled: no
   * acceptable method, command not supported, address type not supported, or go on.
   */
  lemma RepliesAreExact(methods: bytes, version: byte, cmd: byte, reserved: byte, atyp: byte,
                        rest: bytes, ntop: bytes -> bytes)
    requires |methods| < 256
    ensures var h := HandleClient(Reader(EncodeGreeting(methods) + ([version, cmd, reserved, atyp] + rest), []), ntop);
            && (AUTH_NONE !in methods <==> h.replies == [5, 255])
            && (AUTH_NONE in methods && cmd != 1 <==> h.replies == [5, 0, 5, 7, 0, 1, 0, 0, 0, 0, 0, 0])
            && (AUTH_NONE in methods && cmd == 1 && atyp !in {1, 3, 4}
                <==> h.replies == [5, 0, 5, 8, 0, 1, 0, 0, 0, 0, 0, 0])
            && (h.outcome.Dial? ==> h.replies == [5, 0])
  {
    var request := [version, cmd, reserved, atyp] + rest;
    GreetingReplies(methods, request, ntop);
    RequestReplies(version, cmd, reserved, atyp, rest, ntop);
    RepliesDiffer();
  }

  lemma RepliesDiffer()
    ensures var ok: bytes, none: bytes, cmd: bytes, atyp: bytes
              := [5, 0], [5, 255], [5, 0, 5, 7, 0, 1, 0, 0, 0, 0, 0, 0], [5, 0, 5, 8, 0, 1, 0, 0, 0, 0, 0, 0];
            && [5, 0] + Failure(7) == cmd && [5, 0] + Failure(8) == atyp && [5, 0] + [] == ok
            && Distinct([ok, none, cmd, atyp])
  {
    var cmd: bytes, atyp: bytes := [5, 0] + Failure(7), [5, 0] + Failure(8);
    assert cmd[3] != atyp[3];
  }

  lemma GreetingReplies(methods: bytes, request: bytes, ntop: bytes -> bytes)
    requires |methods| < 256
    ensures var h := HandleClient(Reader(EncodeGreeting(methods) + request, []), ntop);
            var h' := HandleRequest(Reader(request, []), ntop);
            h == if AUTH_NONE in methods then Handshake([5, 0] + h'.replies, h'.outcome)
                 else Handshake([5, 255], Closed)
  {
    var head := [SOCKS_VERSION, |methods|];
    assert EncodeGreeting(methods) + request == head + (methods + request);
    FullRead(head, methods + request, []);
    FullRead(methods, request, []);
  }

  lemma RequestReplies(version: byte, cmd: byte, reserved: byte, atyp: byte, rest: bytes, ntop: bytes -> bytes)
    ensures var h := HandleRequest(Reader([version, cmd, reserved, atyp] + rest, []), ntop);
            && h.replies == (if cmd != 1 then Failure(7) else if atyp !in {1, 3, 4} then Failure(8) else [])
            && (h.outcome.Dial? ==> h.replies == [])
  {
    FullRead([version, cmd, reserved, atyp], rest, []);
  }

  /** Another version, or less than a greeting: the connection is closed without a word. */
  lemma OtherVersionsAreClosed(stream: bytes, arrivals: seq<nat>, ntop: bytes -> bytes)
    requires |stream| < 2 || stream[0] != 5 || !InTime(arrivals, 0, 2)
    ensures HandleClient(Reader(stream, arrivals), ntop) == Handshake([], Closed)
  {
    var greeting := ReadUpTo(Reader(stream, arrivals), 2);
    assert |greeting.data| > 0 ==> greeting.data[0] == stream[0];
  }

  // ---------- reading a dotted address from left to right ----------

  /** The parts of a text between its dots. */
  function Fields(t: bytes): (fields: seq<bytes>)
    ensures fields != []
  {
    if t == [] then [[]]
    else
      var rest := Fields(t[1..]);
      if t[0] == 46 then [[]] + rest else [[t[0]] + rest[0]] + rest[1..]
  }

  /** The numbers of a dotted text, in order. */
  function Numbers(t: bytes): seq<int> { ValuesOf(Fields(t)) }

  function ValuesOf(fields: seq<bytes>): seq<int> {
    if fields == [] then [] else [DecimalValue(fields[0])] + ValuesOf(fields[1..])
  }

  lemma {:induction false} FirstField(x: bytes, t: bytes)
    requires 46 !in x
    ensures Fields(x + [46] + t) == [x] + Fields(t)
  {
    var s := x + [46] + t;
    if x == [] {
      assert s[1..] == t;
    } else {
      FirstField(x[1..], t);
      assert s[1..] == x[1..] + [46] + t;
      assert [x[0]] + x[1..] == x;
    }
  }

  lemma {:induction false} OnlyField(x: bytes)
    requires 46 !in x
    ensures Fields(x) == [x]
  {
    if x == [] {
    } else {
      OnlyField(x[1..]);
      assert [x[0]] + x[1..] == x;
    }
  }

  lemma FirstNumber(n: nat, t: bytes)
    ensures Numbers(Decimal(n) + [46] + t) == [n] + Numbers(t)
  {
    FirstField(Decimal(n), t);
    DecimalValueOfDecimal(n);
  }

  lemma OnlyNumber(n: nat)
    ensures Numbers(Decimal(n)) == [n]
  {
    OnlyField(Decimal(n));
    DecimalValueOfDecimal(n);
    assert [Decimal(n)][1..] == [];
    assert ValuesOf([]) == [];
  }

  /** The text an IPv4 address is dialled by reads back, from left to right, as its four bytes. */
  lemma DottedReadsBack(a: bytes)
    requires |a| == 4
    ensures Numbers(Dotted(a)) == a
  {
    Fold(Decimal(a[0]), Decimal(a[1]), Decimal(a[2]), Decimal(a[3]));
    FirstNumber(a[0], Decimal(a[1]) + [46] + (Decimal(a[2]) + [46] + Decimal(a[3])));
    FirstNumber(a[1], Decimal(a[2]) + [46] + Decimal(a[3]));
    FirstNumber(a[2], Decimal(a[3]));
    OnlyNumber(a[3]);
  }

  // ---------- dotted decimal keeps addresses apart ----------

  lemma SplitAtDot(a: bytes, b: bytes, a': bytes, b': bytes)
    requires 46 !in a && 46 !in a' && a + [46] + b == a' + [46] + b'
    ensures a == a' && b == b'
  {
    var s := a + [46] + b;
    var s' := a' + [46] + b';
    assert s[|a|] == 46 && s'[|a'|] == 46;
    assert forall i :: 0 <= i < |a| ==> s[i] == a[i] && s[i] != 46;
    assert forall i :: 0 <= i < |a'| ==> s'[i] == a'[i] && s'[i] != 46;
    assert a == s[..|a|] && a' == s'[..|a|];
    assert b == s[|a| + 1..] && b' == s'[|a| + 1..];
  }

  /** Different addresses are dialled by different names. */
  lemma DottedInjective(a: bytes, b: bytes)
    requires |a| == |b| == 4 && Dotted(a) == Dotted(b)
    ensures a == b
  {
    FourFields(Decimal(a[0]), Decimal(a[1]), Decimal(a[2]), Decimal(a[3]),
               Decimal(b[0]), Decimal(b[1]), Decimal(b[2]), Decimal(b[3]));
    forall i | 0 <= i < 4 ensures a[i] == b[i] { DecimalInjective(a[i], b[i]); }
  }

  lemma FourFields(a: bytes, b: bytes, c: bytes, d: bytes, a': bytes, b': bytes, c': bytes, d': bytes)
    requires 46 !in a && 46 !in b && 46 !in c && 46 !in a' && 46 !in b' && 46 !in c'
    requires a + [46] + b + [46] + c + [46] + d == a' + [46] + b' + [46] + c' + [46] + d'
    ensures a == a' && b == b' && c == c' && d == d'
  {
    Fold(a, b, c, d);
    Fold(a', b', c', d');
    SplitAtDot(a, b + [46] + (c + [46] + d), a', b' + [46] + (c' + [46] + d'));
    SplitAtDot(b, c + [46] + d, b', c' + [46] + d');
    SplitAtDot(c, d, c', d');
  }

  lemma Fold(a: bytes, b: bytes, c: bytes, d: bytes)
    ensures a + [46] + b + [46] + c + [46] + d == a + [46] + (b + [46] + (c + [46] + d))
  {
  }

  lemma {:induction false} DecimalLength(n: nat)
    requires n < 256
    ensures |Decimal(n)| <= 3
  {
    if n >= 100 {
      assert |Decimal(n / 10 / 10)| == 1;
      assert |Decimal(n / 10)| == 2;
    } else if n >= 10 {
      assert |Decimal(n / 10)| == 1;
    }
  }

  lemma DottedIsText(a: bytes)
    requires |a| == 4
    ensures |Dotted(a)| <= 15 && Utf8(Dotted(a))
  {
    DecimalLength(a[0]);
    DecimalLength(a[1]);
    DecimalLength(a[2]);
    DecimalLength(a[3]);
    assert forall i :: 0 <= i < |Dotted(a)| ==> Dotted(a)[i] < 0x80;
    AsciiIsUtf8(Dotted(a));
  }

  // ---------- end to end ----------

  /**
   * When everything the client sends has arrived, the peer's dial task for the CONNECT
   * that goes out decodes exactly the requested host and port.
   */
  lemma PeerDialsWhatWasRequested(methods: bytes, d: Destination, port: nat, tail: bytes, ntop: bytes -> bytes)
    requires |methods| < 256 && AUTH_NONE in methods && WellFormed(d, port)
    requires d.V6? ==> |ntop(d.a)| < 256 && Utf8(ntop(d.a))
    ensures var h := HandleClient(Reader(EncodeGreeting(methods) + EncodeRequest(d, port) + tail, []), ntop);
            var address := Address(HostText(d, ntop), port);
            && DialsExactly(h, address)
            && Packable(address) && Utf8(address.host)
            && ParseConnect(ConnectPayload(address)) == Some(address)
  {
    DialsWhatWasRequested(methods, d, port, tail, [], ntop);
    var address := Address(HostText(d, ntop), port);
    assert Packable(address) && Utf8(address.host) by {
      if d.V4? { DottedIsText(d.a); }
    }
    ParseOfConnectPayload(address);
  }

  /** Requests, byte by byte (RFC 1928, section 4). */
  function RequestBytes(d: Destination, port: nat): bytes
    requires WellFormed(d, port)
  {
    [5, 1, 0, AddressType(d)] + (AddressBytes(d) + [port / 256, port % 256])
  }

  function AddressType(d: Destination): byte {
    match d case V4(_) => 1 case Domain(_) => 3 case V6(_) => 4
  }

  /** Four bytes, a name behind its length, or sixteen bytes. */
  function AddressBytes(d: Destination): bytes
    requires WellFormed(d, 0)
  {
    match d
    case V4(a) => a
    case Domain(name) => [|name|] + name
    case V6(a) => a
  }

  lemma RequestLayout(d: Destination, port: nat)
    requires WellFormed(d, port)
    ensures EncodeRequest(d, port) == RequestBytes(d, port)
  {
    TwoBytes(port);
    TypeInFront(d);
    RegroupRequest(AddressType(d), AddressBytes(d), BytesBE(port, 2));
  }

  lemma TypeInFront(d: Destination)
    requires WellFormed(d, 0)
    ensures EncodeDestination(d) == [AddressType(d)] + AddressBytes(d)
  {
    if d.Domain? {
      assert [ATYP_DOMAIN, |d.name|] + d.name == [ATYP_DOMAIN] + ([|d.name|] + d.name);
    }
  }

  lemma RegroupRequest(atyp: byte, address: bytes, port: bytes)
    ensures [5, 1, 0] + ([atyp] + address) + port == [5, 1, 0, atyp] + (address + port)
  {
  }

  /** What is dialled for a destination: the four numbers of an IPv4 address, the name as it is, the IPv6 text. */
  predicate Names(host: bytes, d: Destination, ntop: bytes -> bytes) {
    match d
    case V4(a) => Numbers(host) == a
    case Domain(name) => host == name
    case V6(a) => host == ntop(a)
  }

  /** A handler that dials for an IPv4 or IPv6 request dials what was requested, however its bytes arrive. */
  lemma NumericNeverDialsAnother(methods: bytes, d: Destination, port: nat,
                                 tail: bytes, arrivals: seq<nat>, ntop: bytes -> bytes)
    requires |methods| < 256 && AUTH_NONE in methods && WellFormed(d, port) && !d.Domain?
    requires InTime(arrivals, 1, |methods|)
    ensures var h := HandleClient(Reader(EncodeGreeting(methods) + EncodeRequest(d, port) + tail, arrivals), ntop);
            h.outcome.Dial? ==> Names(h.outcome.address.host, d, ntop) && h.outcome.address.port == port
  {
    var request, later := EncodeRequest(d, port) + tail, Tail(Tail(arrivals));
    assert EncodeGreeting(methods) + EncodeRequest(d, port) + tail == EncodeGreeting(methods) + request;
    GreetingRead(methods, request, arrivals, ntop);
    if InTime(later, 0, 4) {
      NumericAddress(d, port, tail, later, ntop);
      if d.V4? { DottedReadsBack(d.a); }
    } else {
      assert request == request[..4] + request[4..];
      FullRead(request[..4], request[4..], later);
    }
  }

  /** A well-formed request gets no reply before it is dialled. */
  lemma RequestGoesOn(d: Destination, port: nat, tail: bytes, ntop: bytes -> bytes)
    requires WellFormed(d, port)
    ensures HandleRequest(Reader(EncodeRequest(d, port) + tail, []), ntop).replies == []
  {
    var atyp, rest := AddressType(d), AddressBytes(d) + [port / 256, port % 256];
    RequestLayout(d, port);
    assert [5, 1, 0, atyp] + rest + tail == [5, 1, 0, atyp] + (rest + tail);
    RequestReplies(5, 1, 0, atyp, rest + tail, ntop);
  }

  /**
   * The bytes of a client that has sent everything, for every address type: what is dialled
   * names the destination, with the port of its last two bytes.
   */
  lemma BytesDialled(d: Destination, port: nat, tail: bytes, ntop: bytes -> bytes)
    requires WellFormed(d, port)
    ensures var h := HandleClient(Reader([5, 1, 0] + RequestBytes(d, port) + tail, []), ntop);
            && h.replies == [5, 0] && h.outcome.Dial?
            && Names(h.outcome.address.host, d, ntop) && h.outcome.address.port == port
  {
    RequestLayout(d, port);
    assert EncodeGreeting([0]) == [5, 1, 0];
    DialsWhatWasRequested([0], d, port, tail, [], ntop);
    if d.V4? { DottedReadsBack(d.a); }
    BytesAnswered(RequestBytes(d, port), tail, ntop);
    RequestGoesOn(d, port, tail, ntop);
  }

  lemma BytesAnswered(request: bytes, tail: bytes, ntop: bytes -> bytes)
    ensures HandleClient(Reader([5, 1, 0] + request + tail, []), ntop).replies
         == [5, 0] + HandleRequest(Reader(request + tail, []), ntop).replies
  {
    GreetingReplies([0], request + tail, ntop);
    assert EncodeGreeting([0]) + (request + tail) == [5, 1, 0] + request + tail;
  }
}
