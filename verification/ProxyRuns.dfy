/**
 * Two-party proxy runs: a client end, a server end, and a byte link in each
 * direction that delivers in chunks of any size.  A run is any list of steps; a
 * step that is not enabled changes nothing.
 */
module ProxyRuns {
  import opened Bytes
  import opened Framing
  import opened WireFormats
  import opened Proxy

  /** Where the SOCKS handler of a channel stands. */
  datatype Handler = Connecting | Opened | Forwarding | Ended

  /**
   * Both ends without the links.  The last seven fields are history: channels whose
   * dial task has ended, channels whose dial succeeded, the bytes read from each
   * SOCKS client and from each target, the addresses asked for and dialled, and the
   * SOCKS reply to each request, true for success.
   */
  datatype Net = Net(
    client: Peer, server: Peer, handlers: map<nat, Handler>, forwarders: set<nat>,
    settled: set<nat>, reached: set<nat>, fromClient: map<nat, bytes>, fromTarget: map<nat, bytes>,
    requested: map<nat, Address>, dialled: map<nat, Address>, told: map<nat, bool>)

  datatype Sys = Sys(net: Net, clientBuffer: bytes, toClient: bytes, serverBuffer: bytes, toServer: bytes)

  datatype Step =
    | ClientConnect(address: Address)
    | ClientResume(c: nat)
    | ClientTimeout(c: nat)
    | ClientAttach(c: nat)
    | ClientAbort(c: nat)
    | ClientRead(c: nat, data: bytes)
    | ClientEnd(c: nat)
    | ServerDial(i: nat, reachable: bool)
    | ServerRead(c: nat, data: bytes)
    | ServerEnd(c: nat)
    | DeliverToServer(n: nat)
    | DeliverToClient(n: nat)

  const START := Sys(Net(NEW_PEER, NEW_PEER, map[], {}, {}, {}, map[], map[], map[], map[], map[]), [], [], [], [])

  // ---------- steps ----------

  datatype Effect = Effect(net: Net, toServer: seq<Frame>, toClient: seq<Frame>)

  predicate HandlerIs(n: Net, c: nat, h: Handler) {
    c in n.handlers && n.handlers[c] == h
  }

  predicate Readable(data: bytes) { 0 < |data| <= READ_LIMIT }

  /** A new connection: `_handle_client` calls `connect`. */
  function DoConnect(n: Net, address: Address): Effect {
    var id := n.client.nextId;
    var s := Connect(n.client, address);
    Effect(n.(client := s.peer,
              handlers := n.handlers[id := if s.frames == [] then Ended else Connecting],
              requested := n.requested[id := address]),
           s.frames, [])
  }

  function Idle(n: Net): Effect { Effect(n, [], []) }

  /** The handler of a channel ends without a word to the peer. */
  function DoAbort(n: Net, c: nat): Effect { Idle(n.(handlers := n.handlers[c := Ended])) }

  /** The handler of a channel ends, and the channel is removed. */
  function Dropped(n: Net, c: nat): Net {
    n.(client := Forget(n.client, c), handlers := n.handlers[c := Ended])
  }

  /** `connect` gives up on a channel, and its SOCKS client is told so. */
  function DoGiveUp(n: Net, c: nat): Effect {
    Idle(Dropped(n, c).(told := n.told[c := false]))
  }

  /** `connect` wakes up with the answer. */
  function DoResume(n: Net, c: nat): Effect
    requires c in n.client.futures && n.client.futures[c].Answered?
  {
    if n.client.futures[c].ok then Idle(n.(handlers := n.handlers[c := Opened], told := n.told[c := true]))
    else DoGiveUp(n, c)
  }

  /** The writer is attached behind the success reply, which raises if the channel is gone. */
  function DoAttach(n: Net, c: nat): Effect {
    if c in n.client.channels then
      Idle(n.(client := n.client.(channels := n.client.channels[c := n.client.channels[c].(hasWriter := true)]),
              handlers := n.handlers[c := Forwarding]))
    else DoAbort(n, c)
  }

  function DoClientRead(n: Net, c: nat, data: bytes): Effect {
    Effect(n.(fromClient := n.fromClient[c := At(n.fromClient, c) + data]), [Forward(c, data)], [])
  }

  function DoClientEnd(n: Net, c: nat): Effect {
    var s := EndForward(n.client, c);
    Effect(n.(client := s.peer, handlers := n.handlers[c := Ended]), s.frames, [])
  }

  function DoServerRead(n: Net, c: nat, data: bytes): Effect {
    Effect(n.(fromTarget := n.fromTarget[c := At(n.fromTarget, c) + data]), [], [Forward(c, data)])
  }

  function DoServerEnd(n: Net, c: nat): Effect {
    var s := EndForward(n.server, c);
    Effect(n.(server := s.peer, forwarders := n.forwarders - {c}), [], s.frames)
  }

  /** A dial task runs to completion. */
  function DoDial(n: Net, i: nat, reachable: bool): Effect
    requires i < |n.server.tasks|
  {
    var t := n.server.tasks[i];
    var b := n.server.(tasks := n.server.tasks[..i] + n.server.tasks[i + 1..]);
    var s := RunTask(b, t, reachable);
    var address := ParseConnect(t.payload);
    var dials := address.Some? && Utf8(address.value.host);
    var opens := dials && reachable;
    Effect(n.(server := s.peer,
              settled := n.settled + {t.id},
              reached := if opens then n.reached + {t.id} else n.reached,
              forwarders := if opens then n.forwarders + {t.id} else n.forwarders,
              dialled := if dials then n.dialled[t.id := address.value] else n.dialled),
           [], s.frames)
  }

  function Local(n: Net, step: Step): Effect {
    match step
    case ClientConnect(address) => DoConnect(n, address)
    case ClientResume(c) =>
      if HandlerIs(n, c, Connecting) && c in n.client.futures && n.client.futures[c].Answered?
      then DoResume(n, c) else Idle(n)
    case ClientTimeout(c) =>
      if HandlerIs(n, c, Connecting) && c in n.client.futures && n.client.futures[c].Waiting?
      then DoGiveUp(n, c) else Idle(n)
    case ClientAttach(c) => if HandlerIs(n, c, Opened) then DoAttach(n, c) else Idle(n)
    case ClientAbort(c) => if HandlerIs(n, c, Opened) then DoAbort(n, c) else Idle(n)
    case ClientRead(c, data) =>
      if HandlerIs(n, c, Forwarding) && Readable(data) then DoClientRead(n, c, data) else Idle(n)
    case ClientEnd(c) => if HandlerIs(n, c, Forwarding) then DoClientEnd(n, c) else Idle(n)
    case ServerDial(i, reachable) => if i < |n.server.tasks| then DoDial(n, i, reachable) else Idle(n)
    case ServerRead(c, data) => if c in n.forwarders && Readable(data) then DoServerRead(n, c, data) else Idle(n)
    case ServerEnd(c) => if c in n.forwarders then DoServerEnd(n, c) else Idle(n)
    case DeliverToServer(_) => Idle(n)
    case DeliverToClient(_) => Idle(n)
  }

  function Do(k: Codec, s: Sys, step: Step): Sys {
    match step
    case DeliverToServer(n) =>
      var m := Min(n, |s.toServer|);
      var d := Drain(k, s.serverBuffer + s.toServer[..m]);
      s.(net := s.net.(server := HandleAll(s.net.server, d.frames)),
         serverBuffer := d.rest, toServer := s.toServer[m..])
    case DeliverToClient(n) =>
      var m := Min(n, |s.toClient|);
      var d := Drain(k, s.clientBuffer + s.toClient[..m]);
      s.(net := s.net.(client := HandleAll(s.net.client, d.frames)),
         clientBuffer := d.rest, toClient := s.toClient[m..])
    case _ =>
      var e := Local(s.net, step);
      s.(net := e.net, toServer := s.toServer + EncodeAll(k, e.toServer),
         toClient := s.toClient + EncodeAll(k, e.toClient))
  }

  function Run(k: Codec, steps: seq<Step>): Sys {
    if steps == [] then START else Do(k, Run(k, steps[..|steps| - 1]), steps[|steps| - 1])
  }

  // ---------- what is in flight on a channel ----------

  /** The DATA bytes for channel `c` among frames in flight. */
  function Data(q: seq<Frame>, c: nat): bytes {
    if q == [] then [] else (if q[0].kind == MSG_DATA && q[0].id == c then q[0].payload else []) + Data(q[1..], c)
  }

  /** The number of frames of a kind for channel `c`. */
  function Count(q: seq<Frame>, kind: byte, c: nat): nat {
    if q == [] then 0 else (if q[0].kind == kind && q[0].id == c then 1 else 0) + Count(q[1..], kind, c)
  }

  function CountTasks(tasks: seq<Task>, c: nat): nat {
    if tasks == [] then 0 else (if tasks[0].id == c then 1 else 0) + CountTasks(tasks[1..], c)
  }

  lemma {:induction false} AppendOne(q: seq<Frame>, f: Frame, c: nat)
    ensures Data(q + [f], c) == Data(q, c) + (if f.kind == MSG_DATA && f.id == c then f.payload else [])
    decreases |q|
  {
    if q == [] {
      assert q + [f] == [f];
      assert [f][1..] == [];
    } else {
      AppendOne(q[1..], f, c);
      assert (q + [f])[1..] == q[1..] + [f];
      Associative(if q[0].kind == MSG_DATA && q[0].id == c then q[0].payload else [], Data(q[1..], c),
                  if f.kind == MSG_DATA && f.id == c then f.payload else []);
    }
  }

  lemma {:induction false} CountOneMore(q: seq<Frame>, f: Frame, kind: byte, c: nat)
    ensures Count(q + [f], kind, c) == Count(q, kind, c) + (if f.kind == kind && f.id == c then 1 else 0)
    decreases |q|
  {
    if q == [] {
      assert q + [f] == [f];
      assert [f][1..] == [];
    } else {
      CountOneMore(q[1..], f, kind, c);
      assert (q + [f])[1..] == q[1..] + [f];
    }
  }

  lemma {:induction false} AppendTask(tasks: seq<Task>, t: Task, c: nat)
    ensures CountTasks(tasks + [t], c) == CountTasks(tasks, c) + (if t.id == c then 1 else 0)
  {
    if tasks == [] {
      assert tasks + [t] == [t];
      assert [t][1..] == [];
    } else {
      AppendTask(tasks[1..], t, c);
      assert (tasks + [t])[1..] == tasks[1..] + [t];
    }
  }

  lemma {:induction false} RemoveTask(tasks: seq<Task>, i: nat, c: nat)
    requires i < |tasks|
    ensures CountTasks(tasks, c) == CountTasks(tasks[..i] + tasks[i + 1..], c) + (if tasks[i].id == c then 1 else 0)
  {
    var less := tasks[..i] + tasks[i + 1..];
    if i == 0 {
      assert less == tasks[1..];
    } else {
      RemoveTask(tasks[1..], i - 1, c);
      assert less[0] == tasks[0];
      assert less[1..] == tasks[1..][..i - 1] + tasks[1..][i..];
    }
  }

  // ---------- the invariant, channel by channel ----------

  /**
   * Everything the state of a run says about one channel.
   * Upstream: `sent` was read from the SOCKS client, `flying` is in flight, `arrived`
   * was written to the target.  Downstream: `read` came from the target, `returning`
   * is in flight, `lost` reached the client before it had a writer, `given` was
   * written to the SOCKS client.
   */
  datatype View = View(
    issued: bool, connects: nat, tasks: nat, settled: bool, reached: bool, forwarding: bool,
    up: Option<Channel>, sent: bytes, flying: bytes, arrived: bytes,
    down: Option<Channel>, read: bytes, returning: bytes, lost: bytes, given: bytes,
    oks: nat, accepted: bool, fails: nat, refused: bool, handler: Option<Handler>)

  function Get<T>(m: map<nat, T>, c: nat): Option<T> {
    if c in m then Some(m[c]) else None
  }

  function ViewOf(n: Net, p: seq<Frame>, q: seq<Frame>, c: nat): View {
    View(c < n.client.nextId, Count(p, MSG_CONNECT, c), CountTasks(n.server.tasks, c), c in n.settled, c in n.reached,
         c in n.forwarders,
         Get(n.server.channels, c), At(n.fromClient, c), Data(p, c), At(n.server.written, c),
         Get(n.client.channels, c), At(n.fromTarget, c), Data(q, c), At(n.client.dropped, c), At(n.client.written, c),
         Count(q, MSG_CONNECT_OK, c), Get(n.client.futures, c) == Some(Answered(true)),
         Count(q, MSG_CONNECT_FAIL, c), Get(n.client.futures, c) == Some(Answered(false)), Get(n.handlers, c))
  }

  /** A channel is dialled at most once in its life, and not before its id was handed out. */
  predicate DialledOnce(v: View) {
    var dials := v.connects + v.tasks + (if v.settled then 1 else 0);
    dials <= 1 && (v.reached ==> v.settled) && (!v.issued ==> dials == 0 && v.handler == None && v.down == None)
  }

  /** Nothing happens on a channel whose dial has not succeeded. */
  predicate Silent(v: View) {
    && v.up == None && !v.forwarding && v.sent == [] && v.flying == [] && v.arrived == []
    && v.read == [] && v.returning == [] && v.lost == [] && v.given == []
    && v.oks == 0 && !v.accepted && v.handler != Some(Opened) && v.handler != Some(Forwarding)
  }

  /** Client to target: nothing is lost while the channel is up, and the target has a prefix for ever after. */
  predicate Upstream(v: View) {
    && v.arrived <= v.sent
    && (v.up.Some? ==> v.up.value.hasWriter && v.arrived + v.flying == v.sent)
  }

  /** Target to client: a lost front part, then what the client was given, then what is in flight. */
  predicate Downstream(v: View) {
    && v.lost + v.given <= v.read
    && (v.down.Some? ==> v.lost + v.given + v.returning == v.read && (!v.down.value.hasWriter ==> v.given == []))
  }

  /** A refusal, on its way or answered, is that of a dial that ended without success. */
  predicate RefusedTruly(v: View) {
    v.fails > 0 || v.refused ==> v.settled && !v.reached
  }

  predicate ViewOk(v: View) {
    DialledOnce(v) && (!v.reached ==> Silent(v)) && RefusedTruly(v) && Upstream(v) && Downstream(v)
  }

  /** A CONNECT names the address its client asked for. */
  predicate Asked(n: Net, c: nat, payload: bytes) {
    c in n.requested && Packable(n.requested[c]) && payload == ConnectPayload(n.requested[c]) && c < ID_LIMIT
  }

  ghost predicate AddressesOk(n: Net, p: seq<Frame>) {
    && (forall i :: 0 <= i < |p| && p[i].kind == MSG_CONNECT ==> Asked(n, p[i].id, p[i].payload))
    && (forall i :: 0 <= i < |n.server.tasks| ==> Asked(n, n.server.tasks[i].id, n.server.tasks[i].payload))
    && (forall c :: c in n.dialled ==> c in n.requested && n.dialled[c] == n.requested[c])
    && (forall c :: c in n.requested ==> c < n.client.nextId)
    && (forall c :: c in n.reached ==> c < ID_LIMIT)
  }

  ghost predicate Inv(n: Net, p: seq<Frame>, q: seq<Frame>) {
    AddressesOk(n, p) && forall c :: ViewOk(ViewOf(n, p, q, c))
  }

  // ---------- handling one frame ----------

  lemma Regroup(w: bytes, x: bytes, y: bytes)
    ensures w + (x + y) == (w + x) + y
    ensures w + x <= (w + x) + y
  {
  }

  // What handling the first frame in flight does to the view of each channel.

  lemma ServerHandlesOther(n: Net, p: seq<Frame>, q: seq<Frame>, c: nat)
    requires p != [] && (p[0].id != c || p[0].kind !in {MSG_CONNECT, MSG_DATA, MSG_CLOSE})
    ensures ViewOf(n.(server := Handle(n.server, p[0])), p[1..], q, c) == ViewOf(n, p, q, c)
  {
    assert [] + Data(p[1..], c) == Data(p[1..], c);
    if p[0].kind == MSG_CONNECT {
      AppendTask(n.server.tasks, Task(p[0].id, p[0].payload), c);
    } else {
      assert CountTasks(Handle(n.server, p[0]).tasks, c) == CountTasks(n.server.tasks, c);
    }
  }

  lemma ServerHandlesConnect(n: Net, p: seq<Frame>, q: seq<Frame>, c: nat)
    requires p != [] && p[0].id == c && p[0].kind == MSG_CONNECT
    ensures var v := ViewOf(n, p, q, c);
            v.connects > 0 &&
            ViewOf(n.(server := Handle(n.server, p[0])), p[1..], q, c)
            == v.(connects := v.connects - 1, tasks := v.tasks + 1)
  {
    AppendTask(n.server.tasks, Task(c, p[0].payload), c);
    assert [] + Data(p[1..], c) == Data(p[1..], c);
  }

  lemma ServerHandlesData(n: Net, p: seq<Frame>, q: seq<Frame>, c: nat)
    requires p != [] && p[0].id == c && p[0].kind == MSG_DATA
    ensures var v := ViewOf(n, p, q, c); var rest := Data(p[1..], c);
            v.flying == p[0].payload + rest &&
            (v.up.None? ==> ViewOf(n.(server := Handle(n.server, p[0])), p[1..], q, c) == v.(flying := rest)) &&
            (v.up.Some? && v.up.value.hasWriter ==>
               ViewOf(n.(server := Handle(n.server, p[0])), p[1..], q, c)
               == v.(flying := rest, arrived := v.arrived + p[0].payload))
  {
  }

  lemma ServerHandlesClose(n: Net, p: seq<Frame>, q: seq<Frame>, c: nat)
    requires p != [] && p[0].id == c && p[0].kind == MSG_CLOSE
    ensures ViewOf(n.(server := Handle(n.server, p[0])), p[1..], q, c) == ViewOf(n, p, q, c).(up := None)
  {
    assert [] + Data(p[1..], c) == Data(p[1..], c);
  }

  lemma ServerHandlesDataWell(n: Net, p: seq<Frame>, q: seq<Frame>, c: nat)
    requires p != [] && p[0].id == c && p[0].kind == MSG_DATA && ViewOk(ViewOf(n, p, q, c))
    ensures ViewOk(ViewOf(n.(server := Handle(n.server, p[0])), p[1..], q, c))
  {
    ServerHandlesData(n, p, q, c);
    Regroup(At(n.server.written, c), p[0].payload, Data(p[1..], c));
  }

  lemma ServerHandles(n: Net, p: seq<Frame>, q: seq<Frame>, c: nat)
    requires p != [] && ViewOk(ViewOf(n, p, q, c))
    ensures ViewOk(ViewOf(n.(server := Handle(n.server, p[0])), p[1..], q, c))
  {
    var kind := p[0].kind;
    if p[0].id != c || kind !in {MSG_CONNECT, MSG_DATA, MSG_CLOSE} {
      ServerHandlesOther(n, p, q, c);
    } else if kind == MSG_CONNECT {
      ServerHandlesConnect(n, p, q, c);
    } else if kind == MSG_DATA {
      ServerHandlesDataWell(n, p, q, c);
    } else {
      ServerHandlesClose(n, p, q, c);
    }
  }

  lemma ClientHandlesOther(n: Net, p: seq<Frame>, q: seq<Frame>, c: nat)
    requires q != [] && q[0].id != c
    ensures ViewOf(n.(client := Handle(n.client, q[0])), p, q[1..], c) == ViewOf(n, p, q, c)
  {
    assert Data(q, c) == [] + Data(q[1..], c) == Data(q[1..], c);
    HandleIsElsewhere(n.client, q[0], c);
  }

  /** A frame only touches its own channel. */
  lemma HandleIsElsewhere(p: Peer, f: Frame, c: nat)
    requires f.id != c
    ensures var p' := Handle(p, f);
            && Get(p'.channels, c) == Get(p.channels, c) && Get(p'.futures, c) == Get(p.futures, c)
            && At(p'.written, c) == At(p.written, c) && At(p'.dropped, c) == At(p.dropped, c) && p'.nextId == p.nextId
  {
    if f.kind == MSG_DATA {
      DataIsElsewhere(p, f.id, f.payload, c);
    }
  }

  lemma DataIsElsewhere(p: Peer, d: nat, data: bytes, c: nat)
    requires d != c
    ensures var p' := HandleData(p, d, data);
            && p' == p.(written := p'.written, dropped := p'.dropped)
            && At(p'.written, c) == At(p.written, c) && At(p'.dropped, c) == At(p.dropped, c)
  {
  }

  lemma ClientHandlesControl(n: Net, p: seq<Frame>, q: seq<Frame>, c: nat)
    requires q != [] && q[0].id == c && q[0].kind != MSG_DATA
    ensures var v := ViewOf(n, p, q, c);
            var v' := ViewOf(n.(client := Handle(n.client, q[0])), p, q[1..], c);
            && v' == v.(down := v'.down, oks := v'.oks, accepted := v'.accepted, fails := v'.fails,
                        refused := v'.refused)
            && (v'.down == v.down || v'.down == None) && v'.oks <= v.oks && v'.fails <= v.fails
            && (v'.accepted ==> v.accepted || v.oks > 0) && (v'.refused ==> v.refused || v.fails > 0)
  {
    assert [] + Data(q[1..], c) == Data(q[1..], c);
  }

  function AfterData(v: View, data: bytes, returning: bytes): View {
    if v.down.None? then v.(returning := returning)
    else if v.down.value.hasWriter then v.(returning := returning, given := v.given + data)
    else v.(returning := returning, lost := v.lost + data)
  }

  lemma ClientHandlesData(n: Net, p: seq<Frame>, q: seq<Frame>, c: nat)
    requires q != [] && q[0].id == c && q[0].kind == MSG_DATA
    ensures var v := ViewOf(n, p, q, c); var rest := Data(q[1..], c);
            && v.returning == q[0].payload + rest
            && ViewOf(n.(client := Handle(n.client, q[0])), p, q[1..], c) == AfterData(v, q[0].payload, rest)
  {
    var b, data := n.client, q[0].payload;
    var b' := Handle(b, q[0]);
    if c !in b.channels {
      assert b' == b;
    } else if b.channels[c].hasWriter {
      assert b' == b.(written := b.written[c := At(b.written, c) + data]);
    } else {
      assert b' == b.(dropped := b.dropped[c := At(b.dropped, c) + data]);
    }
  }

  lemma AfterDataOk(v: View, data: bytes, returning: bytes)
    requires ViewOk(v) && v.returning == data + returning
    ensures ViewOk(AfterData(v, data, returning))
  {
    if v.down.Some? {
      Regroup(v.lost + v.given, data, returning);
      Regroup(v.lost, v.given, data);
      if !v.down.value.hasWriter {
        assert v.lost + v.given == v.lost && v.lost + data + v.given == v.lost + data;
      }
    }
  }

  lemma ClientHandles(n: Net, p: seq<Frame>, q: seq<Frame>, c: nat)
    requires q != [] && ViewOk(ViewOf(n, p, q, c))
    ensures ViewOk(ViewOf(n.(client := Handle(n.client, q[0])), p, q[1..], c))
  {
    if q[0].id != c {
      ClientHandlesOther(n, p, q, c);
    } else if q[0].kind == MSG_DATA {
      ClientHandlesData(n, p, q, c);
      AfterDataOk(ViewOf(n, p, q, c), q[0].payload, Data(q[1..], c));
    } else {
      ClientHandlesControl(n, p, q, c);
    }
  }

  lemma ServerHandlesAddresses(n: Net, p: seq<Frame>)
    requires p != [] && AddressesOk(n, p)
    ensures AddressesOk(n.(server := Handle(n.server, p[0])), p[1..])
  {
    var n' := n.(server := Handle(n.server, p[0]));
    assert p[0].kind == MSG_CONNECT ==> Asked(n, p[0].id, p[0].payload);
    assert forall i :: 0 <= i < |p[1..]| ==> p[1..][i] == p[i + 1];
    forall i | 0 <= i < |n'.server.tasks| ensures Asked(n', n'.server.tasks[i].id, n'.server.tasks[i].payload) {
      if i < |n.server.tasks| {
        assert Asked(n, n.server.tasks[i].id, n.server.tasks[i].payload);
      }
    }
  }

  /** The server handles the first frames in flight, however many a chunk completes. */
  lemma {:induction false} ServerHandlesAll(n: Net, a: seq<Frame>, p: seq<Frame>, q: seq<Frame>)
    requires Inv(n, a + p, q)
    ensures Inv(n.(server := HandleAll(n.server, a)), p, q)
    decreases |a|
  {
    if a == [] {
      assert a + p == p;
    } else {
      var n' := n.(server := Handle(n.server, a[0]));
      assert (a + p)[0] == a[0] && (a + p)[1..] == a[1..] + p;
      forall c ensures ViewOk(ViewOf(n', a[1..] + p, q, c)) { ServerHandles(n, a + p, q, c); }
      ServerHandlesAddresses(n, a + p);
      ServerHandlesAll(n', a[1..], p, q);
    }
  }

  lemma {:induction false} ClientHandlesAll(n: Net, p: seq<Frame>, a: seq<Frame>, q: seq<Frame>)
    requires Inv(n, p, a + q)
    ensures Inv(n.(client := HandleAll(n.client, a)), p, q)
    decreases |a|
  {
    if a == [] {
      assert a + q == q;
    } else {
      var n' := n.(client := Handle(n.client, a[0]));
      assert (a + q)[0] == a[0] && (a + q)[1..] == a[1..] + q;
      forall c ensures ViewOk(ViewOf(n', p, a[1..] + q, c)) { ClientHandles(n, p, a + q, c); }
      ClientHandlesAll(n', p, a[1..], q);
    }
  }

  // ---------- local steps ----------

  /** A frame written at one end only shows in what is in flight on its own channel. */
  lemma ViewOfSend(n: Net, p: seq<Frame>, q: seq<Frame>, f: Frame, c: nat)
    ensures var v := ViewOf(n, p, q, c);
            ViewOf(n, p + [f], q, c)
            == if f.id != c then v
               else if f.kind == MSG_DATA then v.(flying := v.flying + f.payload)
               else if f.kind == MSG_CONNECT then v.(connects := v.connects + 1)
               else v
  {
    AppendOne(p, f, c);
    CountOneMore(p, f, MSG_CONNECT, c);
    assert Data(p, c) + [] == Data(p, c);
  }

  lemma ViewOfReply(n: Net, p: seq<Frame>, q: seq<Frame>, f: Frame, c: nat)
    ensures var v := ViewOf(n, p, q, c);
            ViewOf(n, p, q + [f], c)
            == if f.id != c then v
               else if f.kind == MSG_DATA then v.(returning := v.returning + f.payload)
               else if f.kind == MSG_CONNECT_OK then v.(oks := v.oks + 1)
               else if f.kind == MSG_CONNECT_FAIL then v.(fails := v.fails + 1)
               else v
  {
    AppendOne(q, f, c);
    CountOneMore(q, f, MSG_CONNECT_OK, c);
    CountOneMore(q, f, MSG_CONNECT_FAIL, c);
    assert Data(q, c) + [] == Data(q, c);
  }

  /** What a step and the frames it sends make of a channel's view. */
  function Next(e: Effect, p: seq<Frame>, q: seq<Frame>, c: nat): View {
    ViewOf(e.net, p + e.toServer, q + e.toClient, c)
  }

  lemma NextOfIdle(n: Net, p: seq<Frame>, q: seq<Frame>, c: nat)
    ensures Next(Idle(n), p, q, c) == ViewOf(n, p, q, c)
  {
    assert p + [] == p && q + [] == q;
  }

  lemma ConnectView(n: Net, p: seq<Frame>, q: seq<Frame>, address: Address, c: nat)
    ensures var e := DoConnect(n, address); var v := ViewOf(n, p, q, c); var id := n.client.nextId;
            && e.net.handlers[id] in {Connecting, Ended}
            && ViewOf(e.net, p, q, c)
            == if c != id then v.(issued := c < id + 1)
               else v.(issued := true, down := Some(Channel(true, false)), accepted := false, refused := false,
                      handler := Some(e.net.handlers[id]))
  {
    ConnectEffect(n, address);
  }

  /** What a new connection touches. */
  lemma ConnectEffect(n: Net, address: Address)
    ensures var n' := DoConnect(n, address).net; var id := n.client.nextId;
            && n'.client == n.client.(nextId := id + 1, channels := n.client.channels[id := Channel(true, false)],
                                      futures := n.client.futures[id := Waiting])
            && n' == n.(client := n'.client, handlers := n'.handlers, requested := n'.requested)
            && (n'.handlers == n.handlers[id := Ended] || n'.handlers == n.handlers[id := Connecting])
  {
  }

  lemma ConnectKeeps(n: Net, p: seq<Frame>, q: seq<Frame>, address: Address, c: nat)
    requires ViewOk(ViewOf(n, p, q, c))
    ensures ViewOk(Next(DoConnect(n, address), p, q, c))
  {
    var e := DoConnect(n, address);
    ConnectView(n, p, q, address, c);
    assert q + [] == q;
    if e.toServer == [] {
      assert p + e.toServer == p;
    } else {
      ViewOfSend(e.net, p, q, e.toServer[0], c);
    }
  }

  lemma AbortKeeps(n: Net, p: seq<Frame>, q: seq<Frame>, d: nat, c: nat)
    requires ViewOk(ViewOf(n, p, q, c)) && d in n.handlers
    ensures ViewOk(Next(DoAbort(n, d), p, q, c))
  {
    var n' := DoAbort(n, d).net;
    NextOfIdle(n', p, q, c);
    var v := ViewOf(n, p, q, c);
    assert ViewOf(n', p, q, c) == if c != d then v else v.(handler := Some(Ended));
  }

  lemma GivenUpView(n: Net, p: seq<Frame>, q: seq<Frame>, d: nat, c: nat)
    ensures var v := ViewOf(n, p, q, c);
            ViewOf(Dropped(n, d), p, q, c) == if c != d then v else v.(down := None, handler := Some(Ended))
  {
  }

  lemma ToldIsNoView(n: Net, told: map<nat, bool>, p: seq<Frame>, q: seq<Frame>, c: nat)
    ensures ViewOf(n.(told := told), p, q, c) == ViewOf(n, p, q, c)
  {
  }

  lemma GiveUpKeeps(n: Net, p: seq<Frame>, q: seq<Frame>, d: nat, c: nat)
    requires ViewOk(ViewOf(n, p, q, c)) && d in n.handlers
    ensures ViewOk(Next(DoGiveUp(n, d), p, q, c))
  {
    NextOfIdle(DoGiveUp(n, d).net, p, q, c);
    GivenUpView(n, p, q, d, c);
    ToldIsNoView(Dropped(n, d), n.told[d := false], p, q, c);
  }

  lemma ResumeKeeps(n: Net, p: seq<Frame>, q: seq<Frame>, d: nat, c: nat)
    requires ViewOk(ViewOf(n, p, q, c)) && HandlerIs(n, d, Connecting)
    requires d in n.client.futures && n.client.futures[d].Answered?
    ensures ViewOk(Next(DoResume(n, d), p, q, c))
  {
    var v := ViewOf(n, p, q, c);
    if n.client.futures[d].ok {
      var n' := DoResume(n, d).net;
      NextOfIdle(n', p, q, c);
      assert ViewOf(n', p, q, c) == if c != d then v else v.(handler := Some(Opened));
      assert c == d ==> v.accepted;
    } else {
      GiveUpKeeps(n, p, q, d, c);
    }
  }

  lemma AttachedView(n: Net, p: seq<Frame>, q: seq<Frame>, d: nat, c: nat)
    requires d in n.client.channels
    ensures var v := ViewOf(n, p, q, c);
            ViewOf(DoAttach(n, d).net, p, q, c)
            == if c != d then v
               else v.(down := Some(n.client.channels[d].(hasWriter := true)), handler := Some(Forwarding))
  {
  }

  lemma AttachKeeps(n: Net, p: seq<Frame>, q: seq<Frame>, d: nat, c: nat)
    requires ViewOk(ViewOf(n, p, q, c)) && HandlerIs(n, d, Opened)
    ensures ViewOk(Next(DoAttach(n, d), p, q, c))
  {
    if d in n.client.channels {
      AttachedView(n, p, q, d, c);
      NextOfIdle(DoAttach(n, d).net, p, q, c);
    } else {
      AbortKeeps(n, p, q, d, c);
    }
  }

  lemma ClientReadKeeps(n: Net, p: seq<Frame>, q: seq<Frame>, d: nat, data: bytes, c: nat)
    requires ViewOk(ViewOf(n, p, q, c)) && HandlerIs(n, d, Forwarding)
    ensures ViewOk(Next(DoClientRead(n, d, data), p, q, c))
  {
    var n' := DoClientRead(n, d, data).net;
    var v := ViewOf(n, p, q, c);
    assert q + [] == q;
    assert ViewOf(n', p, q, c) == if c != d then v else v.(sent := v.sent + data);
    ViewOfSend(n', p, q, Forward(d, data), c);
    Regroup(v.arrived, v.flying, data);
  }

  lemma ClientEndKeeps(n: Net, p: seq<Frame>, q: seq<Frame>, d: nat, c: nat)
    requires ViewOk(ViewOf(n, p, q, c)) && HandlerIs(n, d, Forwarding)
    ensures ViewOk(Next(DoClientEnd(n, d), p, q, c))
  {
    var n' := DoClientEnd(n, d).net;
    assert q + [] == q;
    assert n' == Dropped(n, d);
    GivenUpView(n, p, q, d, c);
    ViewOfSend(n', p, q, Frame(MSG_CLOSE, d, []), c);
  }

  predicate Dials(t: Task) {
    ParseConnect(t.payload).Some? && Utf8(ParseConnect(t.payload).value.host)
  }

  /** A dial task uses itself up; only a successful dial brings its channel up. */
  lemma DialEffect(n: Net, i: nat, reachable: bool)
    requires i < |n.server.tasks|
    ensures var e := DoDial(n, i, reachable); var t := n.server.tasks[i];
            var opens := Dials(t) && reachable; var b := n.server; var b' := e.net.server;
            && b' == b.(channels := b'.channels, tasks := b.tasks[..i] + b.tasks[i + 1..])
            && b'.channels == (if opens then b.channels[t.id := Channel(false, true)] else b.channels)
            && e.net == n.(server := b', settled := n.settled + {t.id}, dialled := e.net.dialled,
                           reached := if opens then n.reached + {t.id} else n.reached,
                           forwarders := if opens then n.forwarders + {t.id} else n.forwarders)
            && (e.toClient == [] || e.toClient == [Frame(if opens then MSG_CONNECT_OK else MSG_CONNECT_FAIL, t.id, [])])
            && e.toServer == []
  {
  }

  function AfterDial(v: View, opens: bool): View
    requires v.tasks > 0
  {
    if opens then v.(tasks := v.tasks - 1, settled := true, reached := true,
                    forwarding := true, up := Some(Channel(false, true)))
    else v.(tasks := v.tasks - 1, settled := true)
  }

  lemma DialViewElsewhere(n: Net, p: seq<Frame>, q: seq<Frame>, i: nat, reachable: bool, c: nat)
    requires i < |n.server.tasks| && c != n.server.tasks[i].id
    ensures ViewOf(DoDial(n, i, reachable).net, p, q, c) == ViewOf(n, p, q, c)
  {
    DialEffect(n, i, reachable);
    RemoveTask(n.server.tasks, i, c);
  }

  lemma DialViewOwn(n: Net, p: seq<Frame>, q: seq<Frame>, i: nat, reachable: bool)
    requires i < |n.server.tasks|
    ensures var t := n.server.tasks[i]; var v := ViewOf(n, p, q, t.id);
            v.tasks > 0 && ViewOf(DoDial(n, i, reachable).net, p, q, t.id) == AfterDial(v, Dials(t) && reachable)
  {
    DialEffect(n, i, reachable);
    RemoveTask(n.server.tasks, i, n.server.tasks[i].id);
  }

  lemma DialKeeps(n: Net, p: seq<Frame>, q: seq<Frame>, i: nat, reachable: bool, c: nat)
    requires ViewOk(ViewOf(n, p, q, c)) && i < |n.server.tasks|
    ensures ViewOk(Next(DoDial(n, i, reachable), p, q, c))
  {
    var e := DoDial(n, i, reachable);
    if c == n.server.tasks[i].id {
      DialViewOwn(n, p, q, i, reachable);
    } else {
      DialViewElsewhere(n, p, q, i, reachable, c);
    }
    DialEffect(n, i, reachable);
    assert ViewOk(ViewOf(e.net, p, q, c));
    assert p + e.toServer == p;
    if e.toClient == [] {
      assert q + e.toClient == q;
    } else {
      ViewOfReply(e.net, p, q, e.toClient[0], c);
    }
  }

  lemma ServerReadKeeps(n: Net, p: seq<Frame>, q: seq<Frame>, d: nat, data: bytes, c: nat)
    requires ViewOk(ViewOf(n, p, q, c)) && d in n.forwarders
    ensures ViewOk(Next(DoServerRead(n, d, data), p, q, c))
  {
    var n' := DoServerRead(n, d, data).net;
    var v := ViewOf(n, p, q, c);
    assert p + [] == p;
    assert ViewOf(n', p, q, c) == if c != d then v else v.(read := v.read + data);
    ViewOfReply(n', p, q, Forward(d, data), c);
    Regroup(v.lost + v.given, v.returning, data);
  }

  lemma ServerEndKeeps(n: Net, p: seq<Frame>, q: seq<Frame>, d: nat, c: nat)
    requires ViewOk(ViewOf(n, p, q, c)) && d in n.forwarders
    ensures ViewOk(Next(DoServerEnd(n, d), p, q, c))
  {
    var n' := DoServerEnd(n, d).net;
    var v := ViewOf(n, p, q, c);
    assert p + [] == p;
    assert ViewOf(n', p, q, c) == if c != d then v else v.(forwarding := false, up := None);
    ViewOfReply(n', p, q, Frame(MSG_CLOSE, d, []), c);
  }

  lemma LocalKeepsView(n: Net, p: seq<Frame>, q: seq<Frame>, step: Step, c: nat)
    requires ViewOk(ViewOf(n, p, q, c))
    ensures ViewOk(Next(Local(n, step), p, q, c))
  {
    if Local(n, step) == Idle(n) {
      NextOfIdle(n, p, q, c);
    } else {
      match step
      case ClientConnect(address) => ConnectKeeps(n, p, q, address, c);
      case ClientResume(d) => ResumeKeeps(n, p, q, d, c);
      case ClientTimeout(d) => GiveUpKeeps(n, p, q, d, c);
      case ClientAttach(d) => AttachKeeps(n, p, q, d, c);
      case ClientAbort(d) => AbortKeeps(n, p, q, d, c);
      case ClientRead(d, data) => ClientReadKeeps(n, p, q, d, data, c);
      case ClientEnd(d) => ClientEndKeeps(n, p, q, d, c);
      case ServerDial(i, reachable) => DialKeeps(n, p, q, i, reachable, c);
      case ServerRead(d, data) => ServerReadKeeps(n, p, q, d, data, c);
      case ServerEnd(d) => ServerEndKeeps(n, p, q, d, c);
    }
  }

  // ---------- addresses ----------

  lemma SendKeepsAddresses(n: Net, e: Effect, p: seq<Frame>)
    requires AddressesOk(n, p) && Quiet(n, e)
    ensures AddressesOk(e.net, p + e.toServer)
  {
    var n', more := e.net, e.toServer;
    forall i | 0 <= i < |p + more| && (p + more)[i].kind == MSG_CONNECT
      ensures Asked(n', (p + more)[i].id, (p + more)[i].payload)
    {
      assert i < |p|;
      assert Asked(n, p[i].id, p[i].payload);
    }
    forall i | 0 <= i < |n'.server.tasks| ensures Asked(n', n'.server.tasks[i].id, n'.server.tasks[i].payload) {
      assert Asked(n, n.server.tasks[i].id, n.server.tasks[i].payload);
    }
  }

  lemma ConnectKeepsAddresses(n: Net, p: seq<Frame>, address: Address)
    requires AddressesOk(n, p)
    ensures var e := DoConnect(n, address); AddressesOk(e.net, p + e.toServer)
  {
    var e := DoConnect(n, address);
    var all := p + e.toServer;
    forall c, payload | Asked(n, c, payload) ensures Asked(e.net, c, payload) {
    }
    forall i | 0 <= i < |all| && all[i].kind == MSG_CONNECT ensures Asked(e.net, all[i].id, all[i].payload) {
      if i < |p| { assert Asked(n, p[i].id, p[i].payload); }
    }
    forall i | 0 <= i < |n.server.tasks| ensures Asked(e.net, n.server.tasks[i].id, n.server.tasks[i].payload) {
      assert Asked(n, n.server.tasks[i].id, n.server.tasks[i].payload);
    }
  }

  lemma DialKeepsAddresses(n: Net, p: seq<Frame>, i: nat, reachable: bool)
    requires AddressesOk(n, p) && i < |n.server.tasks|
    ensures var e := DoDial(n, i, reachable); AddressesOk(e.net, p + e.toServer)
  {
    var e := DoDial(n, i, reachable);
    var t := n.server.tasks[i];
    DialEffect(n, i, reachable);
    assert p + e.toServer == p;
    assert Asked(n, t.id, t.payload);
    ParseOfConnectPayload(n.requested[t.id]);
    forall j | 0 <= j < |e.net.server.tasks|
      ensures Asked(e.net, e.net.server.tasks[j].id, e.net.server.tasks[j].payload)
    {
      var was := if j < i then j else j + 1;
      assert e.net.server.tasks[j] == n.server.tasks[was];
      assert Asked(n, n.server.tasks[was].id, n.server.tasks[was].payload);
    }
    forall j | 0 <= j < |p| && p[j].kind == MSG_CONNECT ensures Asked(e.net, p[j].id, p[j].payload) {
      assert Asked(n, p[j].id, p[j].payload);
    }
  }

  /** The fields that hold the addresses, and no CONNECT among the frames sent. */
  predicate Quiet(n: Net, e: Effect) {
    var n' := e.net;
    && n'.requested == n.requested && n'.dialled == n.dialled && n'.server.tasks == n.server.tasks
    && n'.client.nextId == n.client.nextId && n'.reached == n.reached
    && |e.toServer| <= 1 && (e.toServer != [] ==> e.toServer[0].kind != MSG_CONNECT)
  }

  lemma WaitingIsQuiet(n: Net, c: nat)
    ensures Quiet(n, DoGiveUp(n, c))
    ensures c in n.client.futures && n.client.futures[c].Answered? ==> Quiet(n, DoResume(n, c))
  {
  }

  lemma AttachingIsQuiet(n: Net, c: nat)
    ensures Quiet(n, DoAttach(n, c)) && Quiet(n, DoAbort(n, c))
  {
  }

  lemma ForwardingIsQuiet(n: Net, c: nat, data: bytes)
    ensures Quiet(n, DoClientRead(n, c, data)) && Quiet(n, DoClientEnd(n, c))
    ensures Quiet(n, DoServerRead(n, c, data)) && Quiet(n, DoServerEnd(n, c))
  {
  }

  /** Only connecting and dialling touch the addresses. */
  lemma QuietStep(n: Net, step: Step)
    requires !step.ClientConnect? && !step.ServerDial?
    ensures Quiet(n, Local(n, step))
  {
    if Local(n, step) == Idle(n) {
    } else {
      match step
      case ClientResume(c) => WaitingIsQuiet(n, c);
      case ClientTimeout(c) => WaitingIsQuiet(n, c);
      case ClientAttach(c) => AttachingIsQuiet(n, c);
      case ClientAbort(c) => AttachingIsQuiet(n, c);
      case ClientRead(c, data) => ForwardingIsQuiet(n, c, data);
      case ClientEnd(c) => ForwardingIsQuiet(n, c, []);
      case ServerRead(c, data) => ForwardingIsQuiet(n, c, data);
      case ServerEnd(c) => ForwardingIsQuiet(n, c, []);
    }
  }

  lemma LocalKeepsAddresses(n: Net, p: seq<Frame>, step: Step)
    requires AddressesOk(n, p)
    ensures var e := Local(n, step); AddressesOk(e.net, p + e.toServer)
  {
    var e := Local(n, step);
    if step.ClientConnect? {
      ConnectKeepsAddresses(n, p, step.address);
    } else if step.ServerDial? && step.i < |n.server.tasks| {
      DialKeepsAddresses(n, p, step.i, step.reachable);
    } else {
      if !step.ServerDial? { QuietStep(n, step); }
      SendKeepsAddresses(n, e, p);
    }
  }

  lemma LocalKeeps(n: Net, p: seq<Frame>, q: seq<Frame>, step: Step)
    requires Inv(n, p, q)
    ensures var e := Local(n, step); Inv(e.net, p + e.toServer, q + e.toClient)
  {
    var e := Local(n, step);
    LocalKeepsAddresses(n, p, step);
    forall c ensures ViewOk(ViewOf(e.net, p + e.toServer, q + e.toClient, c)) { LocalKeepsView(n, p, q, step, c); }
  }

  // ---------- whole runs over the byte links ----------

  /** Every frame a proxy end may write fits the codec. */
  ghost predicate Carries(k: Codec) {
    forall fr: Frame :: fr.id < ID_LIMIT && |fr.payload| <= READ_LIMIT ==> k.sendable(fr)
  }

  function UpFrames(k: Codec, s: Sys): seq<Frame> { InFlight(k, s.serverBuffer, s.toServer) }

  function DownFrames(k: Codec, s: Sys): seq<Frame> { InFlight(k, s.clientBuffer, s.toClient) }

  ghost predicate SysInv(k: Codec, s: Sys) {
    && LinkOk(k, s.serverBuffer, s.toServer) && LinkOk(k, s.clientBuffer, s.toClient)
    && Inv(s.net, UpFrames(k, s), DownFrames(k, s))
  }

  predicate Fits(frames: seq<Frame>) {
    forall i :: 0 <= i < |frames| ==> frames[i].id < ID_LIMIT && |frames[i].payload| <= READ_LIMIT
  }

  /** A forwarding channel was reached, so its id went through a CONNECT. */
  lemma ForwardingIdFits(n: Net, p: seq<Frame>, q: seq<Frame>, c: nat)
    requires Inv(n, p, q) && (c in n.forwarders || HandlerIs(n, c, Forwarding))
    ensures c < ID_LIMIT
  {
    var v := ViewOf(n, p, q, c);
    assert ViewOk(v) && (v.forwarding || v.handler == Some(Forwarding));
    assert c in n.reached;
  }

  lemma ConnectFits(n: Net, address: Address)
    ensures Fits(DoConnect(n, address).toServer)
  {
  }

  lemma DialFits(n: Net, i: nat, reachable: bool)
    requires i < |n.server.tasks| && n.server.tasks[i].id < ID_LIMIT
    ensures Fits(DoDial(n, i, reachable).toClient) && DoDial(n, i, reachable).toServer == []
  {
    DialEffect(n, i, reachable);
  }

  lemma LocalFramesFit(n: Net, p: seq<Frame>, q: seq<Frame>, step: Step)
    requires Inv(n, p, q)
    ensures var e := Local(n, step); Fits(e.toServer) && Fits(e.toClient)
  {
    match step
    case ClientConnect(address) => ConnectFits(n, address);
    case ServerDial(i, reachable) =>
      if i < |n.server.tasks| {
        assert Asked(n, n.server.tasks[i].id, n.server.tasks[i].payload);
        DialFits(n, i, reachable);
      }
    case ClientRead(c, data) => if HandlerIs(n, c, Forwarding) { ForwardingIdFits(n, p, q, c); }
    case ClientEnd(c) => if HandlerIs(n, c, Forwarding) { ForwardingIdFits(n, p, q, c); }
    case ServerRead(c, data) => if c in n.forwarders { ForwardingIdFits(n, p, q, c); }
    case ServerEnd(c) => if c in n.forwarders { ForwardingIdFits(n, p, q, c); }
    case _ =>
  }

  lemma LocalFramesSendable(k: Codec, n: Net, p: seq<Frame>, q: seq<Frame>, step: Step)
    requires Carries(k) && Inv(n, p, q)
    ensures var e := Local(n, step); AllSendable(k, e.toServer) && AllSendable(k, e.toClient)
  {
    LocalFramesFit(n, p, q, step);
  }

  lemma LocalStepKeeps(k: Codec, s: Sys, step: Step)
    requires Lawful(k) && Carries(k) && SysInv(k, s) && !step.DeliverToServer? && !step.DeliverToClient?
    ensures SysInv(k, Do(k, s, step))
  {
    var e := Local(s.net, step);
    LocalFramesSendable(k, s.net, UpFrames(k, s), DownFrames(k, s), step);
    SendOnLink(k, s.serverBuffer, s.toServer, e.toServer);
    SendOnLink(k, s.clientBuffer, s.toClient, e.toClient);
    LocalKeeps(s.net, UpFrames(k, s), DownFrames(k, s), step);
  }

  lemma ServerDeliveryKeeps(k: Codec, s: Sys, n: nat)
    requires Lawful(k) && SysInv(k, s)
    ensures SysInv(k, Do(k, s, DeliverToServer(n)))
  {
    var m := Min(n, |s.toServer|);
    var d := Drain(k, s.serverBuffer + s.toServer[..m]);
    DeliverOnLink(k, s.serverBuffer, s.toServer, m);
    ServerHandlesAll(s.net, d.frames, InFlight(k, d.rest, s.toServer[m..]), DownFrames(k, s));
  }

  lemma ClientDeliveryKeeps(k: Codec, s: Sys, n: nat)
    requires Lawful(k) && SysInv(k, s)
    ensures SysInv(k, Do(k, s, DeliverToClient(n)))
  {
    var m := Min(n, |s.toClient|);
    var d := Drain(k, s.clientBuffer + s.toClient[..m]);
    DeliverOnLink(k, s.clientBuffer, s.toClient, m);
    ClientHandlesAll(s.net, UpFrames(k, s), d.frames, InFlight(k, d.rest, s.toClient[m..]));
  }

  lemma {:induction false} RunKeeps(k: Codec, steps: seq<Step>)
    requires Lawful(k) && Carries(k)
    ensures SysInv(k, Run(k, steps))
    decreases |steps|
  {
    if steps == [] {
      EmptyLink(k);
    } else {
      var before := steps[..|steps| - 1];
      RunKeeps(k, before);
      match steps[|steps| - 1]
      case DeliverToServer(n) => ServerDeliveryKeeps(k, Run(k, before), n);
      case DeliverToClient(n) => ClientDeliveryKeeps(k, Run(k, before), n);
      case step => LocalStepKeeps(k, Run(k, before), step);
    }
  }

  lemma ProxyRun(steps: seq<Step>)
    ensures SysInv(Fixed(2), Run(Fixed(2), steps))
  {
    Pow256Values();
    FixedLawful(2);
    RunKeeps(Fixed(2), steps);
  }

  // ---------- the theorems ----------

  /**
   * In every run, what was written to a channel's target is a prefix of what that
   * channel's SOCKS client sent; while the channel is up, the rest is in flight.
   */
  lemma TargetGetsAPrefix(steps: seq<Step>, c: nat)
    ensures var s := Run(Fixed(2), steps); var n := s.net;
            && At(n.server.written, c) <= At(n.fromClient, c)
            && (c in n.server.channels ==>
                  At(n.server.written, c) + Data(UpFrames(Fixed(2), s), c) == At(n.fromClient, c))
  {
    ProxyRun(steps);
    var s := Run(Fixed(2), steps);
    assert ViewOk(ViewOf(s.net, UpFrames(Fixed(2), s), DownFrames(Fixed(2), s), c));
  }

  /**
   * In every run, what the SOCKS client was given is one contiguous block of what its
   * target sent.  Before the block lies only what arrived while no writer was attached;
   * behind it, while the channel is registered, only what is still in flight.
   */
  lemma ClientGetsABlock(steps: seq<Step>, c: nat)
    ensures var s := Run(Fixed(2), steps); var n := s.net;
            var lost := At(n.client.dropped, c); var given := At(n.client.written, c);
            && lost + given <= At(n.fromTarget, c)
            && (c in n.client.channels ==> lost + given + Data(DownFrames(Fixed(2), s), c) == At(n.fromTarget, c))
  {
    ProxyRun(steps);
    var s := Run(Fixed(2), steps);
    assert ViewOk(ViewOf(s.net, UpFrames(Fixed(2), s), DownFrames(Fixed(2), s), c));
  }

  /**
   * In every run, what `connect` is answered on a channel is what came of its dial: true if
   * and only if the target was reached.
   */
  lemma AnsweredAsDialled(steps: seq<Step>, c: nat)
    ensures var n := Run(Fixed(2), steps).net;
            c in n.client.futures && n.client.futures[c].Answered? ==>
              c in n.settled && (n.client.futures[c].ok <==> c in n.reached)
  {
    ProxyRun(steps);
    var s := Run(Fixed(2), steps);
    assert ViewOk(ViewOf(s.net, UpFrames(Fixed(2), s), DownFrames(Fixed(2), s), c));
  }

  /** In every run, the server only dials addresses its client asked for, on the channel it asked for them. */
  lemma DialledAsRequested(steps: seq<Step>, c: nat)
    ensures var n := Run(Fixed(2), steps).net; c in n.dialled ==> c in n.requested && n.dialled[c] == n.requested[c]
  {
    ProxyRun(steps);
  }

  /** Only a new connection changes what was asked for, and only under its own id. */
  lemma StepRequests(k: Codec, s: Sys, step: Step)
    ensures Do(k, s, step).net.requested
         == if step.ClientConnect? then s.net.requested[s.net.client.nextId := step.address] else s.net.requested
  {
    if !step.DeliverToServer? && !step.DeliverToClient? {
      LocalRequests(s.net, step);
    }
  }

  lemma LocalRequests(n: Net, step: Step)
    ensures Local(n, step).net.requested
         == if step.ClientConnect? then n.requested[n.client.nextId := step.address] else n.requested
  {
    if !step.ClientConnect? && !step.ServerDial? {
      QuietStep(n, step);
    }
  }

  /** The step of a run that opened a channel. */
  predicate Opens(k: Codec, steps: seq<Step>, i: nat, c: nat)
    requires i < |steps|
  {
    steps[i].ClientConnect? && Run(k, steps[..i]).net.client.nextId == c
  }

  lemma {:induction false} RequestedWasOpened(k: Codec, steps: seq<Step>, c: nat) returns (i: nat)
    requires c in Run(k, steps).net.requested
    ensures i < |steps| && Opens(k, steps, i, c) && steps[i].address == Run(k, steps).net.requested[c]
    decreases |steps|
  {
    if steps == [] {
      assert false;
    }
    i := |steps| - 1;
    var before := steps[..i];
    StepRequests(k, Run(k, before), steps[i]);
    if !(steps[i].ClientConnect? && Run(k, before).net.client.nextId == c) {
      i := RequestedWasOpened(k, before, c);
      assert before[..i] == steps[..i];
    }
  }

  /** In every run, the address dialled on a channel is the one whose connection opened the channel. */
  lemma DialledWasOpened(steps: seq<Step>, c: nat) returns (i: nat)
    requires c in Run(Fixed(2), steps).net.dialled
    ensures i < |steps| && Opens(Fixed(2), steps, i, c) && steps[i].address == Run(Fixed(2), steps).net.dialled[c]
  {
    DialledAsRequested(steps, c);
    i := RequestedWasOpened(Fixed(2), steps, c);
  }

  // ---------- what the SOCKS client is told ----------

  /** One connection as its SOCKS client sees it. */
  datatype Talk = Talk(issued: bool, handler: Option<Handler>, answer: Option<Future>, up: bool, told: Option<bool>)

  function TalkOf(n: Net, c: nat): Talk {
    Talk(c < n.client.nextId, Get(n.handlers, c), Get(n.client.futures, c), c in n.client.channels, Get(n.told, c))
  }

  /** A reply goes out once, when `connect` returns, and says what it returned with. */
  predicate TalkOk(t: Talk) {
    && (!t.issued ==> t.handler == None && t.told == None)
    && (t.told.Some? ==> t.handler.Some? && t.handler != Some(Connecting) && t.answer.Some?)
    && (t.told.Some? ==> t.told.value == (t.answer == Some(Answered(true))))
    && (t.told.Some? && t.answer == Some(Waiting) ==> !t.up)
    && (t.handler == Some(Opened) || t.handler == Some(Forwarding) ==> t.told == Some(true))
  }

  lemma HandleKeepsTalk(n: Net, f: Frame, c: nat)
    requires TalkOk(TalkOf(n, c))
    ensures TalkOk(TalkOf(n.(client := Handle(n.client, f)), c))
  {
    var t, t' := TalkOf(n, c), TalkOf(n.(client := Handle(n.client, f)), c);
    if f.id != c {
      HandleIsElsewhere(n.client, f, c);
      assert c in n.client.channels <==> Get(n.client.channels, c).Some?;
      assert t' == t;
    } else {
      assert t' == t.(answer := t'.answer, up := t'.up) && (t'.up ==> t.up);
      assert t'.answer == t.answer || (t.up && t.answer == Some(Waiting));
    }
  }

  lemma {:induction false} HandleAllKeepsTalk(n: Net, frames: seq<Frame>, c: nat)
    requires TalkOk(TalkOf(n, c))
    ensures TalkOk(TalkOf(n.(client := HandleAll(n.client, frames)), c))
    decreases |frames|
  {
    if frames == [] {
    } else {
      HandleKeepsTalk(n, frames[0], c);
      HandleAllKeepsTalk(n.(client := Handle(n.client, frames[0])), frames[1..], c);
    }
  }

  lemma ConnectTalk(n: Net, address: Address, c: nat)
    ensures var n' := DoConnect(n, address).net; var id := n.client.nextId;
            TalkOf(n', c)
            == if c != id then TalkOf(n, c).(issued := c < id + 1)
               else TalkOf(n, c).(issued := true, up := true, answer := Some(Waiting), handler := Get(n'.handlers, id))
  {
    ConnectEffect(n, address);
  }

  lemma ResumeTalk(n: Net, d: nat, c: nat)
    requires d in n.client.futures && n.client.futures[d].Answered?
    ensures TalkOf(DoResume(n, d).net, c)
         == if c != d then TalkOf(n, c)
            else if n.client.futures[d].ok then TalkOf(n, c).(handler := Some(Opened), told := Some(true))
            else TalkOf(n, c).(handler := Some(Ended), told := Some(false), up := false)
  {
    GiveUpTalk(n, d, c);
  }

  lemma GiveUpTalk(n: Net, d: nat, c: nat)
    ensures TalkOf(Dropped(n, d), c)
         == if c != d then TalkOf(n, c) else TalkOf(n, c).(handler := Some(Ended), up := false)
    ensures TalkOf(DoGiveUp(n, d).net, c)
         == if c != d then TalkOf(n, c) else TalkOf(n, c).(handler := Some(Ended), up := false, told := Some(false))
  {
  }

  lemma AttachTalk(n: Net, d: nat, c: nat)
    ensures TalkOf(DoAttach(n, d).net, c)
         == if c != d then TalkOf(n, c)
            else TalkOf(n, c).(handler := Some(if d in n.client.channels then Forwarding else Ended))
    ensures TalkOf(DoAbort(n, d).net, c)
         == if c != d then TalkOf(n, c) else TalkOf(n, c).(handler := Some(Ended))
  {
  }

  lemma DialTalk(n: Net, i: nat, reachable: bool, c: nat)
    requires i < |n.server.tasks|
    ensures TalkOf(DoDial(n, i, reachable).net, c) == TalkOf(n, c)
  {
    DialEffect(n, i, reachable);
  }

  lemma LocalKeepsTalk(n: Net, step: Step, c: nat)
    requires TalkOk(TalkOf(n, c))
    ensures TalkOk(TalkOf(Local(n, step).net, c))
  {
    if Local(n, step) != Idle(n) {
      match step
      case ClientConnect(address) => ConnectTalk(n, address, c);
      case ClientResume(d) => ResumeTalk(n, d, c);
      case ClientTimeout(d) => GiveUpTalk(n, d, c);
      case ClientAttach(d) => AttachTalk(n, d, c);
      case ClientAbort(d) => AttachTalk(n, d, c);
      case ClientRead(_, _) => assert TalkOf(Local(n, step).net, c) == TalkOf(n, c);
      case ClientEnd(d) => GiveUpTalk(n, d, c);
      case ServerDial(i, reachable) => DialTalk(n, i, reachable, c);
      case _ => assert TalkOf(Local(n, step).net, c) == TalkOf(n, c);
    }
  }

  lemma {:induction false} RunKeepsTalk(k: Codec, steps: seq<Step>, c: nat)
    ensures TalkOk(TalkOf(Run(k, steps).net, c))
    decreases |steps|
  {
    if steps == [] {
    } else {
      var before, step := Run(k, steps[..|steps| - 1]), steps[|steps| - 1];
      RunKeepsTalk(k, steps[..|steps| - 1], c);
      if step.DeliverToClient? {
        var frames := Drain(k, before.clientBuffer + before.toClient[..Min(step.n, |before.toClient|)]).frames;
        HandleAllKeepsTalk(before.net, frames, c);
      } else if !step.DeliverToServer? {
        LocalKeepsTalk(before.net, step, c);
      }
    }
  }

  /**
   * In every run: a SOCKS client is told "connected" only if its target was reached, and
   * "host unreachable" only if the dial failed or `connect` was not answered; and its
   * bytes are forwarded only once it was told "connected".
   */
  lemma RepliesAreTrue(steps: seq<Step>, c: nat)
    ensures var n := Run(Fixed(2), steps).net;
            && (Get(n.told, c) == Some(true) ==> c in n.reached)
            && (Get(n.told, c) == Some(false) ==>
                  Get(n.client.futures, c) == Some(Waiting) || (c in n.settled && c !in n.reached))
            && (HandlerIs(n, c, Forwarding) ==> Get(n.told, c) == Some(true))
  {
    RunKeepsTalk(Fixed(2), steps, c);
    AnsweredAsDialled(steps, c);
    TalkMeans(TalkOf(Run(Fixed(2), steps).net, c));
  }

  lemma TalkMeans(t: Talk)
    requires TalkOk(t)
    ensures t.told == Some(true) ==> t.answer == Some(Answered(true))
    ensures t.told == Some(false) ==> t.answer == Some(Waiting) || t.answer == Some(Answered(false))
  {
    if t.told == Some(false) && t.answer.value.Answered? {
      assert t.answer == Some(Answered(t.answer.value.ok));
    }
  }
}
