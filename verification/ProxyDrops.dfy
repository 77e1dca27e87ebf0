/**
 * Target bytes that reach the client before the writer of their channel is attached are
 * lost: when that happens, and a run in which it does.
 */
module ProxyDrops {
  import opened Bytes
  import opened Framing
  import opened WireFormats
  import opened Proxy
  import opened ProxyRuns

  // ---------- what one chunk drops ----------

  /** The bytes for a channel among frames, up to its CLOSE. */
  function UpToClose(frames: seq<Frame>, c: nat): bytes {
    if frames == [] || (frames[0].kind == MSG_CLOSE && frames[0].id == c) then []
    else (if frames[0].kind == MSG_DATA && frames[0].id == c then frames[0].payload else []) + UpToClose(frames[1..], c)
  }

  /** The channel is registered, and its writer is not attached yet. */
  predicate Unready(p: Peer, c: nat) { c in p.channels && !p.channels[c].hasWriter }

  function Lost(p: Peer, frames: seq<Frame>, c: nat): bytes {
    if Unready(p, c) then UpToClose(frames, c) else []
  }

  lemma HandleDrops(p: Peer, f: Frame, c: nat)
    ensures var p' := Handle(p, f); var mine := f.id == c;
            && At(p'.dropped, c)
               == At(p.dropped, c) + (if Unready(p, c) && mine && f.kind == MSG_DATA then f.payload else [])
            && (Unready(p', c) <==> Unready(p, c) && !(mine && f.kind == MSG_CLOSE))
  {
    assert At(p.dropped, c) + [] == At(p.dropped, c);
    if f.id != c {
      HandleIsElsewhere(p, f, c);
    }
  }

  /** Handling frames drops exactly the bytes for unready channels. */
  lemma {:induction false} HandleAllDrops(p: Peer, frames: seq<Frame>, c: nat)
    ensures At(HandleAll(p, frames).dropped, c) == At(p.dropped, c) + Lost(p, frames, c)
    decreases |frames|
  {
    if frames == [] {
      assert At(p.dropped, c) + [] == At(p.dropped, c);
    } else {
      var f := frames[0];
      HandleDrops(p, f, c);
      HandleAllDrops(Handle(p, f), frames[1..], c);
      var now := if Unready(p, c) && f.id == c && f.kind == MSG_DATA then f.payload else [];
      Associative(At(p.dropped, c), now, Lost(Handle(p, f), frames[1..], c));
      assert now + Lost(Handle(p, f), frames[1..], c) == Lost(p, frames, c);
    }
  }

  // ---------- what a run drops ----------

  /** The frames that the next n bytes complete at the client. */
  function Arriving(k: Codec, s: Sys, n: nat): seq<Frame> {
    Drain(k, s.clientBuffer + s.toClient[..Min(n, |s.toClient|)]).frames
  }

  function LostBy(k: Codec, s: Sys, step: Step, c: nat): bytes {
    if step.DeliverToClient? then Lost(s.net.client, Arriving(k, s, step.n), c) else []
  }

  lemma ServerDropsNothing(n: Net, step: Step)
    requires step.ServerDial? || step.ServerRead? || step.ServerEnd?
    ensures Local(n, step).net.client == n.client
  {
    if step.ServerDial? && step.i < |n.server.tasks| { DialEffect(n, step.i, step.reachable); }
  }

  lemma ConnectingDropsNothing(n: Net, step: Step)
    requires step.ClientConnect? || step.ClientResume? || step.ClientTimeout?
    ensures Local(n, step).net.client.dropped == n.client.dropped
  {
    if step.ClientConnect? { ConnectEffect(n, step.address); }
  }

  lemma LocalDropsNothing(n: Net, step: Step)
    ensures Local(n, step).net.client.dropped == n.client.dropped
  {
    if step.ServerDial? || step.ServerRead? || step.ServerEnd? {
      ServerDropsNothing(n, step);
    } else if step.ClientConnect? || step.ClientResume? || step.ClientTimeout? {
      ConnectingDropsNothing(n, step);
    }
  }

  lemma StepDrops(k: Codec, s: Sys, step: Step, c: nat)
    ensures At(Do(k, s, step).net.client.dropped, c) == At(s.net.client.dropped, c) + LostBy(k, s, step, c)
  {
    assert At(s.net.client.dropped, c) + [] == At(s.net.client.dropped, c);
    if step.DeliverToClient? {
      HandleAllDrops(s.net.client, Arriving(k, s, step.n), c);
    } else if !step.DeliverToServer? {
      LocalDropsNothing(s.net, step);
    }
  }

  lemma RunThenStep(k: Codec, steps: seq<Step>, n: nat)
    requires n < |steps|
    ensures Run(k, steps[..n + 1]) == Do(k, Run(k, steps[..n]), steps[n])
  {
    assert steps[..n + 1][..n] == steps[..n];
  }

  /** Something has been dropped on the channel after the first n steps. */
  predicate DroppedBy(k: Codec, steps: seq<Step>, n: nat, c: nat)
    requires n <= |steps|
  {
    At(Run(k, steps[..n]).net.client.dropped, c) != []
  }

  /** Step i hands the client bytes of a channel whose writer is not attached. */
  predicate DropsAt(k: Codec, steps: seq<Step>, i: nat, c: nat)
    requires i < |steps|
  {
    LostBy(k, Run(k, steps[..i]), steps[i], c) != []
  }

  lemma DroppedNext(k: Codec, steps: seq<Step>, n: nat, c: nat)
    requires n < |steps|
    ensures DroppedBy(k, steps, n + 1, c) <==> DroppedBy(k, steps, n, c) || DropsAt(k, steps, n, c)
  {
    RunThenStep(k, steps, n);
    StepDrops(k, Run(k, steps[..n]), steps[n], c);
  }

  function Droppings(k: Codec, steps: seq<Step>, c: nat): (on: seq<bool>)
    ensures |on| == |steps| + 1 && forall n :: 0 <= n <= |steps| ==> on[n] == DroppedBy(k, steps, n, c)
  {
    seq(|steps| + 1, n requires 0 <= n <= |steps| => DroppedBy(k, steps, n, c))
  }

  function Events(k: Codec, steps: seq<Step>, c: nat): (events: seq<bool>)
    ensures |events| == |steps| && forall i :: 0 <= i < |steps| ==> events[i] == DropsAt(k, steps, i, c)
  {
    seq(|steps|, i requires 0 <= i < |steps| => DropsAt(k, steps, i, c))
  }

  /** Some chunk of the run did. */
  predicate CameEarly(k: Codec, steps: seq<Step>, c: nat) {
    exists i :: 0 <= i < |steps| && DropsAt(k, steps, i, c)
  }

  lemma DroppedMeansEarly(k: Codec, steps: seq<Step>, c: nat)
    ensures DroppedBy(k, steps, |steps|, c) <==> CameEarly(k, steps, c)
  {
    var on, events := Droppings(k, steps, c), Events(k, steps, c);
    assert steps[..0] == [];
    forall n | 0 <= n < |events| ensures on[n + 1] <==> on[n] || events[n] { DroppedNext(k, steps, n, c); }
    SwitchedOn(on, events);
  }

  /**
   * In every run, bytes of a target are lost on a channel if and only if some chunk handed
   * the client bytes of that channel before its writer was attached; otherwise the SOCKS
   * client was given a prefix of what its target sent.
   */
  lemma DropsExactlyWhenUnready(steps: seq<Step>, c: nat)
    ensures var n := Run(Fixed(2), steps).net;
            && (At(n.client.dropped, c) != [] <==> CameEarly(Fixed(2), steps, c))
            && (!CameEarly(Fixed(2), steps, c) ==> At(n.client.written, c) <= At(n.fromTarget, c))
  {
    DroppedMeansEarly(Fixed(2), steps, c);
    WholeRun(Fixed(2), steps, c);
    PrefixUnlessDropped(steps, c);
  }

  lemma WholeRun(k: Codec, steps: seq<Step>, c: nat)
    ensures DroppedBy(k, steps, |steps|, c) <==> At(Run(k, steps).net.client.dropped, c) != []
  {
    assert steps[..|steps|] == steps;
  }

  lemma PrefixUnlessDropped(steps: seq<Step>, c: nat)
    ensures var n := Run(Fixed(2), steps).net;
            At(n.client.dropped, c) == [] ==> At(n.client.written, c) <= At(n.fromTarget, c)
  {
    ClientGetsABlock(steps, c);
    var given := At(Run(Fixed(2), steps).net.client.written, c);
    assert [] + given == given;
  }

  // ---------- a target that speaks first ----------

  /** A whole link delivered at once. */
  lemma DeliversFrames(k: Codec, wire: bytes, frames: seq<Frame>)
    requires Lawful(k) && AllSendable(k, frames) && wire == EncodeAll(k, frames)
    ensures Drain(k, [] + wire[..Min(|wire|, |wire|)]) == Drained(frames, []) && wire[Min(|wire|, |wire|)..] == []
  {
    assert [] + wire[..|wire|] == wire;
    RoundTrip(k, frames);
  }

  function ConnectFrame(address: Address): Frame
    requires Packable(address)
  {
    Frame(MSG_CONNECT, 1, ConnectPayload(address))
  }

  /** The client has asked for a first channel. */
  lemma FirstIsAsked(k: Codec, address: Address)
    requires Packable(address)
    ensures var s := Do(k, START, ClientConnect(address));
            && s.net.client.channels == map[1 := Channel(true, false)] && s.net.client.dropped == map[]
            && s.net.server == NEW_PEER && s.net.forwarders == {}
            && s.serverBuffer == s.clientBuffer == s.toClient == []
            && s.toServer == EncodeAll(k, [ConnectFrame(address)])
  {
    assert [] + EncodeAll(k, [ConnectFrame(address)]) == EncodeAll(k, [ConnectFrame(address)]);
    assert [] + EncodeAll(k, []) == [];
  }

  /** What stays as it was at the client while the server answers. */
  predicate ClientWaits(s: Sys) {
    && s.net.client.channels == map[1 := Channel(true, false)] && s.net.client.dropped == map[] && s.clientBuffer == []
  }

  lemma FirstIsRequested(k: Codec, s: Sys, address: Address)
    requires Lawful(k) && Packable(address) && k.sendable(ConnectFrame(address)) && ClientWaits(s)
    requires s.net.server == NEW_PEER && s.serverBuffer == s.toClient == []
    requires s.toServer == EncodeAll(k, [ConnectFrame(address)])
    ensures var s' := Do(k, s, DeliverToServer(|s.toServer|));
            && ClientWaits(s') && s'.toClient == []
            && s'.net.server.tasks == [Task(1, ConnectPayload(address))]
  {
    var f := ConnectFrame(address);
    DeliversFrames(k, s.toServer, [f]);
    assert [f][1..] == [];
    assert HandleAll(Handle(NEW_PEER, f), []) == Handle(NEW_PEER, f);
  }

  lemma FirstIsAnswered(k: Codec, s: Sys, address: Address)
    requires Packable(address) && Utf8(address.host) && ClientWaits(s) && s.toClient == []
    requires s.net.server.tasks == [Task(1, ConnectPayload(address))]
    ensures var s' := Do(k, s, ServerDial(0, true));
            ClientWaits(s') && 1 in s'.net.forwarders && s'.toClient == EncodeAll(k, [Frame(MSG_CONNECT_OK, 1, [])])
  {
    ParseOfConnectPayload(address);
    var reply := EncodeAll(k, [Frame(MSG_CONNECT_OK, 1, [])]);
    assert [] + reply == reply;
  }

  lemma TargetSpeaks(k: Codec, s: Sys, data: bytes)
    requires ClientWaits(s) && Readable(data) && 1 in s.net.forwarders
    requires s.toClient == EncodeAll(k, [Frame(MSG_CONNECT_OK, 1, [])])
    ensures var s' := Do(k, s, ServerRead(1, data));
            && ClientWaits(s') && At(s'.net.fromTarget, 1) == At(s.net.fromTarget, 1) + data
            && s'.toClient == EncodeAll(k, [Frame(MSG_CONNECT_OK, 1, []), Forward(1, data)])
  {
    EncodeAllAppend(k, [Frame(MSG_CONNECT_OK, 1, [])], [Forward(1, data)]);
    assert [Frame(MSG_CONNECT_OK, 1, [])] + [Forward(1, data)] == [Frame(MSG_CONNECT_OK, 1, []), Forward(1, data)];
  }

  lemma WordsAreDropped(k: Codec, s: Sys, data: bytes)
    requires Lawful(k) && ClientWaits(s)
    requires AllSendable(k, [Frame(MSG_CONNECT_OK, 1, []), Forward(1, data)])
    requires s.toClient == EncodeAll(k, [Frame(MSG_CONNECT_OK, 1, []), Forward(1, data)])
    ensures At(Do(k, s, DeliverToClient(|s.toClient|)).net.client.dropped, 1) == data
  {
    var frames := [Frame(MSG_CONNECT_OK, 1, []), Forward(1, data)];
    DeliversFrames(k, s.toClient, frames);
    StepDrops(k, s, DeliverToClient(|s.toClient|), 1);
    assert frames[1..] == [Forward(1, data)] && frames[1..][1..] == [];
    assert UpToClose(frames[1..], 1) == data + UpToClose([], 1) == data;
    assert UpToClose(frames, 1) == [] + UpToClose(frames[1..], 1);
    assert [] + data == data;
  }

  lemma RunAndStep(k: Codec, steps: seq<Step>, step: Step)
    ensures Run(k, steps + [step]) == Do(k, Run(k, steps), step)
  {
    assert (steps + [step])[..|steps|] == steps;
  }

  lemma RequestRun(k: Codec, address: Address) returns (steps: seq<Step>)
    requires Lawful(k) && Packable(address) && k.sendable(ConnectFrame(address))
    ensures var s := Run(k, steps);
            ClientWaits(s) && s.toClient == [] && s.net.server.tasks == [Task(1, ConnectPayload(address))]
  {
    var first := [] + [ClientConnect(address)];
    RunAndStep(k, [], ClientConnect(address));
    FirstIsAsked(k, address);
    var s := Run(k, first);
    FirstIsRequested(k, s, address);
    steps := first + [DeliverToServer(|s.toServer|)];
    RunAndStep(k, first, DeliverToServer(|s.toServer|));
  }

  lemma AnswerRun(k: Codec, address: Address) returns (steps: seq<Step>)
    requires Lawful(k) && Packable(address) && k.sendable(ConnectFrame(address)) && Utf8(address.host)
    ensures var s := Run(k, steps);
            ClientWaits(s) && 1 in s.net.forwarders && s.toClient == EncodeAll(k, [Frame(MSG_CONNECT_OK, 1, [])])
  {
    var before := RequestRun(k, address);
    FirstIsAnswered(k, Run(k, before), address);
    steps := before + [ServerDial(0, true)];
    RunAndStep(k, before, ServerDial(0, true));
  }

  lemma SpeakRun(k: Codec, address: Address, data: bytes) returns (steps: seq<Step>)
    requires Lawful(k) && Packable(address) && k.sendable(ConnectFrame(address)) && Utf8(address.host) && Readable(data)
    ensures var s := Run(k, steps);
            ClientWaits(s) && s.toClient == EncodeAll(k, [Frame(MSG_CONNECT_OK, 1, []), Forward(1, data)])
  {
    var before := AnswerRun(k, address);
    TargetSpeaks(k, Run(k, before), data);
    steps := before + [ServerRead(1, data)];
    RunAndStep(k, before, ServerRead(1, data));
  }

  lemma LostRun(k: Codec, address: Address, data: bytes) returns (steps: seq<Step>)
    requires Lawful(k) && Packable(address) && k.sendable(ConnectFrame(address)) && Utf8(address.host) && Readable(data)
    requires AllSendable(k, [Frame(MSG_CONNECT_OK, 1, []), Forward(1, data)])
    ensures At(Run(k, steps).net.client.dropped, 1) == data
  {
    var before := SpeakRun(k, address, data);
    var s := Run(k, before);
    WordsAreDropped(k, s, data);
    steps := before + [DeliverToClient(|s.toClient|)];
    RunAndStep(k, before, DeliverToClient(|s.toClient|));
  }

  /**
   * An input for which bytes are lost: a target that speaks as soon as it is connected,
   * and a reply that arrives in one chunk with its first words.
   */
  lemma FirstWordsAreLost(address: Address, data: bytes) returns (steps: seq<Step>)
    requires Packable(address) && Utf8(address.host) && Readable(data)
    ensures At(Run(Fixed(2), steps).net.client.dropped, 1) == data
  {
    Pow256Values();
    FixedLawful(2);
    steps := LostRun(Fixed(2), address, data);
  }
}
