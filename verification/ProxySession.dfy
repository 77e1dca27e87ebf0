/**
 * Sessions that go all the way: for every address and everything the two parties say to
 * each other there is a run that dials it, carries it and ends; and one that is refused.
 */
module ProxySession {
  import opened Bytes
  import opened Framing
  import opened WireFormats
  import opened Proxy
  import opened ProxyRuns
  import opened ProxyDrops

  // ---------- a step, and its frame delivered ----------

  /** Nothing is on its way. */
  function AtRest(n: Net): Sys { Sys(n, [], [], [], []) }

  lemma DeliversUp(k: Codec, n: Net, f: Frame)
    requires Lawful(k) && k.sendable(f)
    ensures var s := AtRest(n).(toServer := EncodeAll(k, [f]));
            Do(k, s, DeliverToServer(|s.toServer|)) == AtRest(n.(server := Handle(n.server, f)))
  {
    DeliversFrames(k, EncodeAll(k, [f]), [f]);
    assert [f][1..] == [];
    assert HandleAll(Handle(n.server, f), []) == Handle(n.server, f);
  }

  lemma DeliversDown(k: Codec, n: Net, f: Frame)
    requires Lawful(k) && k.sendable(f)
    ensures var s := AtRest(n).(toClient := EncodeAll(k, [f]));
            Do(k, s, DeliverToClient(|s.toClient|)) == AtRest(n.(client := Handle(n.client, f)))
  {
    DeliversFrames(k, EncodeAll(k, [f]), [f]);
    assert [f][1..] == [];
    assert HandleAll(Handle(n.client, f), []) == Handle(n.client, f);
  }

  predicate IsLocal(step: Step) { !step.DeliverToServer? && !step.DeliverToClient? }

  lemma FromRest(k: Codec, n: Net, step: Step)
    requires IsLocal(step)
    ensures var e := Local(n, step);
            Do(k, AtRest(n), step) == Sys(e.net, [], EncodeAll(k, e.toClient), [], EncodeAll(k, e.toServer))
  {
    var e := Local(n, step);
    assert [] + EncodeAll(k, e.toClient) == EncodeAll(k, e.toClient);
    assert [] + EncodeAll(k, e.toServer) == EncodeAll(k, e.toServer);
  }

  /** A step that sends nothing. */
  lemma Alone(k: Codec, before: seq<Step>, n: Net, step: Step) returns (steps: seq<Step>)
    requires Run(k, before) == AtRest(n) && IsLocal(step) && Local(n, step).toServer == Local(n, step).toClient == []
    ensures Run(k, steps) == AtRest(Local(n, step).net)
  {
    FromRest(k, n, step);
    RunAndStep(k, before, step);
    steps := before + [step];
  }

  /** A step of the client that sends a frame, and its delivery. */
  lemma Upwards(k: Codec, before: seq<Step>, n: Net, step: Step, f: Frame) returns (steps: seq<Step>)
    requires Lawful(k) && k.sendable(f) && Run(k, before) == AtRest(n) && IsLocal(step)
    requires Local(n, step).toServer == [f] && Local(n, step).toClient == []
    ensures var n' := Local(n, step).net; Run(k, steps) == AtRest(n'.(server := Handle(n'.server, f)))
  {
    var deliver := DeliverToServer(|EncodeAll(k, [f])|);
    FromRest(k, n, step);
    RunAndStep(k, before, step);
    DeliversUp(k, Local(n, step).net, f);
    RunAndStep(k, before + [step], deliver);
    steps := before + [step] + [deliver];
  }

  /** A step of the server that sends a frame, and its delivery. */
  lemma Downwards(k: Codec, before: seq<Step>, n: Net, step: Step, f: Frame) returns (steps: seq<Step>)
    requires Lawful(k) && k.sendable(f) && Run(k, before) == AtRest(n) && IsLocal(step)
    requires Local(n, step).toServer == [] && Local(n, step).toClient == [f]
    ensures var n' := Local(n, step).net; Run(k, steps) == AtRest(n'.(client := Handle(n'.client, f)))
  {
    var deliver := DeliverToClient(|EncodeAll(k, [f])|);
    FromRest(k, n, step);
    RunAndStep(k, before, step);
    DeliversDown(k, Local(n, step).net, f);
    RunAndStep(k, before + [step], deliver);
    steps := before + [step] + [deliver];
  }

  // ---------- request and answer ----------

  /** The first request has reached the server. */
  function Requested(address: Address): Net
    requires Packable(address)
  {
    Net(Peer(map[1 := Channel(true, false)], map[1 := Waiting], 2, [], map[], map[]),
        Peer(map[], map[], 1, [Task(1, ConnectPayload(address))], map[], map[]),
        map[1 := Connecting], {}, {}, {}, map[], map[], map[1 := address], map[], map[])
  }

  /** It has been dialled, and the answer has reached the client. */
  function Replied(address: Address, reachable: bool): Net {
    Net(Peer(map[1 := Channel(true, false)], map[1 := Answered(reachable)], 2, [], map[], map[]),
        Peer(if reachable then map[1 := Channel(false, true)] else map[], map[], 1, [], map[], map[]),
        map[1 := Connecting], if reachable then {1} else {}, {1}, if reachable then {1} else {},
        map[], map[], map[1 := address], map[1 := address], map[])
  }

  lemma RequestedRun(k: Codec, address: Address) returns (steps: seq<Step>)
    requires Lawful(k) && Packable(address) && k.sendable(ConnectFrame(address))
    ensures Run(k, steps) == AtRest(Requested(address))
  {
    assert Run(k, []) == AtRest(START.net);
    steps := Upwards(k, [], START.net, ClientConnect(address), ConnectFrame(address));
  }

  function Reply(reachable: bool): Frame { Frame(if reachable then MSG_CONNECT_OK else MSG_CONNECT_FAIL, 1, []) }

  lemma DialOf(address: Address, reachable: bool)
    requires Packable(address) && Utf8(address.host)
    ensures var e := DoDial(Requested(address), 0, reachable);
            && Local(Requested(address), ServerDial(0, reachable)) == e
            && e.toServer == [] && e.toClient == [Reply(reachable)]
            && e.net.(client := Handle(e.net.client, Reply(reachable))) == Replied(address, reachable)
  {
    ParseOfConnectPayload(address);
    var tasks := Requested(address).server.tasks;
    assert tasks[..0] + tasks[1..] == [];
    assert {} + {1} == {1};
  }

  lemma RepliedRun(k: Codec, address: Address, reachable: bool) returns (steps: seq<Step>)
    requires Lawful(k) && Carries(k) && Packable(address) && Utf8(address.host)
    ensures Run(k, steps) == AtRest(Replied(address, reachable))
  {
    var before := RequestedRun(k, address);
    DialOf(address, reachable);
    steps := Downwards(k, before, Requested(address), ServerDial(0, reachable), Reply(reachable));
  }

  /** Refused: the SOCKS client was told so, and the channel is gone. */
  predicate Refused(n: Net, address: Address) {
    && n.client.futures == map[1 := Answered(false)] && n.told == map[1 := false]
    && HandlerIs(n, 1, Ended) && n.client.channels == n.server.channels == map[] && n.forwarders == {}
    && n.dialled == map[1 := address] && n.settled == {1} && n.reached == {}
  }

  lemma RefusedRun(k: Codec, address: Address) returns (steps: seq<Step>)
    requires Lawful(k) && Carries(k) && Packable(address) && Utf8(address.host)
    ensures Run(k, steps) == AtRest(Run(k, steps).net) && Refused(Run(k, steps).net, address)
  {
    var before := RepliedRun(k, address, false);
    steps := Alone(k, before, Replied(address, false), ClientResume(1));
  }

  /** The client gave up waiting, was told so, and the answer came too late: the target is connected for nothing. */
  predicate TimedOut(n: Net, address: Address) {
    && n.client.futures == map[1 := Waiting] && n.told == map[1 := false]
    && HandlerIs(n, 1, Ended) && n.client.channels == map[]
    && n.dialled == map[1 := address] && n.reached == n.forwarders == {1} && 1 in n.server.channels
  }

  /** The request has reached the server, and the client no longer waits for the answer. */
  function GivenUp(address: Address): Net
    requires Packable(address)
  {
    var n := Requested(address);
    n.(client := n.client.(channels := map[]), handlers := map[1 := Ended], told := map[1 := false])
  }

  lemma TimeoutOf(address: Address)
    requires Packable(address)
    ensures Local(Requested(address), ClientTimeout(1)) == Idle(GivenUp(address))
  {
    assert map[1 := Channel(true, false)] - {1} == map[];
    assert map[1 := Connecting][1 := Ended] == map[1 := Ended];
  }

  lemma LateDialOf(address: Address)
    requires Packable(address) && Utf8(address.host)
    ensures var e := Local(GivenUp(address), ServerDial(0, true)); var f := Frame(MSG_CONNECT_OK, 1, []);
            && e.toServer == [] && e.toClient == [f]
            && TimedOut(e.net.(client := Handle(e.net.client, f)), address)
  {
    ParseOfConnectPayload(address);
    assert {} + {1} == {1};
  }

  lemma TimedOutRun(k: Codec, address: Address) returns (steps: seq<Step>)
    requires Lawful(k) && Carries(k) && Packable(address) && Utf8(address.host)
    ensures Run(k, steps) == AtRest(Run(k, steps).net) && TimedOut(Run(k, steps).net, address)
  {
    var before := RequestedRun(k, address);
    TimeoutOf(address);
    var late := Alone(k, before, Requested(address), ClientTimeout(1));
    LateDialOf(address);
    steps := Downwards(k, late, GivenUp(address), ServerDial(0, true), Frame(MSG_CONNECT_OK, 1, []));
  }

  /** A connection that breaks between the success reply and the forwarding ends without a word to the peer. */
  lemma BrokenBeforeForwarding(n: Net, c: nat)
    requires HandlerIs(n, c, Opened)
    ensures Local(n, ClientAbort(c)) == Effect(n.(handlers := n.handlers[c := Ended]), [], [])
    ensures c !in n.client.channels ==>
              Local(n, ClientAttach(c)) == Effect(n.(handlers := n.handlers[c := Ended]), [], [])
  {
  }

  // ---------- the conversation ----------

  /** One read of either forwarding loop. */
  datatype Word = OfClient(data: bytes) | OfTarget(data: bytes)

  predicate AllReadable(words: seq<Word>) { forall i :: 0 <= i < |words| ==> Readable(words[i].data) }

  function SaidByClient(words: seq<Word>): bytes {
    if words == [] then []
    else SaidByClient(words[..|words| - 1])
         + (if words[|words| - 1].OfClient? then words[|words| - 1].data else [])
  }

  function SaidByTarget(words: seq<Word>): bytes {
    if words == [] then []
    else SaidByTarget(words[..|words| - 1])
         + (if words[|words| - 1].OfTarget? then words[|words| - 1].data else [])
  }

  /** What was sent has been written, in both directions, and nothing was lost. */
  predicate Carried(n: Net, address: Address, sent: bytes, got: bytes) {
    && Get(n.dialled, 1) == Some(address)
    && Get(n.client.futures, 1) == Some(Answered(true)) && Get(n.told, 1) == Some(true)
    && At(n.fromClient, 1) == sent && At(n.server.written, 1) == sent
    && At(n.fromTarget, 1) == got && At(n.client.written, 1) == got && At(n.client.dropped, 1) == []
  }

  predicate Talking(n: Net, address: Address, sent: bytes, got: bytes) {
    && HandlerIs(n, 1, Forwarding) && 1 in n.forwarders
    && Get(n.client.channels, 1) == Some(Channel(true, true))
    && Get(n.server.channels, 1) == Some(Channel(false, true))
    && Carried(n, address, sent, got)
  }

  /** `connect` returns ... */
  function Resumed(address: Address): Net {
    var n := Replied(address, true);
    n.(handlers := map[1 := Opened], told := map[1 := true])
  }

  /** ... and the writer is attached. */
  function Attached(address: Address): Net {
    var n := Resumed(address);
    n.(client := n.client.(channels := map[1 := Channel(true, true)]), handlers := map[1 := Forwarding])
  }

  lemma ResumeOf(address: Address)
    ensures Local(Replied(address, true), ClientResume(1)) == Idle(Resumed(address))
  {
    assert map[1 := Connecting][1 := Opened] == map[1 := Opened];
  }

  lemma AttachOf(address: Address)
    ensures Local(Resumed(address), ClientAttach(1)) == Idle(Attached(address))
    ensures Talking(Attached(address), address, [], [])
  {
    assert map[1 := Opened][1 := Forwarding] == map[1 := Forwarding];
    assert map[1 := Channel(true, false)][1 := Channel(true, true)] == map[1 := Channel(true, true)];
  }

  lemma TalkingRun(k: Codec, address: Address) returns (steps: seq<Step>)
    requires Lawful(k) && Carries(k) && Packable(address) && Utf8(address.host)
    ensures Run(k, steps) == AtRest(Run(k, steps).net) && Talking(Run(k, steps).net, address, [], [])
  {
    var before := RepliedRun(k, address, true);
    ResumeOf(address);
    var resumed := Alone(k, before, Replied(address, true), ClientResume(1));
    AttachOf(address);
    steps := Alone(k, resumed, Resumed(address), ClientAttach(1));
  }

  lemma ClientSpeaks(n: Net, address: Address, sent: bytes, got: bytes, data: bytes)
    requires Talking(n, address, sent, got) && Readable(data)
    ensures var e := Local(n, ClientRead(1, data)); var f := Forward(1, data);
            && e.toServer == [f] && e.toClient == []
            && Talking(e.net.(server := Handle(e.net.server, f)), address, sent + data, got)
  {
  }

  lemma TargetAnswers(n: Net, address: Address, sent: bytes, got: bytes, data: bytes)
    requires Talking(n, address, sent, got) && Readable(data)
    ensures var e := Local(n, ServerRead(1, data)); var f := Forward(1, data);
            && e.toServer == [] && e.toClient == [f]
            && Talking(e.net.(client := Handle(e.net.client, f)), address, sent, got + data)
  {
  }

  lemma {:induction false} ConversationRun(k: Codec, address: Address, words: seq<Word>) returns (steps: seq<Step>)
    requires Lawful(k) && Carries(k) && Packable(address) && Utf8(address.host) && AllReadable(words)
    ensures Run(k, steps) == AtRest(Run(k, steps).net)
    ensures Talking(Run(k, steps).net, address, SaidByClient(words), SaidByTarget(words))
    decreases |words|
  {
    if words == [] {
      steps := TalkingRun(k, address);
    } else {
      var front, word := words[..|words| - 1], words[|words| - 1];
      var before := ConversationRun(k, address, front);
      steps := OneMoreWord(k, before, address, SaidByClient(front), SaidByTarget(front), word);
    }
  }

  lemma OneMoreWord(k: Codec, before: seq<Step>, address: Address, sent: bytes, got: bytes, word: Word)
    returns (steps: seq<Step>)
    requires Lawful(k) && Carries(k) && Readable(word.data)
    requires Run(k, before) == AtRest(Run(k, before).net) && Talking(Run(k, before).net, address, sent, got)
    ensures Run(k, steps) == AtRest(Run(k, steps).net)
    ensures Talking(Run(k, steps).net, address, sent + (if word.OfClient? then word.data else []),
                    got + (if word.OfTarget? then word.data else []))
  {
    var n, f := Run(k, before).net, Forward(1, word.data);
    assert sent + [] == sent && got + [] == got;
    match word
    case OfClient(data) =>
      ClientSpeaks(n, address, sent, got, data);
      steps := Upwards(k, before, n, ClientRead(1, data), f);
    case OfTarget(data) =>
      TargetAnswers(n, address, sent, got, data);
      steps := Downwards(k, before, n, ServerRead(1, data), f);
  }

  // ---------- the end ----------

  predicate Closed(n: Net) {
    HandlerIs(n, 1, Ended) && 1 !in n.forwarders && 1 !in n.client.channels && 1 !in n.server.channels
  }

  const LAST_WORD := Frame(MSG_CLOSE, 1, [])

  /** The forwarding loop of one side has ended, and its CLOSE has been delivered. */
  function HungUp(n: Net, byClient: bool): Net {
    var n' := n.(client := Forget(n.client, 1), server := Forget(n.server, 1));
    if byClient then n'.(handlers := n.handlers[1 := Ended]) else n'.(forwarders := n.forwarders - {1})
  }

  lemma HangsUp(k: Codec, before: seq<Step>, n: Net, byClient: bool) returns (steps: seq<Step>)
    requires Lawful(k) && Carries(k) && Run(k, before) == AtRest(n)
    requires if byClient then HandlerIs(n, 1, Forwarding) else 1 in n.forwarders
    ensures Run(k, steps) == AtRest(HungUp(n, byClient))
  {
    if byClient { steps := ClientHangsUp(k, before, n); } else { steps := ServerHangsUp(k, before, n); }
  }

  lemma ClientEndOf(n: Net)
    requires HandlerIs(n, 1, Forwarding)
    ensures var e := Local(n, ClientEnd(1));
            && e.toServer == [LAST_WORD] && e.toClient == []
            && e.net.(server := Handle(e.net.server, LAST_WORD)) == HungUp(n, true)
  {
  }

  lemma ServerEndOf(n: Net)
    requires 1 in n.forwarders
    ensures var e := Local(n, ServerEnd(1));
            && e.toServer == [] && e.toClient == [LAST_WORD]
            && e.net.(client := Handle(e.net.client, LAST_WORD)) == HungUp(n, false)
  {
  }

  lemma ClientHangsUp(k: Codec, before: seq<Step>, n: Net) returns (steps: seq<Step>)
    requires Lawful(k) && Carries(k) && Run(k, before) == AtRest(n) && HandlerIs(n, 1, Forwarding)
    ensures Run(k, steps) == AtRest(HungUp(n, true))
  {
    ClientEndOf(n);
    steps := Upwards(k, before, n, ClientEnd(1), LAST_WORD);
  }

  lemma ServerHangsUp(k: Codec, before: seq<Step>, n: Net) returns (steps: seq<Step>)
    requires Lawful(k) && Carries(k) && Run(k, before) == AtRest(n) && 1 in n.forwarders
    ensures Run(k, steps) == AtRest(HungUp(n, false))
  {
    ServerEndOf(n);
    steps := Downwards(k, before, n, ServerEnd(1), LAST_WORD);
  }

  lemma SessionOver(k: Codec, address: Address, words: seq<Word>, clientFirst: bool) returns (steps: seq<Step>)
    requires Lawful(k) && Carries(k) && Packable(address) && Utf8(address.host) && AllReadable(words)
    ensures var n := Run(k, steps).net;
            Run(k, steps) == AtRest(n) && Closed(n) && Carried(n, address, SaidByClient(words), SaidByTarget(words))
  {
    var talked := ConversationRun(k, address, words);
    var n := Run(k, talked).net;
    var half := HangsUp(k, talked, n, clientFirst);
    steps := HangsUp(k, half, HungUp(n, clientFirst), !clientFirst);
  }

  // ---------- the theorems ----------

  /**
   * For every address that can be packed and decoded, and whatever the SOCKS client and its
   * target say in whatever order, there is a run in which the address is dialled, the client
   * is told so, every byte of both is written at the other end in order, none is dropped,
   * and when both have hung up, in either order, no channel is left.
   */
  lemma SessionRun(address: Address, words: seq<Word>, clientFirst: bool) returns (steps: seq<Step>)
    requires Packable(address) && Utf8(address.host) && AllReadable(words)
    ensures var n := Run(Fixed(2), steps).net;
            Closed(n) && Carried(n, address, SaidByClient(words), SaidByTarget(words))
  {
    Pow256Values();
    FixedLawful(2);
    steps := SessionOver(Fixed(2), address, words, clientFirst);
  }

  /** And for every such address there is a run in which it is dialled in vain, and the client is told so. */
  lemma RefusalRun(address: Address) returns (steps: seq<Step>)
    requires Packable(address) && Utf8(address.host)
    ensures Refused(Run(Fixed(2), steps).net, address)
  {
    Pow256Values();
    FixedLawful(2);
    steps := RefusedRun(Fixed(2), address);
  }

  /** And one in which the answer comes too late: the client is told "unreachable" although its target was reached. */
  lemma TimeoutRun(address: Address) returns (steps: seq<Step>)
    requires Packable(address) && Utf8(address.host)
    ensures TimedOut(Run(Fixed(2), steps).net, address)
  {
    Pow256Values();
    FixedLawful(2);
    steps := TimedOutRun(Fixed(2), address);
  }
}
