/**
 * Numbered messages through the mailbox: two parties, and a relay that may hand any
 * message ever added to either of them, at any time, in any order, any number of times.
 */
module Phases {
  import opened Bytes
  import opened Hex
  import opened Mailbox

  // ---------- encryption ----------

  /**
   * key: the key derived from the sender's side and the phase.  seal, open: secretbox.
   * ofText: `hexToBytes` on a body that was taken for text.
   */
  datatype Crypto = Crypto(
    key: (bytes, bytes) -> bytes, seal: (bytes, bytes, bytes) -> bytes, open: (bytes, bytes, bytes) -> Option<bytes>,
    ofText: bytes -> bytes)

  ghost predicate Opens(c: Crypto) {
    forall m, nonce, key :: c.open(c.seal(m, nonce, key), nonce, key) == Some(m)
  }

  const NONCE := 24
  const TAG := 16

  /** A box is 16 bytes longer than its message, and hex decoding yields a byte for two characters. */
  ghost predicate KeepsLengths(c: Crypto) {
    && (forall m, nonce, key :: |c.seal(m, nonce, key)| == |m| + TAG)
    && (forall b, nonce, key :: c.open(b, nonce, key).Some? ==> |b| == |c.open(b, nonce, key).value| + TAG)
    && (forall t :: 2 * |c.ofText(t)| <= |t|)
  }

  /** `encrypt`: the nonce in front of the ciphertext. */
  function Encrypt(c: Crypto, m: bytes, nonce: bytes, key: bytes): bytes { nonce + c.seal(m, nonce, key) }

  /** `decrypt`. */
  function Decrypt(c: Crypto, data: bytes, key: bytes): Option<bytes> {
    if |data| < NONCE then None else c.open(data[NONCE..], data[..NONCE], key)
  }

  lemma DecryptOfEncrypt(c: Crypto, m: bytes, nonce: bytes, key: bytes)
    requires Opens(c) && |nonce| == NONCE
    ensures Decrypt(c, Encrypt(c, m, nonce, key), key) == Some(m)
    ensures var data := Encrypt(c, m, nonce, key); data[..24] == nonce && data[24..] == c.seal(m, nonce, key)
    ensures forall data :: |data| < 24 ==> Decrypt(c, data, key) == None
  {
    var data := Encrypt(c, m, nonce, key);
    assert data[..NONCE] == nonce && data[NONCE..] == c.seal(m, nonce, key);
  }

  // ---------- message bodies ----------

  /** What a waiter is given: text where the hex-decoded bytes happen to be UTF-8, bytes otherwise. */
  datatype Body = Text(t: bytes) | Raw(b: bytes)

  function DecodeBody(hex: bytes): Body {
    if hex == [] || !IsHex(hex) then Text(hex)
    else if Utf8(FromHex(hex)) then Text(FromHex(hex))
    else Raw(FromHex(hex))
  }

  /** The end of `receive`. */
  function Unwrap(c: Crypto, body: Body, key: bytes): Option<bytes> {
    match body
    case Raw(b) => Decrypt(c, b, key)
    case Text(t) => Decrypt(c, c.ofText(t), key)
  }

  // ---------- the two parties and the relay ----------

  datatype Message = Message(payload: bytes, nonce: bytes)

  datatype Result = Value(v: Option<bytes>) | TimedOut

  /** `sent` is what the party has sent, by phase; `handlers` is its mailbox's array. */
  datatype Party = Party(side: bytes, sent: seq<Message>, nextRx: nat,
                         handlers: seq<Handler>, results: map<nat, Result>)

  datatype Relayed = Relayed(sender: bool, side: bytes, phase: bytes, body: bytes)

  datatype Sys = Sys(a: Party, b: Party, pool: seq<Relayed>)

  datatype Step =
    | Send(who: bool, payload: bytes, nonce: bytes)
    | Receive(who: bool)
    | Timeout(who: bool, k: nat)
    | Listen(who: bool, id: nat)
    | Control(who: bool, phase: bytes, body: bytes)
    | Deliver(who: bool, i: nat)

  function Get(s: Sys, who: bool): Party { if who then s.a else s.b }

  function Put(s: Sys, who: bool, p: Party): Sys { if who then s.(a := p) else s.(b := p) }

  function Start(sideA: bytes, sideB: bytes): Sys {
    Sys(Party(sideA, [], 0, [], map[]), Party(sideB, [], 0, [], map[]), [])
  }

  /** A phase name that is no number: "pake", "version", "dilate-0". */
  predicate NamedPhase(phase: bytes) { exists i :: 0 <= i < |phase| && !(48 <= phase[i] < 58) }

  function Ciphertext(c: Crypto, p: Party, k: nat): bytes
    requires k < |p.sent|
  {
    Encrypt(c, p.sent[k].payload, p.sent[k].nonce, c.key(p.side, Decimal(k)))
  }

  /** The receives whose waiters were served. */
  function Served(called: seq<Handler>, phase: bytes): set<nat> {
    set h | h in called && Wants(h, phase) :: h.id
  }

  /** A peer's message reaches a party's handlers; its own are ignored. */
  function Accept(c: Crypto, p: Party, peerSide: bytes, m: Relayed): Party {
    if m.side == p.side then p
    else
      var d := Dispatch(p.handlers, m.phase);
      var v := Unwrap(c, DecodeBody(m.body), c.key(peerSide, m.phase));
      p.(handlers := d.kept, results := p.results + (map k | k in Served(d.called, m.phase) :: Value(v)))
  }

  function Without(hs: seq<Handler>, h: Handler): seq<Handler> {
    if hs == [] then [] else if hs[0] == h then hs[1..] else [hs[0]] + Without(hs[1..], h)
  }

  /** `send` without transit: the next phase number, used up whatever happens later. */
  function DoSend(p: Party, m: Message): Party { p.(sent := p.sent + [m]) }

  /** `receive` up to its await. */
  function DoReceive(p: Party): Party {
    p.(nextRx := p.nextRx + 1, handlers := p.handlers + [Waiter(p.nextRx, Decimal(p.nextRx))])
  }

  function Do(c: Crypto, s: Sys, step: Step): Sys {
    match step
    case Send(who, payload, nonce) =>
      if |nonce| != NONCE then s
      else
        var p := DoSend(Get(s, who), Message(payload, nonce));
        var k := |p.sent| - 1;
        Put(s, who, p).(pool := s.pool + [Relayed(who, p.side, Decimal(k), ToHex(Ciphertext(c, p, k)))])
    case Receive(who) => Put(s, who, DoReceive(Get(s, who)))
    case Timeout(who, k) =>
      var p := Get(s, who);
      var h := Waiter(k, Decimal(k));
      if h !in p.handlers then s
      else Put(s, who, p.(handlers := Without(p.handlers, h), results := p.results[k := TimedOut]))
    case Listen(who, id) =>
      var p := Get(s, who);
      if Listener(id) in p.handlers then s else Put(s, who, p.(handlers := p.handlers + [Listener(id)]))
    case Control(who, phase, body) =>
      if NamedPhase(phase) then s.(pool := s.pool + [Relayed(who, Get(s, who).side, phase, body)]) else s
    case Deliver(who, i) =>
      if i < |s.pool| then Put(s, who, Accept(c, Get(s, who), Get(s, !who).side, s.pool[i])) else s
  }

  function Run(c: Crypto, sideA: bytes, sideB: bytes, steps: seq<Step>): Sys {
    if steps == [] then Start(sideA, sideB)
    else Do(c, Run(c, sideA, sideB, steps[..|steps| - 1]), steps[|steps| - 1])
  }

  /** The phase counters of a wormhole, and its end of the mailbox. */
  class Wormhole {
    const crypto: Crypto
    const side: bytes
    var nextTxPhase: nat
    var nextRxPhase: nat
    var handlers: seq<Handler>
    ghost var sent: seq<Message>
    ghost var results: map<nat, Result>

    ghost function Value(): Party
      reads this
    {
      Party(side, sent, nextRxPhase, handlers, results)
    }

    ghost predicate Valid()
      reads this
    {
      nextTxPhase == |sent|
    }

    constructor (crypto: Crypto, side: bytes)
      ensures Valid() && Value() == Party(side, [], 0, [], map[]) && this.crypto == crypto
    {
      this.crypto, this.side := crypto, side;
      nextTxPhase, nextRxPhase, handlers, sent, results := 0, 0, [], [], map[];
    }

    /** Returns the phase and the hex body handed to the mailbox. */
    method Send(payload: bytes, nonce: bytes) returns (phase: bytes, body: bytes)
      requires Valid()
      modifies this
      ensures Valid() && Value() == DoSend(old(Value()), Message(payload, nonce))
      ensures phase == Decimal(old(nextTxPhase)) && body == ToHex(Ciphertext(crypto, Value(), old(nextTxPhase)))
    {
      phase := Decimal(nextTxPhase);
      nextTxPhase := nextTxPhase + 1;
      sent := sent + [Message(payload, nonce)];
      body := ToHex(Encrypt(crypto, payload, nonce, crypto.key(side, phase)));
    }

    method StartReceive() returns (waiter: Handler)
      requires Valid()
      modifies this
      ensures Valid() && Value() == DoReceive(old(Value()))
      ensures waiter == Waiter(old(nextRxPhase), Decimal(old(nextRxPhase)))
    {
      waiter := Waiter(nextRxPhase, Decimal(nextRxPhase));
      nextRxPhase := nextRxPhase + 1;
      handlers := handlers + [waiter];
    }
  }

  // ---------- the invariant ----------

  /** A numbered message is the sender's message of that number. */
  ghost predicate Genuine(c: Crypto, s: Sys, m: Relayed) {
    && m.side == Get(s, m.sender).side
    && (NamedPhase(m.phase) || Numbered(c, Get(s, m.sender), m))
  }

  ghost predicate Numbered(c: Crypto, p: Party, m: Relayed) {
    exists k :: 0 <= k < |p.sent| && m.phase == Decimal(k) && m.body == ToHex(Ciphertext(c, p, k))
  }

  /** What the k-th receive yields for the peer's k-th message. */
  function Expected(c: Crypto, peer: Party, k: nat): Option<bytes>
    requires k < |peer.sent|
  {
    var cipher := Ciphertext(c, peer, k);
    if Utf8(cipher) then Decrypt(c, c.ofText(cipher), c.key(peer.side, Decimal(k))) else Some(peer.sent[k].payload)
  }

  predicate HandlersOk(p: Party) {
    && Distinct(p.handlers)
    && forall h :: h in p.handlers && h.Waiter? ==> h.id < p.nextRx && h.phase == Decimal(h.id)
  }

  predicate ResultsOk(c: Crypto, p: Party, peer: Party) {
    forall k :: k in p.results && p.results[k].Value? ==> k < |peer.sent| && p.results[k].v == Expected(c, peer, k)
  }

  predicate NoncesOk(p: Party) {
    forall k :: 0 <= k < |p.sent| ==> |p.sent[k].nonce| == NONCE
  }

  ghost predicate Inv(c: Crypto, s: Sys) {
    && (forall i :: 0 <= i < |s.pool| ==> Genuine(c, s, s.pool[i]))
    && HandlersOk(s.a) && HandlersOk(s.b) && NoncesOk(s.a) && NoncesOk(s.b)
    && ResultsOk(c, s.a, s.b) && ResultsOk(c, s.b, s.a)
  }

  // ---------- steps ----------

  lemma NumbersAreNoNames(k: nat)
    ensures !NamedPhase(Decimal(k))
  {
  }

  /** Sending appends: earlier messages, and what they yield, stay as they are. */
  lemma SendKeeps(c: Crypto, s: Sys, who: bool, payload: bytes, nonce: bytes)
    requires Inv(c, s) && |nonce| == NONCE
    ensures Inv(c, Do(c, s, Send(who, payload, nonce)))
  {
    var s' := Do(c, s, Send(who, payload, nonce));
    var p, p' := Get(s, who), Get(s', who);
    assert forall k :: 0 <= k < |p.sent| ==> p'.sent[k] == p.sent[k];
    assert forall k :: 0 <= k < |p.sent| ==> Ciphertext(c, p', k) == Ciphertext(c, p, k);
    forall i | 0 <= i < |s'.pool| ensures Genuine(c, s', s'.pool[i]) {
      if i < |s.pool| {
        var m := s.pool[i];
        assert Genuine(c, s, m);
        if !NamedPhase(m.phase) {
          var q := Get(s, m.sender);
          var k :| 0 <= k < |q.sent| && m.phase == Decimal(k) && m.body == ToHex(Ciphertext(c, q, k));
          assert Numbered(c, Get(s', m.sender), m);
        }
      } else {
        assert Numbered(c, p', s'.pool[i]);
      }
    }
  }

  /** Changing a party's handlers and results leaves the pool genuine. */
  lemma PoolStaysGenuine(c: Crypto, s: Sys, who: bool, p: Party, m: Relayed)
    requires Genuine(c, s, m) && p.side == Get(s, who).side && p.sent == Get(s, who).sent
    ensures Genuine(c, Put(s, who, p), m)
  {
    var q, q' := Get(s, m.sender), Get(Put(s, who, p), m.sender);
    if !NamedPhase(m.phase) {
      var k :| 0 <= k < |q.sent| && m.phase == Decimal(k) && m.body == ToHex(Ciphertext(c, q, k));
      assert Ciphertext(c, q', k) == Ciphertext(c, q, k);
    }
  }

  lemma LocalKeeps(c: Crypto, s: Sys, who: bool, p: Party)
    requires Inv(c, s) && p.side == Get(s, who).side && p.sent == Get(s, who).sent
    requires HandlersOk(p) && ResultsOk(c, p, Get(s, !who))
    ensures Inv(c, Put(s, who, p))
  {
    var s' := Put(s, who, p);
    forall i | 0 <= i < |s'.pool| ensures Genuine(c, s', s'.pool[i]) { PoolStaysGenuine(c, s, who, p, s.pool[i]); }
    var q := Get(s, !who);
    assert forall k :: 0 <= k < |p.sent| ==> Expected(c, p, k) == Expected(c, Get(s, who), k);
    assert ResultsOk(c, q, p) by { assert ResultsOk(c, q, Get(s, who)); }
  }

  lemma DistinctCons(h: Handler, hs: seq<Handler>)
    requires h !in hs && Distinct(hs)
    ensures Distinct([h] + hs)
  {
  }

  lemma {:induction false} WithoutIsSub(hs: seq<Handler>, h: Handler)
    requires Distinct(hs)
    ensures Distinct(Without(hs, h)) && forall g :: g in Without(hs, h) ==> g in hs
  {
    if hs == [] {
    } else {
      WithoutIsSub(hs[1..], h);
      assert hs[0] !in hs[1..];
      DistinctCons(hs[0], Without(hs[1..], h));
    }
  }

  /** Dispatch never duplicates a handler and never makes one up. */
  lemma {:induction false} DispatchIsSub(hs: seq<Handler>, phase: bytes)
    requires Distinct(hs)
    ensures Distinct(Dispatch(hs, phase).kept)
    decreases |hs|
  {
    if hs == [] {
    } else {
      KeptAreOld(hs[1..], phase);
      DispatchIsSub(hs[1..], phase);
      assert hs[0] !in hs[1..];
      if |hs| > 1 && Wants(hs[0], phase) {
        KeptAreOld(hs[2..], phase);
        DispatchIsSub(hs[2..], phase);
        assert hs[1] !in hs[2..];
        DistinctCons(hs[1], Dispatch(hs[2..], phase).kept);
      } else if !Wants(hs[0], phase) {
        DistinctCons(hs[0], Dispatch(hs[1..], phase).kept);
      }
    }
  }

  /** A genuine message from the peer yields the expected value for its number. */
  lemma UnwrapOfMessage(c: Crypto, peer: Party, k: nat)
    requires Opens(c) && NoncesOk(peer) && k < |peer.sent|
    ensures Unwrap(c, DecodeBody(ToHex(Ciphertext(c, peer, k))), c.key(peer.side, Decimal(k))) == Expected(c, peer, k)
  {
    var cipher, key := Ciphertext(c, peer, k), c.key(peer.side, Decimal(k));
    FromToHex(cipher);
    DecryptOfEncrypt(c, peer.sent[k].payload, peer.sent[k].nonce, key);
  }

  lemma AcceptKeeps(c: Crypto, p: Party, peer: Party, m: Relayed)
    requires Opens(c) && HandlersOk(p) && NoncesOk(peer) && ResultsOk(c, p, peer)
    requires m.side != p.side ==> NamedPhase(m.phase) || Numbered(c, peer, m)
    ensures HandlersOk(Accept(c, p, peer.side, m)) && ResultsOk(c, Accept(c, p, peer.side, m), peer)
  {
    if m.side != p.side {
      var p' := Accept(c, p, peer.side, m);
      var d := Dispatch(p.handlers, m.phase);
      DispatchIsSub(p.handlers, m.phase);
      KeptAreOld(p.handlers, m.phase);
      forall k | k in p'.results && p'.results[k].Value?
        ensures k < |peer.sent| && p'.results[k].v == Expected(c, peer, k) {
        if k in Served(d.called, m.phase) {
          var h :| h in d.called && Wants(h, m.phase) && h.id == k;
          assert h in p.handlers;
          NumbersAreNoNames(k);
          var j :| 0 <= j < |peer.sent| && m.phase == Decimal(j) && m.body == ToHex(Ciphertext(c, peer, j));
          DecimalInjective(j, k);
          UnwrapOfMessage(c, peer, k);
        }
      }
    }
  }

  lemma TimeoutKeeps(c: Crypto, s: Sys, who: bool, k: nat)
    requires Inv(c, s)
    ensures Inv(c, Do(c, s, Timeout(who, k)))
  {
    var p, h := Get(s, who), Waiter(k, Decimal(k));
    if h in p.handlers {
      WithoutIsSub(p.handlers, h);
      LocalKeeps(c, s, who, p.(handlers := Without(p.handlers, h), results := p.results[k := TimedOut]));
    }
  }

  lemma ListenKeeps(c: Crypto, s: Sys, who: bool, id: nat)
    requires Inv(c, s)
    ensures Inv(c, Do(c, s, Listen(who, id)))
  {
    var p := Get(s, who);
    if Listener(id) !in p.handlers {
      LocalKeeps(c, s, who, p.(handlers := p.handlers + [Listener(id)]));
    }
  }

  lemma ControlKeeps(c: Crypto, s: Sys, who: bool, phase: bytes, body: bytes)
    requires Inv(c, s)
    ensures Inv(c, Do(c, s, Control(who, phase, body)))
  {
    var s' := Do(c, s, Control(who, phase, body));
    forall i | 0 <= i < |s'.pool| ensures Genuine(c, s', s'.pool[i]) {
      if i < |s.pool| { assert Genuine(c, s, s.pool[i]); }
    }
  }

  lemma DeliverKeeps(c: Crypto, s: Sys, who: bool, i: nat)
    requires Opens(c) && Inv(c, s) && i < |s.pool|
    ensures Inv(c, Do(c, s, Deliver(who, i)))
  {
    assert Genuine(c, s, s.pool[i]);
    AcceptKeeps(c, Get(s, who), Get(s, !who), s.pool[i]);
    LocalKeeps(c, s, who, Accept(c, Get(s, who), Get(s, !who).side, s.pool[i]));
  }

  lemma StepKeeps(c: Crypto, s: Sys, step: Step)
    requires Opens(c) && Inv(c, s)
    ensures Inv(c, Do(c, s, step))
  {
    match step
    case Send(who, payload, nonce) => if |nonce| == NONCE { SendKeeps(c, s, who, payload, nonce); }
    case Receive(who) => LocalKeeps(c, s, who, DoReceive(Get(s, who)));
    case Timeout(who, k) => TimeoutKeeps(c, s, who, k);
    case Listen(who, id) => ListenKeeps(c, s, who, id);
    case Control(who, phase, body) => ControlKeeps(c, s, who, phase, body);
    case Deliver(who, i) => if i < |s.pool| { DeliverKeeps(c, s, who, i); }
  }

  lemma {:induction false} RunKeeps(c: Crypto, sideA: bytes, sideB: bytes, steps: seq<Step>)
    requires Opens(c)
    ensures Inv(c, Run(c, sideA, sideB, steps))
    decreases |steps|
  {
    if steps == [] {
    } else {
      RunKeeps(c, sideA, sideB, steps[..|steps| - 1]);
      StepKeeps(c, Run(c, sideA, sideB, steps[..|steps| - 1]), steps[|steps| - 1]);
    }
  }

  // ---------- the theorems ----------

  /**
   * In every run, a k-th receive that completes with a value was served by the peer's
   * k-th message, and yields its payload unless the ciphertext happens to be UTF-8, in
   * which case it yields what decrypting the re-read text gives.
   */
  lemma KthReceiveGetsKthMessage(c: Crypto, sideA: bytes, sideB: bytes, steps: seq<Step>, who: bool, k: nat)
    requires Opens(c)
    ensures var s := Run(c, sideA, sideB, steps); var p := Get(s, who); var peer := Get(s, !who);
            k in p.results && p.results[k].Value? ==>
              && k < |peer.sent|
              && p.results[k].v == Expected(c, peer, k)
              && (!Utf8(Ciphertext(c, peer, k)) ==> p.results[k].v == Some(peer.sent[k].payload))
  {
    RunKeeps(c, sideA, sideB, steps);
  }

  /** A ciphertext that was taken for text is too short for its message once it has been read back. */
  lemma TextLosesTheMessage(c: Crypto, peer: Party, k: nat)
    requires KeepsLengths(c) && NoncesOk(peer) && k < |peer.sent| && Utf8(Ciphertext(c, peer, k))
    ensures Expected(c, peer, k) != Some(peer.sent[k].payload)
  {
    var cipher, key := Ciphertext(c, peer, k), c.key(peer.side, Decimal(k));
    var data := c.ofText(cipher);
    assert |cipher| == NONCE + |peer.sent[k].payload| + TAG;
    assert 2 * |data| <= |cipher|;
    if Decrypt(c, data, key).Some? {
      assert |data| == NONCE + |Decrypt(c, data, key).value| + TAG;
    }
  }

  /**
   * In every run, a k-th receive that completes with a value yields the k-th payload of the
   * peer if and only if the ciphertext is not valid UTF-8.
   */
  lemma ReceivesThePayloadExactlyWhen(
    c: Crypto, sideA: bytes, sideB: bytes, steps: seq<Step>, who: bool, k: nat)
    requires Opens(c) && KeepsLengths(c)
    requires var p := Get(Run(c, sideA, sideB, steps), who); k in p.results && p.results[k].Value?
    ensures var s := Run(c, sideA, sideB, steps); var p := Get(s, who); var peer := Get(s, !who);
            && k < |peer.sent|
            && (p.results[k].v == Some(peer.sent[k].payload) <==> !Utf8(Ciphertext(c, peer, k)))
  {
    KthReceiveGetsKthMessage(c, sideA, sideB, steps, who, k);
    RunKeeps(c, sideA, sideB, steps);
    var peer := Get(Run(c, sideA, sideB, steps), !who);
    if Utf8(Ciphertext(c, peer, k)) {
      TextLosesTheMessage(c, peer, k);
    }
  }

  lemma RunThenStep(c: Crypto, sideA: bytes, sideB: bytes, steps: seq<Step>, step: Step)
    ensures Run(c, sideA, sideB, steps + [step]) == Do(c, Run(c, sideA, sideB, steps), step)
  {
    assert (steps + [step])[..|steps|] == steps;
  }

  /** A sends its first message, B asks for it, the relay delivers it. */
  lemma FirstMessage(c: Crypto, sideA: bytes, sideB: bytes, payload: bytes, nonce: bytes) returns (steps: seq<Step>)
    requires Opens(c) && sideA != sideB && |nonce| == NONCE
    ensures var s := Run(c, sideA, sideB, steps);
            && 0 in s.b.results && s.b.results[0].Value?
            && s.a.sent == [Message(payload, nonce)] && s.a.side == sideA
  {
    var before := [] + [Send(true, payload, nonce)] + [Receive(false)];
    RunThenStep(c, sideA, sideB, [], Send(true, payload, nonce));
    RunThenStep(c, sideA, sideB, [] + [Send(true, payload, nonce)], Receive(false));
    var s := Run(c, sideA, sideB, before);
    assert s.b.handlers == [Waiter(0, Decimal(0))];
    assert |s.pool| == 1 && s.pool[0].phase == Decimal(0) && s.pool[0].sender;
    steps := before + [Deliver(false, 0)];
    RunThenStep(c, sideA, sideB, before, Deliver(false, 0));
    DeliveryServesItsWaiter(c, sideA, sideB, before, false, 0, 0);
  }

  /** Whenever a message's ciphertext is valid UTF-8, there is a run in which its receive completes without it. */
  lemma TextBodyIsLost(c: Crypto, sideA: bytes, sideB: bytes, payload: bytes, nonce: bytes) returns (steps: seq<Step>)
    requires Opens(c) && KeepsLengths(c) && sideA != sideB && |nonce| == NONCE
    requires Utf8(Encrypt(c, payload, nonce, c.key(sideA, Decimal(0))))
    ensures var s := Run(c, sideA, sideB, steps);
            && s.a.sent == [Message(payload, nonce)]
            && 0 in s.b.results && s.b.results[0].Value? && s.b.results[0].v != Some(payload)
  {
    steps := FirstMessage(c, sideA, sideB, payload, nonce);
    ReceivesThePayloadExactlyWhen(c, sideA, sideB, steps, false, 0);
  }

  // ---------- an instance ----------

  /** A box that meets every law: the message and sixteen zeros. */
  function PlainBox(): Crypto {
    Crypto((side, phase) => [], (m, nonce, key) => m + Zeros(TAG), (b, nonce, key) => OpenPlain(b), t => [])
  }

  function Zeros(n: nat): (z: bytes)
    ensures |z| == n
  {
    seq(n, _ => 0)
  }

  function OpenPlain(b: bytes): Option<bytes> {
    if |b| >= TAG && b[|b| - TAG..] == Zeros(TAG) then Some(b[..|b| - TAG]) else None
  }

  lemma PlainBoxIsLawful()
    ensures Opens(PlainBox()) && KeepsLengths(PlainBox())
  {
    var c := PlainBox();
    forall m, nonce, key ensures c.open(c.seal(m, nonce, key), nonce, key) == Some(m) {
      var box := m + Zeros(TAG);
      assert box[|m|..] == Zeros(TAG) && box[..|m|] == m;
    }
  }

  /** An input for which the receive fails: the empty message under a nonce of zeros. */
  lemma EmptyMessageIsLost() returns (steps: seq<Step>)
    ensures var s := Run(PlainBox(), [97], [98], steps);
            && s.a.sent == [Message([], Zeros(NONCE))]
            && 0 in s.b.results && s.b.results[0].Value? && s.b.results[0].v != Some([])
  {
    var c := PlainBox();
    PlainBoxIsLawful();
    var data := Encrypt(c, [], Zeros(NONCE), c.key([97], Decimal(0)));
    assert data == Zeros(NONCE) + ([] + Zeros(TAG));
    AsciiIsUtf8(data);
    steps := TextBodyIsLost(c, [97], [98], [], Zeros(NONCE));
  }

  lemma OnlyOneWants(p: Party, k: nat, j: nat)
    requires HandlersOk(p) && j < |p.handlers| && p.handlers[j] == Waiter(k, Decimal(k))
    ensures Lone(p.handlers, Decimal(k), j)
  {
    forall l | 0 <= l < |p.handlers| && l != j ensures !Wants(p.handlers[l], Decimal(k)) {
      if Wants(p.handlers[l], Decimal(k)) {
        DecimalInjective(p.handlers[l].id, k);
        assert false;
      }
    }
  }

  /** The waiter for a numbered message is served alone; every other handler stays. */
  lemma AcceptServes(c: Crypto, p: Party, peerSide: bytes, m: Relayed, k: nat)
    requires HandlersOk(p) && m.side != p.side && m.phase == Decimal(k) && Waiter(k, Decimal(k)) in p.handlers
    ensures var p' := Accept(c, p, peerSide, m); var w := Waiter(k, Decimal(k));
            && k in p'.results && p'.results[k].Value?
            && w !in p'.handlers && forall h :: h in p.handlers && h != w ==> h in p'.handlers
  {
    var hs, w := p.handlers, Waiter(k, Decimal(k));
    var j :| 0 <= j < |hs| && hs[j] == w;
    OnlyOneWants(p, k, j);
    LoneWaiterIsReached(hs, m.phase, j);
    RemovedOnce(hs, j);
    assert Skipping(hs, j + 1)[j] == w && Wants(w, m.phase);
    assert w.id in Served(Skipping(hs, j + 1), m.phase);
  }

  lemma RemovedOnce(hs: seq<Handler>, j: nat)
    requires Distinct(hs) && j < |hs|
    ensures hs[j] !in hs[..j] + hs[j + 1..]
    ensures forall h :: h in hs && h != hs[j] ==> h in hs[..j] + hs[j + 1..]
  {
    forall h | h in hs && h != hs[j] ensures h in hs[..j] + hs[j + 1..] {
      var l :| 0 <= l < |hs| && hs[l] == h;
      assert h == (hs[..j] + hs[j + 1..])[if l < j then l else l - 1];
    }
  }

  lemma DeliverIsAccept(c: Crypto, s: Sys, who: bool, i: nat)
    requires i < |s.pool|
    ensures Get(Do(c, s, Deliver(who, i)), who) == Accept(c, Get(s, who), Get(s, !who).side, s.pool[i])
  {
  }

  /** A receive still waiting when its message is handed over completes, whoever else is waiting. */
  lemma DeliveryServesItsWaiter(c: Crypto, sideA: bytes, sideB: bytes, steps: seq<Step>, who: bool, i: nat, k: nat)
    requires Opens(c) && sideA != sideB
    requires var s := Run(c, sideA, sideB, steps);
             && i < |s.pool| && s.pool[i].sender == !who && s.pool[i].phase == Decimal(k)
             && Waiter(k, Decimal(k)) in Get(s, who).handlers
    ensures var s := Run(c, sideA, sideB, steps); var p := Get(Do(c, s, Deliver(who, i)), who);
            && k in p.results && p.results[k].Value?
            && Waiter(k, Decimal(k)) !in p.handlers
            && forall h :: h in Get(s, who).handlers && h != Waiter(k, Decimal(k)) ==> h in p.handlers
  {
    RunKeeps(c, sideA, sideB, steps);
    RunKeepsSides(c, sideA, sideB, steps);
    var s := Run(c, sideA, sideB, steps);
    assert Genuine(c, s, s.pool[i]);
    DeliverIsAccept(c, s, who, i);
    AcceptServes(c, Get(s, who), Get(s, !who).side, s.pool[i], k);
  }

  lemma {:induction false} RunKeepsSides(c: Crypto, sideA: bytes, sideB: bytes, steps: seq<Step>)
    ensures var s := Run(c, sideA, sideB, steps); s.a.side == sideA && s.b.side == sideB
    decreases |steps|
  {
    if steps == [] {
    } else {
      RunKeepsSides(c, sideA, sideB, steps[..|steps| - 1]);
    }
  }
}
