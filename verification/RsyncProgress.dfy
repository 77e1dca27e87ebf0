/**
 * What becomes of an rsync run that is left to go on: it ends, and where it ends it is
 * done unless something could not be packed or the receiver's manifest came too early.
 */
module RsyncProgress {
  import opened Bytes
  import opened Framing
  import opened WireFormats
  import opened Rsync
  import opened RsyncRuns

  function ToSenderFlight(k: Codec, s: Sys): seq<Frame> { InFlight(k, s.senderBuffer, s.toSender) }

  function ToReceiverFlight(k: Codec, s: Sys): seq<Frame> { InFlight(k, s.receiverBuffer, s.toReceiver) }

  // ---------- every run ends ----------

  /** No step changes anything any more. */
  ghost predicate Stuck(k: Codec, c: Config, s: Sys) {
    forall step :: Do(k, c, s, step) == s
  }

  /** The steps of the two run sequences still to come. */
  function StagesLeft(n: Net): nat {
    (match n.stage case Connected => 3 case AwaitingManifest(_) => 2 case Serving(_, _, _) => 1 case _ => 0)
    + (match n.peer case Listening => 2 case AwaitingTheirs(_) => 1 case _ => 0)
  }

  function BytesLeft(s: Sys): nat { |s.toReceiver| + |s.toSender| }

  predicate Progresses(s: Sys, s': Sys) {
    StagesLeft(s'.net) < StagesLeft(s.net) || (StagesLeft(s'.net) == StagesLeft(s.net) && BytesLeft(s') < BytesLeft(s))
  }

  lemma LocalProgresses(k: Codec, c: Config, n: Net, step: Step)
    ensures var e := Local(k, c, n, step); StagesLeft(e.net) < StagesLeft(n) || e == Effect(n, [], [])
  {
  }

  /** An empty chunk changes nothing. */
  lemma EmptyChunk(k: Codec, buffer: bytes)
    requires k.next(buffer).Incomplete?
    ensures Drain(k, buffer + []) == Drained([], buffer)
  {
    assert buffer + [] == buffer;
  }

  lemma StepProgresses(k: Codec, c: Config, s: Sys, step: Step)
    requires SysInv(k, c, s) && Do(k, c, s, step) != s
    ensures Progresses(s, Do(k, c, s, step))
  {
    match step
    case DeliverToReceiver(n) => if Min(n, |s.toReceiver|) == 0 { EmptyChunk(k, s.receiverBuffer); }
    case DeliverToSender(n) => if Min(n, |s.toSender|) == 0 { EmptyChunk(k, s.senderBuffer); }
    case _ =>
      LocalProgresses(k, c, s.net, step);
      assert s.toReceiver + [] == s.toReceiver && s.toSender + [] == s.toSender;
  }

  lemma RunThenStep(k: Codec, c: Config, src: Files, dst: Files, steps: seq<Step>, step: Step)
    ensures Run(k, c, src, dst, steps + [step]) == Do(k, c, Run(k, c, src, dst, steps), step)
  {
    assert (steps + [step])[..|steps|] == steps;
  }

  lemma NextStep(k: Codec, c: Config, s: Sys) returns (step: Step)
    requires Lawful(k) && Faithful(c.json) && SysInv(k, c, s) && !Stuck(k, c, s)
    ensures SysInv(k, c, Do(k, c, s, step)) && Progresses(s, Do(k, c, s, step))
  {
    step :| Do(k, c, s, step) != s;
    StepKeeps(k, c, s, step);
    StepProgresses(k, c, s, step);
  }

  lemma {:induction false} Onward(k: Codec, c: Config, src: Files, dst: Files, steps: seq<Step>, s: Sys)
    returns (more: seq<Step>)
    requires Lawful(k) && Faithful(c.json) && SysInv(k, c, s) && s == Run(k, c, src, dst, steps)
    ensures Stuck(k, c, Run(k, c, src, dst, steps + more))
    decreases StagesLeft(s.net), BytesLeft(s)
  {
    if Stuck(k, c, s) {
      more := [];
      assert steps + more == steps;
    } else {
      var step := NextStep(k, c, s);
      RunThenStep(k, c, src, dst, steps, step);
      var rest := Onward(k, c, src, dst, steps + [step], Do(k, c, s, step));
      more := [step] + rest;
      Associative(steps, [step], rest);
    }
  }

  /** Every run goes on to a point where nothing can happen any more. */
  lemma EveryRunEnds(c: Config, src: Files, dst: Files, steps: seq<Step>) returns (more: seq<Step>)
    requires Faithful(c.json)
    ensures Stuck(Fixed(0), c, Run(Fixed(0), c, src, dst, steps + more))
  {
    FixedLawful(0);
    RunKeeps(Fixed(0), c, src, dst, steps);
    more := Onward(Fixed(0), c, src, dst, steps, Run(Fixed(0), c, src, dst, steps));
  }

  // ---------- where a run ends ----------

  lemma {:induction false} ScanExists(files: Files, checksum: bytes -> bytes) returns (m: seq<Entry>)
    ensures IsScan(m, files, checksum)
    decreases |files|
  {
    m := [];
    if files == map[] {
    } else {
      var p :| p in files;
      var rest := ScanExists(files - {p}, checksum);
      m := rest + [Entry(p, |files[p]|, checksum(files[p]))];
      ExtendScan(rest, files, p, checksum);
    }
  }

  lemma ExtendScan(rest: seq<Entry>, files: Files, p: bytes, checksum: bytes -> bytes)
    requires p in files && IsScan(rest, files - {p}, checksum)
    ensures IsScan(rest + [Entry(p, |files[p]|, checksum(files[p]))], files, checksum)
  {
    var m := rest + [Entry(p, |files[p]|, checksum(files[p]))];
    forall q | q in files ensures exists i :: 0 <= i < |m| && m[i].path == q {
      if q == p {
        assert m[|rest|].path == q;
      } else {
        assert q in files - {p};
        var i :| 0 <= i < |rest| && rest[i].path == q;
        assert m[i].path == q;
      }
    }
  }

  lemma StuckLinks(k: Codec, c: Config, s: Sys)
    requires SysInv(k, c, s) && Stuck(k, c, s)
    ensures ToReceiverFlight(k, s) == [] && ToSenderFlight(k, s) == []
  {
    DeliversAll(k, c, s);
    EmptyChunk(k, s.receiverBuffer);
    EmptyChunk(k, s.senderBuffer);
  }

  lemma DeliversAll(k: Codec, c: Config, s: Sys)
    ensures Do(k, c, s, DeliverToReceiver(|s.toReceiver|)).toReceiver == []
    ensures Do(k, c, s, DeliverToSender(|s.toSender|)).toSender == []
  {
  }

  /** One end raised because something did not fit its field. */
  predicate GaveUp(n: Net) { n.stage.Broken? || n.peer.Aborted? }

  /** The receiver has announced its tree, and the sender waits for an announcement. */
  predicate Missed(n: Net) {
    n.peer.AwaitingTheirs? && n.stage.AwaitingManifest? && n.sender.manifest == Awaited
  }

  lemma StuckGreeting(k: Codec, c: Config, s: Sys)
    requires Stuck(k, c, s) && Greeting(c, s.net, [], []) && s.net.sender.files == s.net.source
    ensures Missed(s.net)
  {
    var n := s.net;
    var ms := ScanExists(n.sender.files, c.checksum);
    var mr := ScanExists(Below(n.receiver.files, c.prefix), c.checksum);
    assert Do(k, c, s, ReceiverStart(mr)) == s;
    assert Do(k, c, s, SenderStart(ms)) == s;
    assert Do(k, c, s, SenderServe) == s;
  }

  lemma NegotiatingIsNotStuck(k: Codec, c: Config, s: Sys)
    requires Negotiating(c, s.net, [], [])
    ensures !Stuck(k, c, s)
  {
    if s.net.peer.AwaitingTheirs? {
      assert Do(k, c, s, ReceiverRequest) != s;
    } else {
      assert Do(k, c, s, SenderTransfer) != s;
    }
  }

  /**
   * A run that can go no further is done if and only if nothing failed to fit its field and
   * the receiver's manifest was not missed.
   */
  lemma StuckMeansDone(c: Config, src: Files, dst: Files, steps: seq<Step>)
    requires Faithful(c.json) && Stuck(Fixed(0), c, Run(Fixed(0), c, src, dst, steps))
    ensures var n := Run(Fixed(0), c, src, dst, steps).net; n.receiver.done <==> !GaveUp(n) && !Missed(n)
  {
    var k := Fixed(0);
    var s := Run(k, c, src, dst, steps);
    FixedLawful(0);
    RunKeeps(k, c, src, dst, steps);
    StuckLinks(k, c, s);
    if !Dead(s.net, [], []) {
      if Greeting(c, s.net, [], []) {
        StuckGreeting(k, c, s);
      } else if Negotiating(c, s.net, [], []) {
        NegotiatingIsNotStuck(k, c, s);
      } else {
        assert Transferring(c, s.net, [], []);
      }
    }
  }

  // ---------- how a manifest is missed ----------

  /** Nobody will ever see the receiver's manifest. */
  predicate Unheard(n: Net, q: seq<Frame>) {
    && n.peer.AwaitingTheirs? && q == [] && !n.sender.manifest.Got?
    && (n.stage.Connected? || n.stage.AwaitingManifest?)
  }

  /** The step handed the receiver's manifest to a sender that was not waiting for it yet. */
  predicate CameEarly(k: Codec, c: Config, s: Sys, s': Sys) {
    && s.net.stage.Connected? && s.net.peer.AwaitingTheirs?
    && ToSenderFlight(k, s) == [ManifestFrame(c, s.net.peer.scan)] && ToSenderFlight(k, s') == []
  }

  lemma DeliveryMisses(k: Codec, c: Config, s: Sys, n: nat)
    requires Lawful(k) && Faithful(c.json) && SysInv(k, c, s)
    requires var s' := Do(k, c, s, DeliverToSender(n)); Unheard(s'.net, ToSenderFlight(k, s'))
    ensures Unheard(s.net, ToSenderFlight(k, s)) || CameEarly(k, c, s, Do(k, c, s, DeliverToSender(n)))
  {
    var s' := Do(k, c, s, DeliverToSender(n));
    var m := Min(n, |s.toSender|);
    var d := Drain(k, s.senderBuffer + s.toSender[..m]);
    DeliverOnLink(k, s.senderBuffer, s.toSender, m);
    assert ToSenderFlight(k, s) == d.frames + [] == d.frames;
    HandlingMisses(c, s.net, ToReceiverFlight(k, s), d.frames);
  }

  lemma HandlingMisses(c: Config, n: Net, p: seq<Frame>, q: seq<Frame>)
    requires Faithful(c.json) && Inv(c, n, p, q)
    requires Unheard(n.(sender := HandleAll(c.json, n.sender, q)), [])
    ensures Unheard(n, q) || (n.stage.Connected? && q == [ManifestFrame(c, n.peer.scan)])
  {
    assert Greeting(c, n, p, q);
    if q != [] {
      var mr := n.peer.scan;
      HandleOne(c.json, n.sender, ManifestFrame(c, mr));
      assert c.json.toManifest(c.json.ofManifest(mr)) == Some(mr);
    }
  }

  /** A local step leaves nobody waiting for a manifest that was not already lost. */
  lemma LocalMissesNothing(k: Codec, c: Config, n: Net, p: seq<Frame>, q: seq<Frame>, step: Step)
    requires Inv(c, n, p, q)
    requires var e := Local(k, c, n, step); Unheard(e.net, q + e.toSender)
    ensures Unheard(n, q)
  {
    assert q + [] == q;
  }

  lemma StepMisses(k: Codec, c: Config, s: Sys, step: Step)
    requires Lawful(k) && Faithful(c.json) && SysInv(k, c, s)
    requires var s' := Do(k, c, s, step); Unheard(s'.net, ToSenderFlight(k, s'))
    ensures Unheard(s.net, ToSenderFlight(k, s)) || CameEarly(k, c, s, Do(k, c, s, step))
  {
    if step.DeliverToSender? {
      DeliveryMisses(k, c, s, step.n);
    } else if !step.DeliverToReceiver? {
      var e := Local(k, c, s.net, step);
      LocalFramesSendable(k, c, s.net, step);
      SendOnLink(k, s.senderBuffer, s.toSender, e.toSender);
      LocalMissesNothing(k, c, s.net, ToReceiverFlight(k, s), ToSenderFlight(k, s), step);
    }
  }

  // ---------- a missed manifest is never made up for ----------

  lemma LocalStaysUnheard(k: Codec, c: Config, n: Net, p: seq<Frame>, q: seq<Frame>, step: Step)
    requires Inv(c, n, p, q) && Unheard(n, q)
    ensures var e := Local(k, c, n, step); Unheard(e.net, q + e.toSender)
  {
    assert Greeting(c, n, p, q);
    assert q + [] == q;
  }

  lemma StaysUnheard(k: Codec, c: Config, s: Sys, step: Step)
    requires Lawful(k) && Faithful(c.json) && SysInv(k, c, s) && Unheard(s.net, ToSenderFlight(k, s))
    ensures var s' := Do(k, c, s, step); Unheard(s'.net, ToSenderFlight(k, s'))
  {
    match step
    case DeliverToSender(n) => DeliverOnLink(k, s.senderBuffer, s.toSender, Min(n, |s.toSender|));
    case DeliverToReceiver(n) =>
    case _ =>
      var e := Local(k, c, s.net, step);
      LocalFramesSendable(k, c, s.net, step);
      SendOnLink(k, s.senderBuffer, s.toSender, e.toSender);
      LocalStaysUnheard(k, c, s.net, ToReceiverFlight(k, s), ToSenderFlight(k, s), step);
  }

  lemma EarlyIsUnheard(k: Codec, c: Config, s: Sys, step: Step)
    requires Lawful(k) && Faithful(c.json) && SysInv(k, c, s) && CameEarly(k, c, s, Do(k, c, s, step))
    ensures var s' := Do(k, c, s, step); Unheard(s'.net, ToSenderFlight(k, s'))
  {
    var q := ToSenderFlight(k, s);
    assert Greeting(c, s.net, ToReceiverFlight(k, s), q);
    if step.DeliverToSender? {
      var m := Min(step.n, |s.toSender|);
      DeliverOnLink(k, s.senderBuffer, s.toSender, m);
      var frames := Drain(k, s.senderBuffer + s.toSender[..m]).frames;
      assert frames == frames + [] == q;
      HandleOne(c.json, s.net.sender, q[0]);
    } else if !step.DeliverToReceiver? {
      var e := Local(k, c, s.net, step);
      LocalFramesSendable(k, c, s.net, step);
      SendOnLink(k, s.senderBuffer, s.toSender, e.toSender);
    }
  }

  // ---------- the two together ----------

  predicate IsUnheard(s: Sys) { Unheard(s.net, ToSenderFlight(Fixed(0), s)) }

  /** A manifest becomes unheard by an early delivery, and stays so. */
  lemma UnheardAfterStep(c: Config, s: Sys, step: Step)
    requires Faithful(c.json) && SysInv(Fixed(0), c, s)
    ensures var s' := Do(Fixed(0), c, s, step); IsUnheard(s') <==> IsUnheard(s) || CameEarly(Fixed(0), c, s, s')
  {
    FixedLawful(0);
    var s' := Do(Fixed(0), c, s, step);
    if IsUnheard(s) {
      StaysUnheard(Fixed(0), c, s, step);
    } else if CameEarly(Fixed(0), c, s, s') {
      EarlyIsUnheard(Fixed(0), c, s, step);
    } else if IsUnheard(s') {
      StepMisses(Fixed(0), c, s, step);
    }
  }

  /** After the first n steps nobody will see the receiver's manifest any more. */
  ghost predicate UnheardAt(c: Config, src: Files, dst: Files, steps: seq<Step>, n: nat)
    requires n <= |steps|
  {
    IsUnheard(Run(Fixed(0), c, src, dst, steps[..n]))
  }

  /** The i-th step of the run dropped the manifest. */
  ghost predicate EarlyAt(c: Config, src: Files, dst: Files, steps: seq<Step>, i: nat)
    requires i < |steps|
  {
    CameEarly(Fixed(0), c, Run(Fixed(0), c, src, dst, steps[..i]), Run(Fixed(0), c, src, dst, steps[..i + 1]))
  }

  lemma UnheardNext(c: Config, src: Files, dst: Files, steps: seq<Step>, n: nat)
    requires Faithful(c.json) && n < |steps|
    ensures UnheardAt(c, src, dst, steps, n + 1) <==> UnheardAt(c, src, dst, steps, n) || EarlyAt(c, src, dst, steps, n)
  {
    FixedLawful(0);
    RunKeeps(Fixed(0), c, src, dst, steps[..n]);
    UnheardAfterStep(c, Run(Fixed(0), c, src, dst, steps[..n]), steps[n]);
    PrefixThenStep(Fixed(0), c, src, dst, steps, n);
  }

  lemma PrefixThenStep(k: Codec, c: Config, src: Files, dst: Files, steps: seq<Step>, n: nat)
    requires n < |steps|
    ensures Run(k, c, src, dst, steps[..n + 1]) == Do(k, c, Run(k, c, src, dst, steps[..n]), steps[n])
  {
    RunThenStep(k, c, src, dst, steps[..n], steps[n]);
    PrefixSnoc(steps, n);
  }

  lemma PrefixSnoc<T>(s: seq<T>, n: nat)
    requires n < |s|
    ensures s[..n] + [s[n]] == s[..n + 1]
  {
  }

  lemma NotAtStart(c: Config, src: Files, dst: Files, steps: seq<Step>)
    ensures !UnheardAt(c, src, dst, steps, 0)
  {
    assert steps[..0] == [];
  }

  /** When the manifest was lost ... */
  ghost function LostBy(c: Config, src: Files, dst: Files, steps: seq<Step>): (on: seq<bool>)
    ensures |on| == |steps| + 1
    ensures forall n :: 0 <= n <= |steps| ==> on[n] == UnheardAt(c, src, dst, steps, n)
  {
    seq(|steps| + 1, n requires 0 <= n <= |steps| => UnheardAt(c, src, dst, steps, n))
  }

  /** ... and which steps dropped it. */
  ghost function Drops(c: Config, src: Files, dst: Files, steps: seq<Step>): (events: seq<bool>)
    ensures |events| == |steps|
    ensures forall i :: 0 <= i < |steps| ==> events[i] == EarlyAt(c, src, dst, steps, i)
  {
    seq(|steps|, i requires 0 <= i < |steps| => EarlyAt(c, src, dst, steps, i))
  }

  lemma History(c: Config, src: Files, dst: Files, steps: seq<Step>, n: nat)
    requires Faithful(c.json) && n < |steps|
    ensures var on := LostBy(c, src, dst, steps); on[n + 1] <==> on[n] || Drops(c, src, dst, steps)[n]
  {
    UnheardNext(c, src, dst, steps, n);
  }

  /** The manifest is missed, and missed for good, exactly when some step handed it over too early. */
  lemma UnheardMeansEarly(c: Config, src: Files, dst: Files, steps: seq<Step>)
    requires Faithful(c.json)
    ensures UnheardAt(c, src, dst, steps, |steps|) <==> exists i :: 0 <= i < |steps| && EarlyAt(c, src, dst, steps, i)
  {
    var on, events := LostBy(c, src, dst, steps), Drops(c, src, dst, steps);
    NotAtStart(c, src, dst, steps);
    forall n | 0 <= n < |events| ensures on[n + 1] <==> on[n] || events[n] { History(c, src, dst, steps, n); }
    SwitchedOn(on, events);
  }

  /** Once the manifest has come too early, no continuation of the run is ever done. */
  lemma EarlyIsNeverDone(c: Config, src: Files, dst: Files, steps: seq<Step>, i: nat)
    requires Faithful(c.json) && i < |steps| && EarlyAt(c, src, dst, steps, i)
    ensures !Run(Fixed(0), c, src, dst, steps).net.receiver.done
  {
    UnheardMeansEarly(c, src, dst, steps);
    UnheardIsNotDone(c, src, dst, steps);
  }

  lemma UnheardIsNotDone(c: Config, src: Files, dst: Files, steps: seq<Step>)
    requires Faithful(c.json) && UnheardAt(c, src, dst, steps, |steps|)
    ensures !Run(Fixed(0), c, src, dst, steps).net.receiver.done
  {
    assert steps[..|steps|] == steps;
    FixedLawful(0);
    RunKeeps(Fixed(0), c, src, dst, steps);
  }

  // ---------- when everything fits ----------

  /** Every message of a sync between two trees fits its field. */
  ghost predicate Fits(k: Codec, c: Config, src: Files, below: Files) {
    forall ms, mr | IsScan(ms, src, c.checksum) && IsScan(mr, below, c.checksum) ::
      && k.sendable(ManifestFrame(c, ms)) && k.sendable(ManifestFrame(c, mr))
      && k.sendable(RequestFrame(c, ToSend(ms, mr)))
      && Transfer(c, src, ToSend(ms, mr), Deletions(c, ms, mr)).ok
      && AllSendable(k, Transfer(c, src, ToSend(ms, mr), Deletions(c, ms, mr)).frames)
  }

  lemma StartDoesNotGiveUp(k: Codec, c: Config, n: Net, m: seq<Entry>)
    requires Fits(k, c, n.source, Below(n.before, c.prefix)) && IsScan(m, Below(n.before, c.prefix), c.checksum)
    ensures !DoReceiverStart(k, c, n, m).net.peer.Aborted?
  {
    var ms := ScanExists(n.source, c.checksum);
  }

  lemma ServeDoesNotGiveUp(k: Codec, c: Config, n: Net, p: seq<Frame>, q: seq<Frame>)
    requires Fits(k, c, n.source, Below(n.before, c.prefix)) && n.sender.files == n.source
    requires Greeting(c, n, p, q) && n.stage.AwaitingManifest? && n.sender.manifest.Got?
    ensures !DoSenderServe(k, c, n).net.stage.Broken?
  {
  }

  lemma RequestDoesNotGiveUp(k: Codec, c: Config, n: Net, p: seq<Frame>, q: seq<Frame>)
    requires Fits(k, c, n.source, Below(n.before, c.prefix)) && n.sender.files == n.source
    requires Negotiating(c, n, p, q) && n.peer.AwaitingTheirs? && n.receiver.manifest.Got?
    ensures !DoReceiverRequest(k, c, n).net.peer.Aborted?
  {
  }

  lemma LocalDoesNotGiveUp(k: Codec, c: Config, n: Net, p: seq<Frame>, q: seq<Frame>, step: Step)
    requires Inv(c, n, p, q) && !GaveUp(n) && Fits(k, c, n.source, Below(n.before, c.prefix))
    ensures !GaveUp(Local(k, c, n, step).net)
  {
    if Local(k, c, n, step) != Effect(n, [], []) {
      match step
      case ReceiverStart(m) => StartDoesNotGiveUp(k, c, n, m);
      case SenderStart(_) =>
      case SenderTransfer => TransferIsWhole(k, c, n, p, q);
      case SenderServe => ServeDoesNotGiveUp(k, c, n, p, q);
      case ReceiverRequest => RequestDoesNotGiveUp(k, c, n, p, q);
    }
  }

  lemma TransferIsWhole(k: Codec, c: Config, n: Net, p: seq<Frame>, q: seq<Frame>)
    requires Negotiating(c, n, p, q) && n.sender.request.Got? && n.sender.files == n.source
    requires Fits(k, c, n.source, Below(n.before, c.prefix))
    ensures DoSenderTransfer(k, c, n).net.stage.Finished?
  {
    PackedIsSendable(k, Transfer(c, n.source, n.sender.request.value, n.stage.toDelete).frames);
  }

  lemma {:induction false} NeverGivesUp(c: Config, src: Files, dst: Files, steps: seq<Step>)
    requires Faithful(c.json) && Fits(Fixed(0), c, src, Below(dst, c.prefix))
    ensures !GaveUp(Run(Fixed(0), c, src, dst, steps).net)
    decreases |steps|
  {
    if steps == [] {
    } else {
      var k, before, step := Fixed(0), steps[..|steps| - 1], steps[|steps| - 1];
      var s := Run(k, c, src, dst, before);
      FixedLawful(0);
      NeverGivesUp(c, src, dst, before);
      RunKeeps(k, c, src, dst, before);
      RunKeepsTrees(k, c, src, dst, before);
      if !step.DeliverToSender? && !step.DeliverToReceiver? {
        LocalDoesNotGiveUp(k, c, s.net, ToReceiverFlight(k, s), ToSenderFlight(k, s), step);
      }
    }
  }

  lemma StuckIsMissed(c: Config, src: Files, dst: Files, steps: seq<Step>)
    requires Faithful(c.json) && Stuck(Fixed(0), c, Run(Fixed(0), c, src, dst, steps))
    ensures var s := Run(Fixed(0), c, src, dst, steps); Missed(s.net) ==> IsUnheard(s)
    ensures var s := Run(Fixed(0), c, src, dst, steps); IsUnheard(s) ==> !s.net.receiver.done
  {
    FixedLawful(0);
    RunKeeps(Fixed(0), c, src, dst, steps);
    StuckLinks(Fixed(0), c, Run(Fixed(0), c, src, dst, steps));
  }

  /**
   * When everything fits, a run that can go no further has synchronised the trees if and
   * only if no step handed the receiver's manifest to a sender that was not waiting yet.
   */
  lemma CompletesUnlessEarly(c: Config, src: Files, dst: Files, steps: seq<Step>)
    requires Faithful(c.json) && Fits(Fixed(0), c, src, Below(dst, c.prefix))
    requires Stuck(Fixed(0), c, Run(Fixed(0), c, src, dst, steps))
    ensures var n := Run(Fixed(0), c, src, dst, steps).net;
            && (n.receiver.done <==> forall i :: 0 <= i < |steps| ==> !EarlyAt(c, src, dst, steps, i))
            && (n.receiver.done ==> n.receiver.files == After(c, src, dst))
  {
    StuckMeansDone(c, src, dst, steps);
    NeverGivesUp(c, src, dst, steps);
    StuckIsMissed(c, src, dst, steps);
    UnheardMeansEarly(c, src, dst, steps);
    assert steps[..|steps|] == steps;
    DoneMeansSynced(c, src, dst, steps);
  }

  // ---------- runs of either kind ----------

  lemma FirstStep(c: Config, src: Files, dst: Files, step: Step)
    ensures Run(Fixed(0), c, src, dst, [step]) == Do(Fixed(0), c, Start(src, dst), step)
  {
    RunThenStep(Fixed(0), c, src, dst, [], step);
    assert [] + [step] == [step];
  }

  /** The receiver has announced its tree to a sender that is still scanning. */
  lemma Announcing(k: Codec, c: Config, src: Files, dst: Files, mr: seq<Entry>)
    requires Lawful(k) && IsScan(mr, Below(dst, c.prefix), c.checksum) && k.sendable(ManifestFrame(c, mr))
    ensures var s := Do(k, c, Start(src, dst), ReceiverStart(mr));
            && s.net.stage.Connected? && s.net.peer == AwaitingTheirs(mr) && s.senderBuffer == []
            && s.toSender == EncodeAll(k, [ManifestFrame(c, mr)])
  {
    assert [] + EncodeAll(k, [ManifestFrame(c, mr)]) == EncodeAll(k, [ManifestFrame(c, mr)]);
  }

  /** Delivering everything that is on its way to the sender leaves nothing in flight. */
  lemma DeliversTheManifest(k: Codec, c: Config, s: Sys, f: Frame)
    requires Lawful(k) && k.sendable(f) && s.senderBuffer == [] && s.toSender == EncodeAll(k, [f])
    ensures ToSenderFlight(k, s) == [f] && ToSenderFlight(k, Do(k, c, s, DeliverToSender(|s.toSender|))) == []
  {
    assert [] + s.toSender == s.toSender && s.toSender[..|s.toSender|] == s.toSender;
    RoundTrip(k, [f]);
    var empty: bytes := [];
    assert empty + s.toSender[|s.toSender|..] == empty;
    assert k.next(empty).Incomplete?;
  }

  /** Such a run: the manifest arrives before the sender has scanned its tree. */
  lemma EarlyRun(c: Config, src: Files, dst: Files, mr: seq<Entry>) returns (steps: seq<Step>)
    requires IsScan(mr, Below(dst, c.prefix), c.checksum) && Fixed(0).sendable(ManifestFrame(c, mr))
    ensures |steps| == 2 && EarlyAt(c, src, dst, steps, 1)
  {
    var k, first := Fixed(0), ReceiverStart(mr);
    FixedLawful(0);
    var s := Do(k, c, Start(src, dst), first);
    Announcing(k, c, src, dst, mr);
    DeliversTheManifest(k, c, s, ManifestFrame(c, mr));
    FirstStep(c, src, dst, first);
    steps := [first, DeliverToSender(|s.toSender|)];
    assert steps[..1] == [first];
    PrefixThenStep(k, c, src, dst, steps, 1);
  }

  lemma NeverConnectedAgain(k: Codec, c: Config, s: Sys, step: Step)
    ensures Do(k, c, s, step).net.stage.Connected? ==> s.net.stage.Connected?
  {
  }

  lemma {:induction false} ScannedFirst(c: Config, src: Files, dst: Files, steps: seq<Step>, n: nat)
    requires 1 <= n <= |steps| && steps[0].SenderStart? && IsScan(steps[0].m, src, c.checksum)
    ensures !Run(Fixed(0), c, src, dst, steps[..n]).net.stage.Connected?
    decreases n
  {
    if n == 1 {
      FirstStep(c, src, dst, steps[0]);
      assert steps[..1] == [steps[0]];
    } else {
      ScannedFirst(c, src, dst, steps, n - 1);
      PrefixThenStep(Fixed(0), c, src, dst, steps, n - 1);
      NeverConnectedAgain(Fixed(0), c, Run(Fixed(0), c, src, dst, steps[..n - 1]), steps[n - 1]);
    }
  }

  lemma NothingCameEarly(c: Config, src: Files, dst: Files, steps: seq<Step>, i: nat)
    requires i < |steps| && steps[0].SenderStart? && IsScan(steps[0].m, src, c.checksum)
    ensures !EarlyAt(c, src, dst, steps, i)
  {
    if i == 0 {
      assert steps[..0] == [];
    } else {
      ScannedFirst(c, src, dst, steps, i);
    }
  }

  /** When everything fits, a run that begins with the sender's scan is done wherever it can go no further. */
  lemma ScanningFirstCompletes(c: Config, src: Files, dst: Files, steps: seq<Step>)
    requires Faithful(c.json) && Fits(Fixed(0), c, src, Below(dst, c.prefix))
    requires steps != [] && steps[0].SenderStart? && IsScan(steps[0].m, src, c.checksum)
    requires Stuck(Fixed(0), c, Run(Fixed(0), c, src, dst, steps))
    ensures var n := Run(Fixed(0), c, src, dst, steps).net; n.receiver.done && n.receiver.files == After(c, src, dst)
  {
    forall i | 0 <= i < |steps| ensures !EarlyAt(c, src, dst, steps, i) { NothingCameEarly(c, src, dst, steps, i); }
    CompletesUnlessEarly(c, src, dst, steps);
  }

  /** When everything fits, there is a run that is done. */
  lemma DoneRunExists(c: Config, src: Files, dst: Files) returns (steps: seq<Step>)
    requires Faithful(c.json) && Fits(Fixed(0), c, src, Below(dst, c.prefix))
    ensures var n := Run(Fixed(0), c, src, dst, steps).net; n.receiver.done && n.receiver.files == After(c, src, dst)
  {
    var ms := ScanExists(src, c.checksum);
    var more := EveryRunEnds(c, src, dst, [SenderStart(ms)]);
    steps := [SenderStart(ms)] + more;
    ScanningFirstCompletes(c, src, dst, steps);
  }
}
