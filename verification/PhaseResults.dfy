/** How receives end: each once, by its message or by its timeout, and for good. */
module PhaseResults {
  import opened Bytes
  import opened Hex
  import opened Mailbox
  import opened Phases

  function Own(k: nat): Handler { Waiter(k, Decimal(k)) }

  /** A receive that was started is waiting or has a result, never both and never neither. */
  predicate WaitsOrEnded(p: Party, k: nat) {
    if k < p.nextRx then k in p.results <==> Own(k) !in p.handlers
    else k !in p.results && Own(k) !in p.handlers
  }

  predicate Recorded(p: Party, k: nat, r: Result) { k in p.results && p.results[k] == r }

  // ---------- dispatch and timeout, handler by handler ----------

  /** A handler leaves the array exactly by being called with the phase it waits for. */
  lemma {:induction false} LeavesWhenServed(hs: seq<Handler>, phase: bytes, h: Handler)
    requires Distinct(hs) && h in hs
    ensures h in Dispatch(hs, phase).kept <==> !(Wants(h, phase) && h in Dispatch(hs, phase).called)
    decreases |hs|
  {
    KeptAreOld(hs[1..], phase);
    assert hs[0] !in hs[1..];
    if Wants(hs[0], phase) {
      if |hs| > 1 {
        KeptAreOld(hs[2..], phase);
        assert hs[1] !in hs[2..];
        if h in hs[2..] { LeavesWhenServed(hs[2..], phase, h); }
      }
    } else if h != hs[0] {
      assert h in hs[1..];
      LeavesWhenServed(hs[1..], phase, h);
    }
  }

  lemma {:induction false} WithoutIsRemoval(hs: seq<Handler>, h: Handler, g: Handler)
    requires Distinct(hs)
    ensures g in Without(hs, h) <==> g in hs && g != h
  {
    if hs == [] {
    } else {
      assert hs[0] !in hs[1..];
      WithoutIsRemoval(hs[1..], h, g);
    }
  }

  lemma ServedMeansCalled(p: Party, phase: bytes, k: nat)
    requires HandlersOk(p)
    ensures k in Served(Dispatch(p.handlers, phase).called, phase)
       <==> Wants(Own(k), phase) && Own(k) in Dispatch(p.handlers, phase).called
  {
    var called := Dispatch(p.handlers, phase).called;
    KeptAreOld(p.handlers, phase);
    if k in Served(called, phase) {
      var h :| h in called && Wants(h, phase) && h.id == k;
      assert h in p.handlers;
    }
    if Wants(Own(k), phase) && Own(k) in called {
      assert Own(k).id in Served(called, phase);
    }
  }

  // ---------- steps ----------

  lemma AcceptKeepsOnce(c: Crypto, p: Party, peerSide: bytes, m: Relayed, k: nat)
    requires HandlersOk(p) && WaitsOrEnded(p, k)
    ensures WaitsOrEnded(Accept(c, p, peerSide, m), k)
    ensures forall r :: Recorded(p, k, r) ==> Recorded(Accept(c, p, peerSide, m), k, r)
    ensures Recorded(Accept(c, p, peerSide, m), k, TimedOut) ==> Recorded(p, k, TimedOut)
  {
    if m.side != p.side {
      ServedMeansCalled(p, m.phase, k);
      KeptAreOld(p.handlers, m.phase);
      if Own(k) in p.handlers { LeavesWhenServed(p.handlers, m.phase, Own(k)); }
    }
  }

  lemma TimeoutEnds(c: Crypto, s: Sys, who: bool, j: nat, k: nat)
    requires HandlersOk(Get(s, who)) && WaitsOrEnded(Get(s, who), k)
    ensures var p, p' := Get(s, who), Get(Do(c, s, Timeout(who, j)), who);
            && WaitsOrEnded(p', k)
            && (forall r :: Recorded(p, k, r) ==> Recorded(p', k, r))
            && (Recorded(p', k, TimedOut) <==> Recorded(p, k, TimedOut) || (j == k && Own(k) in p.handlers))
  {
    WithoutIsRemoval(Get(s, who).handlers, Own(j), Own(k));
  }

  predicate TimesOut(s: Sys, step: Step, who: bool, k: nat) {
    step == Timeout(who, k) && Own(k) in Get(s, who).handlers
  }

  lemma StepKeepsOnce(c: Crypto, s: Sys, step: Step, who: bool, k: nat)
    requires HandlersOk(Get(s, who)) && WaitsOrEnded(Get(s, who), k)
    ensures var p, p' := Get(s, who), Get(Do(c, s, step), who);
            && WaitsOrEnded(p', k)
            && (forall r :: Recorded(p, k, r) ==> Recorded(p', k, r))
            && (Recorded(p', k, TimedOut) <==> Recorded(p, k, TimedOut) || TimesOut(s, step, who, k))
  {
    match step
    case Deliver(to, i) =>
      if to == who && i < |s.pool| {
        DeliverIsAccept(c, s, who, i);
        AcceptKeepsOnce(c, Get(s, who), Get(s, !who).side, s.pool[i], k);
      }
    case Timeout(party, j) => if party == who { TimeoutEnds(c, s, who, j, k); }
    case _ =>
  }

  lemma {:induction false} RunKeepsOnce(c: Crypto, sideA: bytes, sideB: bytes, steps: seq<Step>, who: bool, k: nat)
    requires Opens(c)
    ensures WaitsOrEnded(Get(Run(c, sideA, sideB, steps), who), k)
    decreases |steps|
  {
    if steps == [] {
    } else {
      var before := steps[..|steps| - 1];
      RunKeepsOnce(c, sideA, sideB, before, who, k);
      RunKeeps(c, sideA, sideB, before);
      StepKeepsOnce(c, Run(c, sideA, sideB, before), steps[|steps| - 1], who, k);
    }
  }

  // ---------- the theorems ----------

  /**
   * In every run, every receive that was started is still waiting or has ended, never both
   * and never neither; and no other receive has a waiter or a result.
   */
  lemma ReceiveEndsOnce(c: Crypto, sideA: bytes, sideB: bytes, steps: seq<Step>, who: bool, k: nat)
    requires Opens(c)
    ensures var p := Get(Run(c, sideA, sideB, steps), who);
            if k < p.nextRx then k in p.results <==> Waiter(k, Decimal(k)) !in p.handlers
            else k !in p.results && Waiter(k, Decimal(k)) !in p.handlers
  {
    RunKeepsOnce(c, sideA, sideB, steps, who, k);
  }

  lemma NextKeepsResult(c: Crypto, sideA: bytes, sideB: bytes, steps: seq<Step>, step: Step,
                        who: bool, k: nat, r: Result)
    requires Opens(c) && Recorded(Get(Run(c, sideA, sideB, steps), who), k, r)
    ensures Recorded(Get(Do(c, Run(c, sideA, sideB, steps), step), who), k, r)
  {
    RunKeeps(c, sideA, sideB, steps);
    RunKeepsOnce(c, sideA, sideB, steps, who, k);
    StepKeepsOnce(c, Run(c, sideA, sideB, steps), step, who, k);
  }

  /** In every run, whatever follows, a receive that has ended keeps its result. */
  lemma {:induction false} ResultsAreFinal(c: Crypto, sideA: bytes, sideB: bytes, steps: seq<Step>, more: seq<Step>,
                                           who: bool, k: nat, r: Result)
    requires Opens(c) && Recorded(Get(Run(c, sideA, sideB, steps), who), k, r)
    ensures Recorded(Get(Run(c, sideA, sideB, steps + more), who), k, r)
    decreases |more|
  {
    if more == [] {
      assert steps + more == steps;
    } else {
      var front, step := more[..|more| - 1], more[|more| - 1];
      ResultsAreFinal(c, sideA, sideB, steps, front, who, k, r);
      assert steps + more == (steps + front) + [step];
      RunThenStep(c, sideA, sideB, steps + front, step);
      NextKeepsResult(c, sideA, sideB, steps + front, step, who, k, r);
    }
  }

  /** The i-th step is the timeout of a receive that was still waiting. */
  predicate TimesOutAt(c: Crypto, sideA: bytes, sideB: bytes, steps: seq<Step>, i: nat, who: bool, k: nat)
    requires i < |steps|
  {
    TimesOut(Run(c, sideA, sideB, steps[..i]), steps[i], who, k)
  }

  predicate EverTimesOut(c: Crypto, sideA: bytes, sideB: bytes, steps: seq<Step>, who: bool, k: nat) {
    exists i :: 0 <= i < |steps| && TimesOutAt(c, sideA, sideB, steps, i, who, k)
  }

  lemma EverTimesOutNext(c: Crypto, sideA: bytes, sideB: bytes, steps: seq<Step>, who: bool, k: nat)
    requires steps != []
    ensures EverTimesOut(c, sideA, sideB, steps, who, k)
       <==> || EverTimesOut(c, sideA, sideB, steps[..|steps| - 1], who, k)
            || TimesOutAt(c, sideA, sideB, steps, |steps| - 1, who, k)
  {
    var last := |steps| - 1;
    var before := steps[..last];
    forall i | 0 <= i < last
      ensures TimesOutAt(c, sideA, sideB, steps, i, who, k) <==> TimesOutAt(c, sideA, sideB, before, i, who, k)
    {
      assert before[..i] == steps[..i];
    }
    if EverTimesOut(c, sideA, sideB, before, who, k) {
      var i :| 0 <= i < last && TimesOutAt(c, sideA, sideB, before, i, who, k);
      assert TimesOutAt(c, sideA, sideB, steps, i, who, k);
    }
  }

  lemma TimedOutNext(c: Crypto, sideA: bytes, sideB: bytes, steps: seq<Step>, who: bool, k: nat)
    requires Opens(c) && steps != []
    ensures Recorded(Get(Run(c, sideA, sideB, steps), who), k, TimedOut)
       <==> || Recorded(Get(Run(c, sideA, sideB, steps[..|steps| - 1]), who), k, TimedOut)
            || TimesOutAt(c, sideA, sideB, steps, |steps| - 1, who, k)
  {
    var before := steps[..|steps| - 1];
    RunKeeps(c, sideA, sideB, before);
    RunKeepsOnce(c, sideA, sideB, before, who, k);
    StepKeepsOnce(c, Run(c, sideA, sideB, before), steps[|steps| - 1], who, k);
  }

  /** In every run, a receive has timed out if and only if its timeout came while it was waiting. */
  lemma {:induction false} TimedOutExactlyWhen(c: Crypto, sideA: bytes, sideB: bytes, steps: seq<Step>,
                                               who: bool, k: nat)
    requires Opens(c)
    ensures Recorded(Get(Run(c, sideA, sideB, steps), who), k, TimedOut)
       <==> EverTimesOut(c, sideA, sideB, steps, who, k)
    decreases |steps|
  {
    if steps == [] {
    } else {
      TimedOutExactlyWhen(c, sideA, sideB, steps[..|steps| - 1], who, k);
      TimedOutNext(c, sideA, sideB, steps, who, k);
      EverTimesOutNext(c, sideA, sideB, steps, who, k);
    }
  }

  // ---------- listeners and the relay ----------

  /** What a step adds to the relay: a numbered message, a message under a name, or nothing. */
  lemma RelayGrows(c: Crypto, s: Sys, step: Step)
    ensures Do(c, s, step).pool
         == s.pool + (match step
                      case Send(who, payload, nonce) =>
                        if |nonce| != 24 then []
                        else
                          var p, k := Get(s, who), |Get(s, who).sent|;
                          [Relayed(who, p.side, Decimal(k),
                                   ToHex(nonce + c.seal(payload, nonce, c.key(p.side, Decimal(k)))))]
                      case Control(who, phase, body) =>
                        if NamedPhase(phase) then [Relayed(who, Get(s, who).side, phase, body)] else []
                      case _ => [])
  {
    assert s.pool + [] == s.pool;
  }

  lemma StepKeepsListener(c: Crypto, s: Sys, step: Step, who: bool, id: nat)
    requires HandlersOk(Get(s, who)) && Listener(id) in Get(s, who).handlers
    ensures Listener(id) in Get(Do(c, s, step), who).handlers
  {
    var p := Get(s, who);
    match step
    case Deliver(to, i) =>
      if to == who && i < |s.pool| {
        DeliverIsAccept(c, s, who, i);
        if s.pool[i].side != p.side { LeavesWhenServed(p.handlers, s.pool[i].phase, Listener(id)); }
      }
    case Timeout(party, j) => if party == who { WithoutIsRemoval(p.handlers, Own(j), Listener(id)); }
    case _ =>
  }

  /** In every run, a handler that was registered for all messages stays, whatever else is served or times out. */
  lemma {:induction false} ListenersStay(c: Crypto, sideA: bytes, sideB: bytes, steps: seq<Step>, more: seq<Step>,
                                         who: bool, id: nat)
    requires Opens(c)
    ensures Listener(id) in Get(Run(c, sideA, sideB, steps + [Listen(who, id)] + more), who).handlers
    decreases |more|
  {
    var listening := steps + [Listen(who, id)];
    if more == [] {
      assert listening + more == listening;
      RunThenStep(c, sideA, sideB, steps, Listen(who, id));
    } else {
      var front, step := more[..|more| - 1], more[|more| - 1];
      ListenersStay(c, sideA, sideB, steps, front, who, id);
      assert listening + more == (listening + front) + [step];
      RunThenStep(c, sideA, sideB, listening + front, step);
      RunKeeps(c, sideA, sideB, listening + front);
      StepKeepsListener(c, Run(c, sideA, sideB, listening + front), step, who, id);
    }
  }
}
