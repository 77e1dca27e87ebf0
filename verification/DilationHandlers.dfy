/** Where the records of a subchannel end up: with its handler, or in its buffer until they are read. */
module DilationHandlers {
  import opened Bytes
  import opened Dilation
  import opened DilationRuns

  // ---------- one record ----------

  /** In any state of an end: with a handler the record is handed on, without one it is the last in the buffer. */
  lemma RecordGoesTo(e: End, id: nat, data: bytes)
    requires id in e.subs && id in e.registered
    ensures var s, e' := e.subs[id], HandleRecord(e, Record(DATA, id, data)).end;
            && id in e'.subs && e'.subs[id].handed == s.handed + [data]
            && e'.subs[id].given == s.given + (if s.hasHandler then [data] else [])
            && e'.subs[id].buffer == s.buffer + (if s.hasHandler then [] else [data])
            && e'.subs[id].read == s.read && e'.subs[id].recvSeqnum == s.recvSeqnum + 1
  {
    assert e.subs[id].given + [] == e.subs[id].given && e.subs[id].buffer + [] == e.subs[id].buffer;
  }

  /** ACKs, records of an unknown kind, and whatever comes for a subchannel that is not there, change nothing. */
  lemma OtherRecordsAreIgnored(e: End, r: Record)
    requires r.kind !in {1, 2, 3} || (r.kind != 1 && (r.id !in e.registered || r.id !in e.subs))
    ensures HandleRecord(e, r) == Out(e, [])
  {
  }

  // ---------- what a step does to a subchannel ----------

  /** What the handler has been given is all that ever came in. */
  predicate Direct(s: Sub) { s.hasHandler && s.given == s.handed && s.buffer == [] && s.read == [] }

  predicate Clears(step: Step, side: bool, id: nat) { step == UseSub(side, id, SetHandler(false)) }

  predicate BothIssued(s: Sys, id: nat) { Issued(s, true, id) && Issued(s, false, id) }

  predicate Held(s: Sys, side: bool, id: nat) { id in Get(s, side).subs }

  predicate DirectAt(s: Sys, side: bool, id: nat) { Held(s, side, id) && Direct(Get(s, side).subs[id]) }

  lemma OpenKeepsDirect(s: Sys, protocol: bytes, side: bool, id: nat, opener: bool)
    requires Inv(s) && DirectAt(s, side, id) && !BothIssued(Do(s, Open(opener, protocol)), id)
    ensures DirectAt(Do(s, Open(opener, protocol)), side, id)
  {
    assert IdOk(s, id);
    HeldIsIssued(s, side, id);
  }

  lemma UseKeepsDirect(s: Sys, step: Step, side: bool, id: nat)
    requires DirectAt(s, side, id) && !Clears(step, side, id) && !step.Open? && !step.Deliver?
    ensures DirectAt(Do(s, step), side, id)
  {
  }

  /** No second OPEN ever reaches an end that holds the subchannel. */
  lemma NoOpenForHeld(s: Sys, side: bool, r: Record)
    requires Inv(s) && Incoming(s, side) != [] && ParseRecord(Incoming(s, side)[0]) == Some(r)
    requires Held(s, side, r.id) && !BothIssued(s, r.id)
    ensures r.kind != OPEN
  {
    assert IdOk(s, r.id);
    HeldIsIssued(s, side, r.id);
    var opener := Issued(s, true, r.id);
    assert OneWay(ViewOf(s, r.id, opener));
    ViewOfPopped(s, side, r.id, opener);
  }

  lemma DeliverKeepsDirect(s: Sys, to: bool, side: bool, id: nat)
    requires Inv(s) && DirectAt(s, side, id) && !BothIssued(s, id)
    ensures DirectAt(Do(s, Deliver(to)), side, id)
  {
    if Incoming(s, to) != [] {
      DeliverIsHandle(s, to);
      var p := ParseRecord(Incoming(s, to)[0]);
      if to == side && p.Some? {
        if p.value.id == id { NoOpenForHeld(s, side, p.value); }
        HandleKeepsDirect(Get(s, side), p.value, id);
      }
    }
  }

  lemma HandleKeepsDirect(e: End, r: Record, id: nat)
    requires id in e.subs && Direct(e.subs[id]) && (r.id == id ==> r.kind != OPEN)
    ensures var e' := HandleRecord(e, r).end; id in e'.subs && Direct(e'.subs[id])
  {
  }

  lemma StepKeepsDirect(s: Sys, step: Step, side: bool, id: nat)
    requires Inv(s) && DirectAt(s, side, id) && !Clears(step, side, id) && !BothIssued(Do(s, step), id)
    ensures DirectAt(Do(s, step), side, id)
  {
    NextIdGrows(s, step);
    match step
    case Open(opener, protocol) => OpenKeepsDirect(s, protocol, side, id, opener);
    case Deliver(to) => DeliverKeepsDirect(s, to, side, id);
    case _ => UseKeepsDirect(s, step, side, id);
  }

  // ---------- with a handler ----------

  /** Step i sets the handler of a subchannel to which nothing has come yet, and no later step clears it. */
  predicate HandlerFirst(steps: seq<Step>, i: nat, side: bool, id: nat) {
    && i < |steps| && steps[i] == UseSub(side, id, SetHandler(true))
    && Held(Run(steps[..i]), side, id) && Get(Run(steps[..i]), side).subs[id].handed == []
    && forall j :: i < j < |steps| ==> !Clears(steps[j], side, id)
  }

  lemma FreshIsDirect(s: Sys, side: bool, id: nat)
    requires EndOk(Get(s, side)) && Held(s, side, id) && Get(s, side).subs[id].handed == []
    ensures DirectAt(Do(s, UseSub(side, id, SetHandler(true))), side, id)
  {
    assert HalfOk(HalfOf(Get(s, side), id));
  }

  lemma DirectFirst(steps: seq<Step>, side: bool, id: nat)
    requires steps != [] && HandlerFirst(steps, |steps| - 1, side, id)
    ensures DirectAt(Run(steps), side, id)
  {
    RunKeepsBooks(steps[..|steps| - 1]);
    FreshIsDirect(Run(steps[..|steps| - 1]), side, id);
  }

  lemma DirectNext(steps: seq<Step>, side: bool, id: nat)
    requires steps != [] && NoIdWraps(Run(steps)) && !BothIssued(Run(steps), id)
    requires DirectAt(Run(steps[..|steps| - 1]), side, id) && !Clears(steps[|steps| - 1], side, id)
    ensures DirectAt(Run(steps), side, id)
  {
    var before := steps[..|steps| - 1];
    NextIdGrows(Run(before), steps[|steps| - 1]);
    RunKeeps(before);
    StepKeepsDirect(Run(before), steps[|steps| - 1], side, id);
  }

  lemma OneStepLess(steps: seq<Step>, i: nat, side: bool, id: nat)
    requires HandlerFirst(steps, i, side, id) && i < |steps| - 1
    ensures HandlerFirst(steps[..|steps| - 1], i, side, id)
  {
    assert steps[..|steps| - 1][..i] == steps[..i];
  }

  lemma EarlierIsSole(steps: seq<Step>, id: nat)
    requires steps != [] && NoIdWraps(Run(steps)) && !BothIssued(Run(steps), id)
    ensures var s := Run(steps[..|steps| - 1]); NoIdWraps(s) && !BothIssued(s, id)
  {
    NextIdGrows(Run(steps[..|steps| - 1]), steps[|steps| - 1]);
  }

  lemma {:induction false} StaysDirect(steps: seq<Step>, i: nat, side: bool, id: nat)
    requires NoIdWraps(Run(steps)) && !BothIssued(Run(steps), id) && HandlerFirst(steps, i, side, id)
    ensures DirectAt(Run(steps), side, id)
    decreases |steps|
  {
    if i == |steps| - 1 {
      DirectFirst(steps, side, id);
    } else {
      OneStepLess(steps, i, side, id);
      EarlierIsSole(steps, id);
      StaysDirect(steps[..|steps| - 1], i, side, id);
      DirectNext(steps, side, id);
    }
  }

  /**
   * In every run, a handler that was set before the first record and is never cleared has
   * been given everything that came in, the buffer has stayed empty, and what it has been
   * given is an in-order prefix of what the other end sent.
   */
  lemma HandlerSeesEverything(steps: seq<Step>, i: nat, side: bool, id: nat)
    requires NoIdWraps(Run(steps)) && !BothIssued(Run(steps), id) && HandlerFirst(steps, i, side, id)
    ensures Held(Run(steps), side, id)
    ensures var s := Get(Run(steps), side).subs[id];
            && s.given == s.handed && s.buffer == [] && s.read == []
            && s.given <= SentOn(HalfOf(Get(Run(steps), !side), id))
  {
    StaysDirect(steps, i, side, id);
    SubchannelsKeepTheirStreams(steps, id);
  }

  // ---------- without a handler ----------

  predicate NeverSets(steps: seq<Step>, side: bool, id: nat) {
    forall j :: 0 <= j < |steps| ==> steps[j] != UseSub(side, id, SetHandler(true))
  }

  predicate Unhandled(s: Sys, side: bool, id: nat) {
    Held(s, side, id) ==> !Get(s, side).subs[id].hasHandler && Get(s, side).subs[id].given == []
  }

  lemma StepKeepsUnhandled(s: Sys, step: Step, side: bool, id: nat)
    requires Unhandled(s, side, id) && step != UseSub(side, id, SetHandler(true))
    ensures Unhandled(Do(s, step), side, id)
  {
    if step.Deliver? && Incoming(s, step.side) != [] {
      DeliverIsHandle(s, step.side);
    }
  }

  lemma {:induction false} StaysUnhandled(steps: seq<Step>, side: bool, id: nat)
    requires NeverSets(steps, side, id)
    ensures Unhandled(Run(steps), side, id)
    decreases |steps|
  {
    if steps == [] {
    } else {
      StaysUnhandled(steps[..|steps| - 1], side, id);
      StepKeepsUnhandled(Run(steps[..|steps| - 1]), steps[|steps| - 1], side, id);
    }
  }

  /**
   * In every run, without a handler nothing is given away: what was read, and behind it what
   * is buffered, is everything that came in, in order.
   */
  lemma BufferKeepsEverything(steps: seq<Step>, side: bool, id: nat)
    requires NeverSets(steps, side, id) && Held(Run(steps), side, id)
    ensures var s := Get(Run(steps), side).subs[id]; s.given == [] && s.handed == s.read + s.buffer
  {
    StaysUnhandled(steps, side, id);
    CountersAddUp(steps, side, id);
  }
}
