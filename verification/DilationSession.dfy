/**
 * Subchannels that go all the way: for every protocol and everything both ends say there is
 * a run that opens one, hands it all over and closes it; and one in which nobody listens.
 */
module DilationSession {
  import opened Bytes
  import opened Dilation
  import opened DilationRuns
  import DilationCollisions

  // ---------- a record sent and delivered ----------

  function AtRest(a: End, b: End): Sys { Sys(a, b, [], []) }

  lemma WireOfOne(r: Record)
    ensures Wire([r]) == [EncodeRecord(r)]
  {
    assert [r][1..] == [];
    assert Wire([r]) == [EncodeRecord(r)] + [];
  }

  /** An end at rest sends a record, and the other end handles it. */
  lemma Passes(a: End, b: End, side: bool, o: Out, r: Record)
    requires o.records == [r] && r.id < ID_LIMIT && r.kind != ACK
    ensures var o' := HandleRecord(if side then b else a, r);
            Do(Put(AtRest(a, b), side, o), Deliver(!side))
            == if side then Sys(o.end, o'.end, Wire(o'.records), []) else Sys(o'.end, o.end, [], Wire(o'.records))
  {
    var sent := Put(AtRest(a, b), side, o);
    RecordRoundTrip(r);
    WireOfOne(r);
    assert [] + [EncodeRecord(r)] == [EncodeRecord(r)];
    assert [EncodeRecord(r)][1..] == [];
    var o' := HandleRecord(if side then b else a, r);
    assert [] + Wire(o'.records) == Wire(o'.records);
    DeliverIsHandle(sent, !side);
  }

  lemma Quietly(a: End, b: End, side: bool, e: End)
    ensures Put(AtRest(a, b), side, Out(e, [])) == if side then AtRest(e, b) else AtRest(a, e)
  {
    assert Wire([]) == [];
  }

  lemma ThenTwo(before: seq<Step>, first: Step, second: Step) returns (steps: seq<Step>)
    ensures Run(steps) == Do(Do(Run(before), first), second) && steps == before + [first] + [second]
  {
    DilationCollisions.RunThenStep(before, first);
    DilationCollisions.RunThenStep(before + [first], second);
    steps := before + [first] + [second];
  }

  // ---------- opening ----------

  /** One end of the subchannel: everything sent, and everything its handler was given. */
  function Ready(sent: seq<bytes>, given: seq<bytes>): Sub { Sub(true, true, sent, |given|, [], given, given, []) }

  predicate Holds(e: End, sub: Sub) { Half(Some(sub), true) == HalfOf(e, 1) }

  predicate Talking(s: Sys, up: seq<bytes>, down: seq<bytes>) {
    s == AtRest(s.a, s.b) && Holds(s.a, Ready(up, down)) && Holds(s.b, Ready(down, up))
  }

  lemma OpenedRun(protocol: bytes) returns (steps: seq<Step>)
    ensures var s := Run(steps); s == AtRest(s.a, s.b) && Holds(s.a, NEW_SUB) && Holds(s.b, NEW_SUB)
  {
    var listening := [] + [Listen(false, protocol)];
    DilationCollisions.RunThenStep([], Listen(false, protocol));
    Quietly(START.a, START.b, false, SetListeners(START.b, START.b.listeners + {protocol}).end);
    var s := Run(listening);
    assert s == AtRest(START.a, s.b) && protocol in s.b.listeners;
    var r := Record(OPEN, 1, protocol);
    Passes(s.a, s.b, true, OpenSubchannel(s.a, protocol), r);
    HandleOpen(s.b, r, 1);
    assert Wire([]) == [];
    steps := ThenTwo(listening, Open(true, protocol), Deliver(false));
  }

  lemma SetsHandler(s: Sys, side: bool)
    requires s == AtRest(s.a, s.b) && Holds(Get(s, side), NEW_SUB)
    ensures var s' := Do(s, UseSub(side, 1, SetHandler(true)));
            && s' == AtRest(s'.a, s'.b) && Get(s', !side) == Get(s, !side) && Holds(Get(s', side), Ready([], []))
  {
    Quietly(s.a, s.b, side, UseOn(Get(s, side), 1, SetHandler(true)).end);
  }

  lemma TalkingRun(protocol: bytes) returns (steps: seq<Step>)
    ensures Talking(Run(steps), [], [])
  {
    var before := OpenedRun(protocol);
    SetsHandler(Run(before), true);
    SetsHandler(Do(Run(before), UseSub(true, 1, SetHandler(true))), false);
    steps := ThenTwo(before, UseSub(true, 1, SetHandler(true)), UseSub(false, 1, SetHandler(true)));
  }

  // ---------- talking ----------

  datatype Word = Word(side: bool, data: bytes)

  /** What one side has said, in order. */
  function SaidBy(words: seq<Word>, side: bool): seq<bytes> {
    if words == [] then []
    else SaidBy(words[..|words| - 1], side)
         + (if words[|words| - 1].side == side then [words[|words| - 1].data] else [])
  }

  lemma Speaks(s: Sys, up: seq<bytes>, down: seq<bytes>, word: Word)
    requires Talking(s, up, down)
    ensures Talking(Do(Do(s, Send(word.side, 1, word.data)), Deliver(!word.side)),
                    up + (if word.side then [word.data] else []), down + (if word.side then [] else [word.data]))
  {
    var e := Get(s, word.side);
    assert up + [] == up && down + [] == down;
    Passes(s.a, s.b, word.side, SendData(e, 1, word.data), Record(DATA, 1, word.data));
    assert Wire([]) == [];
  }

  lemma {:induction false} ConversationRun(protocol: bytes, words: seq<Word>) returns (steps: seq<Step>)
    ensures Talking(Run(steps), SaidBy(words, true), SaidBy(words, false))
    decreases |words|
  {
    if words == [] {
      steps := TalkingRun(protocol);
    } else {
      var front, word := words[..|words| - 1], words[|words| - 1];
      var before := ConversationRun(protocol, front);
      Speaks(Run(before), SaidBy(front, true), SaidBy(front, false), word);
      steps := ThenTwo(before, Send(word.side, 1, word.data), Deliver(!word.side));
    }
  }

  // ---------- closing ----------

  /** The subchannel is closed and in no map, and both handlers were given all that was sent. */
  predicate Over(s: Sys, up: seq<bytes>, down: seq<bytes>) {
    && HalfOf(s.a, 1) == Half(Some(Ready(up, down).(isOpen := false)), false)
    && HalfOf(s.b, 1) == Half(Some(Ready(down, up).(isOpen := false)), false)
  }

  lemma Closes(s: Sys, up: seq<bytes>, down: seq<bytes>, side: bool)
    requires Talking(s, up, down)
    ensures Over(Do(Do(Do(s, Close(side, 1)), Deliver(!side)), Closed(side, 1)), up, down)
  {
    Passes(s.a, s.b, side, CloseSub(Get(s, side), 1), Record(CLOSE, 1, [0]));
    assert Wire([]) == [];
  }

  /**
   * For every protocol and whatever the two ends say in whatever order there is a run in
   * which the subchannel is opened, the handler of each end is given exactly what the other
   * end sent, in order, and after either end has closed it it is closed and gone at both.
   */
  lemma SessionRun(protocol: bytes, words: seq<Word>, closer: bool) returns (steps: seq<Step>)
    ensures Over(Run(steps), SaidBy(words, true), SaidBy(words, false))
  {
    var talked := ConversationRun(protocol, words);
    Closes(Run(talked), SaidBy(words, true), SaidBy(words, false), closer);
    var closing := ThenTwo(talked, Close(closer, 1), Deliver(!closer));
    DilationCollisions.RunThenStep(closing, Closed(closer, 1));
    steps := closing + [Closed(closer, 1)];
  }

  /** Nobody listens, or nobody does any more. */
  lemma UnheardRun(protocol: bytes, listened: bool) returns (steps: seq<Step>)
    ensures Run(steps) == START && (listened ==> steps == [Listen(false, protocol), Unlisten(false, protocol)])
  {
    steps := [];
    if listened {
      var heard := AtRest(START.a, START.b.(listeners := {protocol}));
      Quietly(START.a, START.b, false, heard.b);
      assert {} + {protocol} == {protocol} && {protocol} - {protocol} == {};
      Quietly(heard.a, heard.b, false, START.b);
      steps := ThenTwo([], Listen(false, protocol), Unlisten(false, protocol));
    }
  }

  /** For every protocol there are runs in which nobody listens: the opener's subchannel is closed and gone. */
  lemma RefusalRun(protocol: bytes, listened: bool) returns (steps: seq<Step>)
    ensures listened ==> [Listen(false, protocol), Unlisten(false, protocol)] <= steps
    ensures var s := Run(steps);
            && HalfOf(s.a, 1) == Half(Some(NEW_SUB.(isOpen := false)), false) && HalfOf(s.b, 1) == Half(None, false)
  {
    var open, refusal := Record(OPEN, 1, protocol), Record(CLOSE, 1, [0]);
    var o := OpenSubchannel(START.a, protocol);
    Passes(START.a, START.b, true, o, open);
    var s := Sys(o.end, START.b, Wire([refusal]), []);
    WireOfOne(refusal);
    RecordRoundTrip(refusal);
    DeliverIsHandle(s, true);
    var before := UnheardRun(protocol, listened);
    var asked := ThenTwo(before, Open(true, protocol), Deliver(false));
    DilationCollisions.RunThenStep(asked, Deliver(true));
    steps := asked + [Deliver(true)];
  }
}
