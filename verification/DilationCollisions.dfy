/**
 * Both ends number their subchannels from 1.  For every id there is a run in which both
 * have issued it and a record reaches a subchannel its sender never saw.
 */
module DilationCollisions {
  import opened Bytes
  import opened Dilation
  import opened DilationRuns

  const PROTOCOL: bytes := [112]
  const PAYLOAD: bytes := [120]

  lemma RunThenStep(steps: seq<Step>, step: Step)
    ensures Run(steps + [step]) == Do(Run(steps), step)
  {
    assert (steps + [step])[..|steps|] == steps;
  }

  /** The announcements of the subchannels from k on, up to id. */
  function Opens(k: nat, id: nat): seq<bytes>
    decreases id - k
  {
    if k > id then [] else [EncodeRecord(Record(OPEN, k, PROTOCOL))] + Opens(k + 1, id)
  }

  lemma {:induction false} OpensAppend(k: nat, id: nat)
    requires k <= id + 1
    ensures Opens(k, id + 1) == Opens(k, id) + [EncodeRecord(Record(OPEN, id + 1, PROTOCOL))]
    decreases id + 1 - k
  {
    if k == id + 1 {
      assert Opens(k + 1, id + 1) == [];
    } else {
      OpensAppend(k + 1, id);
    }
  }

  /** An end that has opened n fresh subchannels. */
  predicate Opened(e: End, n: nat, listeners: set<bytes>) {
    && e.nextId == n + 1 && e.listeners == listeners
    && forall k :: 1 <= k <= n ==> k in e.subs && k in e.registered && e.subs[k] == NEW_SUB
  }

  lemma OpenOne(e: End, n: nat, listeners: set<bytes>)
    requires Opened(e, n, listeners)
    ensures Opened(OpenSubchannel(e, PROTOCOL).end, n + 1, listeners)
    ensures Wire(OpenSubchannel(e, PROTOCOL).records) == [EncodeRecord(Record(OPEN, n + 1, PROTOCOL))]
  {
    var records := OpenSubchannel(e, PROTOCOL).records;
    assert records[1..] == [];
    assert [EncodeRecord(records[0])] + [] == [EncodeRecord(records[0])];
  }

  /** B listens and each end has opened its share; nothing has been delivered. */
  predicate BothOpened(s: Sys, m: nat, n: nat) {
    && Opened(s.a, m, {}) && s.toB == Opens(1, m)
    && Opened(s.b, n, {PROTOCOL}) && s.toA == Opens(1, n)
  }

  lemma {:induction false} AOpens(m: nat) returns (steps: seq<Step>)
    ensures BothOpened(Run(steps), m, 0)
    decreases m
  {
    if m == 0 {
      steps := [Listen(false, PROTOCOL)];
      RunThenStep([], Listen(false, PROTOCOL));
      assert [] + [Listen(false, PROTOCOL)] == steps;
      assert START.toA + Wire([]) == [];
    } else {
      var before := AOpens(m - 1);
      steps := before + [Open(true, PROTOCOL)];
      RunThenStep(before, Open(true, PROTOCOL));
      OpenOne(Run(before).a, m - 1, {});
      OpensAppend(1, m - 1);
    }
  }

  lemma {:induction false} BOpens(m: nat, n: nat) returns (steps: seq<Step>)
    ensures BothOpened(Run(steps), m, n)
    decreases n
  {
    if n == 0 {
      steps := AOpens(m);
    } else {
      var before := BOpens(m, n - 1);
      steps := before + [Open(false, PROTOCOL)];
      RunThenStep(before, Open(false, PROTOCOL));
      OpenOne(Run(before).b, n - 1, {PROTOCOL});
      OpensAppend(1, n - 1);
    }
  }

  /** B has sent on its subchannel id, and A's announcements below k have reached B. */
  predicate Sent(s: Sys, id: nat, k: nat) {
    && Opened(s.a, id, {}) && s.toB == Opens(k, id)
    && s.b.nextId == id + 1 && s.b.listeners == {PROTOCOL}
    && (k > id ==> id in s.b.subs && s.b.subs[id].sent == [])
    && s.toA == Opens(1, id) + [EncodeRecord(Record(DATA, id, PAYLOAD))]
  }

  lemma BSends(id: nat) returns (steps: seq<Step>)
    requires 1 <= id
    ensures Sent(Run(steps), id, 1)
  {
    var before := BOpens(id, id);
    steps := before + [Send(false, id, PAYLOAD)];
    RunThenStep(before, Send(false, id, PAYLOAD));
    var records := SendData(Run(before).b, id, PAYLOAD).records;
    assert records[1..] == [];
    assert Wire(records) == [EncodeRecord(records[0])] + [];
  }

  /** An OPEN handed to B puts a fresh object in the place of B's own. */
  lemma BHandles(s: Sys, id: nat, k: nat)
    requires Sent(s, id, k) && 1 <= k <= id < ID_LIMIT
    ensures Sent(Do(s, Deliver(false)), id, k + 1)
  {
    var r := Record(OPEN, k, PROTOCOL);
    RecordRoundTrip(r);
    assert s.toB[0] == EncodeRecord(r) && s.toB[1..] == Opens(k + 1, id);
    DeliverIsHandle(s, false);
    assert s.toA + Wire([]) == s.toA;
    assert HandleRecord(s.b, r).records == [];
  }

  lemma {:induction false} BReceives(id: nat, k: nat) returns (steps: seq<Step>)
    requires 1 <= k <= id + 1 && id < ID_LIMIT && 1 <= id
    ensures Sent(Run(steps), id, k)
    decreases k
  {
    if k == 1 {
      steps := BSends(id);
    } else {
      var before := BReceives(id, k - 1);
      steps := before + [Deliver(false)];
      BReceivesOne(before, id, k - 1);
    }
  }

  lemma BReceivesOne(before: seq<Step>, id: nat, k: nat)
    requires Sent(Run(before), id, k) && 1 <= k <= id < ID_LIMIT
    ensures Sent(Run(before + [Deliver(false)]), id, k + 1)
  {
    RunThenStep(before, Deliver(false));
    BHandles(Run(before), id, k);
  }

  /** B's announcements below k have reached A, which listens to nothing and answers each with a CLOSE. */
  predicate Returned(s: Sys, id: nat, k: nat) {
    && Opened(s.a, id, {}) && s.b.nextId == id + 1
    && id in s.b.subs && s.b.subs[id].sent == []
    && s.toA == Opens(k, id) + [EncodeRecord(Record(DATA, id, PAYLOAD))]
  }

  lemma AHandles(s: Sys, id: nat, k: nat)
    requires Returned(s, id, k) && 1 <= k <= id < ID_LIMIT
    ensures Returned(Do(s, Deliver(true)), id, k + 1)
  {
    var r := Record(OPEN, k, PROTOCOL);
    RecordRoundTrip(r);
    var rest := Opens(k + 1, id) + [EncodeRecord(Record(DATA, id, PAYLOAD))];
    assert s.toA == [EncodeRecord(r)] + rest;
    assert s.toA[1..] == rest;
    DeliverIsHandle(s, true);
    assert HandleRecord(s.a, r).end == s.a;
  }

  lemma {:induction false} AReceives(id: nat, k: nat) returns (steps: seq<Step>)
    requires 1 <= k <= id + 1 && id < ID_LIMIT && 1 <= id
    ensures Returned(Run(steps), id, k)
    decreases k
  {
    if k == 1 {
      steps := BReceives(id, id + 1);
    } else {
      var before := AReceives(id, k - 1);
      steps := before + [Deliver(true)];
      AReceivesOne(before, id, k - 1);
    }
  }

  lemma AReceivesOne(before: seq<Step>, id: nat, k: nat)
    requires Returned(Run(before), id, k) && 1 <= k <= id < ID_LIMIT
    ensures Returned(Run(before + [Deliver(true)]), id, k + 1)
  {
    RunThenStep(before, Deliver(true));
    AHandles(Run(before), id, k);
  }

  /** A is handed the record B sent on a subchannel of B's own. */
  lemma AIsHanded(s: Sys, id: nat)
    requires Returned(s, id, id + 1) && 1 <= id < ID_LIMIT
    ensures var s' := Do(s, Deliver(true));
            && NoIdWraps(s') && Issued(s', true, id) && Issued(s', false, id)
            && HandedTo(HalfOf(s'.a, id)) == [PAYLOAD] && SentOn(HalfOf(s'.b, id)) == []
  {
    var r := Record(DATA, id, PAYLOAD);
    RecordRoundTrip(r);
    assert s.toA == [EncodeRecord(r)];
    DeliverIsHandle(s, true);
    assert ReceiveData(NEW_SUB, PAYLOAD).handed == [PAYLOAD];
  }

  /**
   * For every id there is a run in which both ends issued it and its streams are broken: B
   * sends on its own subchannel, A's OPEN replaces B's object, and A is handed the record
   * on the subchannel of its own.
   */
  lemma IdsCollideWhenBothOpen(id: nat) returns (steps: seq<Step>)
    requires 1 <= id < ID_LIMIT
    ensures var s := Run(steps);
            && NoIdWraps(s) && Issued(s, true, id) && Issued(s, false, id)
            && HandedTo(HalfOf(s.a, id)) == [PAYLOAD] && SentOn(HalfOf(s.b, id)) == [] && !StreamsOk(s, id)
  {
    var before := AReceives(id, id + 1);
    steps := before + [Deliver(true)];
    RunThenStep(before, Deliver(true));
    AIsHanded(Run(before), id);
  }

  /** The runs in which exactly these ends have issued the id. */
  predicate IssuedBy(s: Sys, id: nat, byA: bool, byB: bool) {
    NoIdWraps(s) && Issued(s, true, id) == byA && Issued(s, false, id) == byB
  }

  /** The streams of an id are safe in all runs if and only if not both ends have issued it. */
  lemma StreamsAreSafeExactlyUnlessShared(id: nat, byA: bool, byB: bool)
    requires 1 <= id < ID_LIMIT
    ensures (forall steps :: IssuedBy(Run(steps), id, byA, byB) ==> StreamsOk(Run(steps), id)) <==> !(byA && byB)
  {
    if byA && byB {
      var steps := IdsCollideWhenBothOpen(id);
      assert IssuedBy(Run(steps), id, byA, byB) && !StreamsOk(Run(steps), id);
    } else {
      forall steps | IssuedBy(Run(steps), id, byA, byB) ensures StreamsOk(Run(steps), id) {
        SubchannelsKeepTheirStreams(steps, id);
      }
    }
  }
}
