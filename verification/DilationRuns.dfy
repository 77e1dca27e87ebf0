/** Whole dilation runs: either end opens subchannels, and the ids of both start at 1. */
module DilationRuns {
  import opened Bytes
  import opened Dilation

  // ---------- what is on the channel for one subchannel ----------

  /** The records for a subchannel among messages in flight, in order. */
  function Flying(ms: seq<bytes>, id: nat): seq<Record> {
    if ms == [] then [] else RecordOn(ms[0], id) + Flying(ms[1..], id)
  }

  function RecordOn(m: bytes, id: nat): seq<Record> {
    var r := ParseRecord(m);
    if r.Some? && r.value.id == id then [r.value] else []
  }

  lemma {:induction false} FlyingAppend(a: seq<bytes>, b: seq<bytes>, id: nat)
    ensures Flying(a + b, id) == Flying(a, id) + Flying(b, id)
  {
    if a == [] {
      assert a + b == b;
    } else {
      FlyingAppend(a[1..], b, id);
      assert (a + b)[0] == a[0] && (a + b)[1..] == a[1..] + b;
      Associative(RecordOn(a[0], id), Flying(a[1..], id), Flying(b, id));
    }
  }

  /** A sent record is in flight on its own subchannel only. */
  lemma FlyingOfSend(ms: seq<bytes>, r: Record, id: nat)
    requires r.id < ID_LIMIT && r.kind != ACK
    ensures Flying(ms + Wire([r]), id) == if r.id == id then Flying(ms, id) + [r] else Flying(ms, id)
  {
    RecordRoundTrip(r);
    assert [r][1..] == [];
    assert Wire([r]) == [EncodeRecord(r)] + [];
    FlyingAppend(ms, Wire([r]), id);
    assert [EncodeRecord(r)][1..] == [];
    assert [r] + [] == [r];
    assert Flying(ms, id) + [] == Flying(ms, id);
  }

  /** The DATA payloads among records. */
  function Payloads(rs: seq<Record>): seq<bytes> {
    if rs == [] then [] else (if rs[0].kind == DATA then [rs[0].data] else []) + Payloads(rs[1..])
  }

  lemma {:induction false} PayloadsAppend(rs: seq<Record>, r: Record)
    ensures Payloads(rs + [r]) == Payloads(rs) + (if r.kind == DATA then [r.data] else [])
  {
    if rs == [] {
      assert rs + [r] == [r] && [r][1..] == [];
    } else {
      PayloadsAppend(rs[1..], r);
      assert (rs + [r])[1..] == rs[1..] + [r];
    }
  }

  predicate NoOpen(rs: seq<Record>) { forall i :: 0 <= i < |rs| ==> rs[i].kind != OPEN }

  // ---------- the invariant, subchannel by subchannel ----------

  /** One end's object and registration for a subchannel. */
  datatype Half = Half(sub: Option<Sub>, registered: bool)

  /** A subchannel seen from the end that opened it: `up` flies from that end (a) to the other (b), `down` back. */
  datatype View = View(a: Half, b: Half, up: seq<Record>, down: seq<Record>)

  function HalfOf(e: End, id: nat): Half {
    Half(if id in e.subs then Some(e.subs[id]) else None, id in e.registered)
  }

  function ViewOf(s: Sys, id: nat, opener: bool): View {
    if opener then View(HalfOf(s.a, id), HalfOf(s.b, id), Flying(s.toB, id), Flying(s.toA, id))
    else View(HalfOf(s.b, id), HalfOf(s.a, id), Flying(s.toA, id), Flying(s.toB, id))
  }

  /** An end has opened a subchannel under this id ... */
  predicate Issued(s: Sys, side: bool, id: nat) { 1 <= id < Get(s, side).nextId }

  /** ... and the other end has not. */
  predicate Sole(s: Sys, opener: bool, id: nat) { Issued(s, opener, id) && !Issued(s, !opener, id) }

  function SentOn(h: Half): seq<bytes> { if h.sub.Some? then h.sub.value.sent else [] }

  function HandedTo(h: Half): seq<bytes> { if h.sub.Some? then h.sub.value.handed else [] }

  predicate HalfOk(h: Half) {
    (h.registered ==> h.sub.Some?) && (h.sub.Some? ==> SubOk(h.sub.value))
  }

  /** What reached `to` is a prefix of what `from` sent; while `to` is registered the rest is in flight. */
  predicate Stream(from: Half, to: Half, flying: seq<Record>) {
    && HandedTo(to) <= SentOn(from)
    && (to.registered ==> HandedTo(to) + Payloads(flying) == SentOn(from))
  }

  predicate Unused(v: View) {
    v.a == Half(None, false) && v.b == Half(None, false) && v.up == [] && v.down == []
  }

  /** The other end has not seen the OPEN yet: everything sent is behind it. */
  predicate Announced(v: View) {
    && v.up != [] && v.up[0].kind == OPEN && NoOpen(v.up[1..])
    && Payloads(v.up[1..]) == SentOn(v.a)
    && v.b == Half(None, false) && v.down == []
  }

  predicate Arrived(v: View) {
    && NoOpen(v.up) && NoOpen(v.down)
    && Stream(v.a, v.b, v.up)
    && (v.b.sub.None? ==> Payloads(v.down) == [])
  }

  predicate OneWay(v: View) {
    v.a.sub.Some? && (Announced(v) || Arrived(v)) && Stream(v.b, v.a, v.down)
  }

  /** The objects of both ends keep their books, whoever opened what. */
  ghost predicate EndOk(e: End) { forall id :: HalfOk(HalfOf(e, id)) }

  /** An id of no opener is unused, an id of one opener carries its streams; an id of two may carry anything. */
  predicate IdOk(s: Sys, id: nat) {
    && (!Issued(s, true, id) && !Issued(s, false, id) ==> Unused(ViewOf(s, id, true)))
    && (Sole(s, true, id) ==> OneWay(ViewOf(s, id, true)))
    && (Sole(s, false, id) ==> OneWay(ViewOf(s, id, false)))
  }

  /** Fewer than 2^32 subchannels were opened at either end, so no id has wrapped. */
  predicate NoIdWraps(s: Sys) { s.a.nextId <= ID_LIMIT && s.b.nextId <= ID_LIMIT }

  ghost predicate Inv(s: Sys) {
    && EndOk(s.a) && EndOk(s.b) && NoIdWraps(s) && s.a.nextId >= 1 && s.b.nextId >= 1
    && forall id :: IdOk(s, id)
  }

  // ---------- the books of one end ----------

  lemma HandleKeepsBooks(e: End, r: Record)
    requires EndOk(e)
    ensures EndOk(HandleRecord(e, r).end)
  {
    var e' := HandleRecord(e, r).end;
    forall id ensures HalfOk(HalfOf(e', id)) {
      assert HalfOk(HalfOf(e, id));
      if id == r.id && id in e.subs { ReceiveDataOk(e.subs[id], r.data); }
    }
  }

  lemma UseKeepsBooks(e: End, id: nat, u: Use)
    requires EndOk(e)
    ensures EndOk(UseOn(e, id, u).end)
  {
    forall j ensures HalfOk(HalfOf(UseOn(e, id, u).end, j)) {
      assert HalfOk(HalfOf(e, j));
      if j in e.subs { ApplyOk(u, e.subs[j]); }
    }
  }

  lemma SendKeepsBooks(e: End, id: nat, data: bytes)
    requires EndOk(e)
    ensures EndOk(SendData(e, id, data).end) && EndOk(CloseSub(e, id).end) && EndOk(AfterClose(e, id).end)
  {
    forall j ensures HalfOk(HalfOf(SendData(e, id, data).end, j)) { assert HalfOk(HalfOf(e, j)); }
    forall j ensures HalfOk(HalfOf(CloseSub(e, id).end, j)) { assert HalfOk(HalfOf(e, j)); }
    forall j ensures HalfOk(HalfOf(AfterClose(e, id).end, j)) { assert HalfOk(HalfOf(e, j)); }
  }

  lemma OpenKeepsBooks(e: End, protocol: bytes, listeners: set<bytes>)
    requires EndOk(e)
    ensures EndOk(OpenSubchannel(e, protocol).end) && EndOk(SetListeners(e, listeners).end)
  {
    forall j ensures HalfOk(HalfOf(OpenSubchannel(e, protocol).end, j)) { assert HalfOk(HalfOf(e, j)); }
    forall j ensures HalfOk(HalfOf(SetListeners(e, listeners).end, j)) { assert HalfOk(HalfOf(e, j)); }
  }

  lemma StepKeepsBooks(s: Sys, step: Step)
    requires EndOk(s.a) && EndOk(s.b)
    ensures EndOk(Do(s, step).a) && EndOk(Do(s, step).b)
  {
    match step
    case Open(side, protocol) => OpenKeepsBooks(Get(s, side), protocol, {});
    case Listen(side, protocol) => OpenKeepsBooks(Get(s, side), [], Get(s, side).listeners + {protocol});
    case Unlisten(side, protocol) => OpenKeepsBooks(Get(s, side), [], Get(s, side).listeners - {protocol});
    case Send(side, id, data) => SendKeepsBooks(Get(s, side), id, data);
    case Close(side, id) => SendKeepsBooks(Get(s, side), id, []);
    case Closed(side, id) => SendKeepsBooks(Get(s, side), id, []);
    case UseSub(side, id, u) => UseKeepsBooks(Get(s, side), id, u);
    case Deliver(side) =>
      var m := if side then s.toA else s.toB;
      if m != [] && ParseRecord(m[0]).Some? { HandleKeepsBooks(Get(s, side), ParseRecord(m[0]).value); }
  }

  lemma {:induction false} RunKeepsBooks(steps: seq<Step>)
    ensures EndOk(Run(steps).a) && EndOk(Run(steps).b)
    decreases |steps|
  {
    if steps == [] {
    } else {
      RunKeepsBooks(steps[..|steps| - 1]);
      StepKeepsBooks(Run(steps[..|steps| - 1]), steps[|steps| - 1]);
    }
  }

  // ---------- one record sent ----------

  /** An end's step and at most one record, on subchannel id, as seen by subchannel j. */
  lemma ViewAfterPut(s: Sys, side: bool, o: Out, id: nat, j: nat, opener: bool)
    requires id < ID_LIMIT
    requires |o.records| <= 1 && (o.records != [] ==> o.records[0].id == id && o.records[0].kind != ACK)
    ensures var v := ViewOf(s, j, opener); var h := HalfOf(o.end, j); var sent := o.records != [] && j == id;
            ViewOf(Put(s, side, o), j, opener)
            == if side == opener then v.(a := h, up := if sent then v.up + o.records else v.up)
               else v.(b := h, down := if sent then v.down + o.records else v.down)
  {
    if o.records == [] {
      assert s.toA + Wire([]) == s.toA && s.toB + Wire([]) == s.toB;
    } else {
      assert o.records == [o.records[0]];
      FlyingOfSend(s.toB, o.records[0], j);
      FlyingOfSend(s.toA, o.records[0], j);
    }
  }

  /** Every other subchannel is seen as before. */
  lemma Elsewhere(s: Sys, side: bool, o: Out, id: nat, j: nat)
    requires id < ID_LIMIT && j != id && HalfOf(o.end, j) == HalfOf(Get(s, side), j)
    requires |o.records| <= 1 && (o.records != [] ==> o.records[0].id == id && o.records[0].kind != ACK)
    ensures ViewOf(Put(s, side, o), j, true) == ViewOf(s, j, true)
    ensures ViewOf(Put(s, side, o), j, false) == ViewOf(s, j, false)
  {
    ViewAfterPut(s, side, o, id, j, true);
    ViewAfterPut(s, side, o, id, j, false);
  }

  // ---------- steps on one subchannel ----------

  lemma StreamSends(from: Half, to: Half, flying: seq<Record>, from': Half, r: Record)
    requires Stream(from, to, flying) && r.kind == DATA && SentOn(from') == SentOn(from) + [r.data]
    ensures Stream(from', to, flying + [r])
  {
    PayloadsAppend(flying, r);
    Associative(HandedTo(to), Payloads(flying), [r.data]);
  }

  lemma StreamPassesClose(from: Half, to: Half, flying: seq<Record>, r: Record)
    requires Stream(from, to, flying) && r.kind == CLOSE
    ensures Stream(from, to, flying + [r]) && Payloads(flying + [r]) == Payloads(flying)
  {
    PayloadsAppend(flying, r);
    assert Payloads(flying) + [] == Payloads(flying);
  }

  lemma AnnouncedAppends(v: View, r: Record)
    requires Announced(v) && r.kind != OPEN
    ensures (v.up + [r])[0] == v.up[0] && NoOpen((v.up + [r])[1..])
    ensures Payloads((v.up + [r])[1..]) == SentOn(v.a) + (if r.kind == DATA then [r.data] else [])
  {
    PayloadsAppend(v.up[1..], r);
    assert (v.up + [r])[1..] == v.up[1..] + [r];
  }

  lemma SendUpOk(v: View, sub: Sub, r: Record)
    requires OneWay(v) && v.a.sub == Some(sub) && r.kind == DATA
    ensures OneWay(v.(a := v.a.(sub := Some(sub.(sent := sub.sent + [r.data]))), up := v.up + [r]))
  {
    var a := v.a.(sub := Some(sub.(sent := sub.sent + [r.data])));
    var v' := v.(a := a, up := v.up + [r]);
    if Announced(v) {
      AnnouncedAppends(v, r);
      assert Announced(v');
    } else {
      StreamSends(v.a, v.b, v.up, a, r);
      assert Arrived(v');
    }
  }

  lemma SendDownOk(v: View, sub: Sub, r: Record)
    requires OneWay(v) && v.b.sub == Some(sub) && r.kind == DATA
    ensures OneWay(v.(b := v.b.(sub := Some(sub.(sent := sub.sent + [r.data]))), down := v.down + [r]))
  {
    var b := v.b.(sub := Some(sub.(sent := sub.sent + [r.data])));
    StreamSends(v.b, v.a, v.down, b, r);
  }

  lemma CloseUpOk(v: View, sub: Sub, r: Record)
    requires OneWay(v) && v.a.sub == Some(sub) && r.kind == CLOSE
    ensures OneWay(v.(a := v.a.(sub := Some(sub.(isOpen := false))), up := v.up + [r]))
  {
    var v' := v.(a := v.a.(sub := Some(sub.(isOpen := false))), up := v.up + [r]);
    if Announced(v) {
      AnnouncedAppends(v, r);
      assert SentOn(v.a) + [] == SentOn(v.a);
      assert Announced(v');
    } else {
      StreamPassesClose(v.a, v.b, v.up, r);
      assert Arrived(v');
    }
  }

  lemma CloseDownOk(v: View, sub: Sub, r: Record)
    requires OneWay(v) && v.b.sub == Some(sub) && r.kind == CLOSE
    ensures OneWay(v.(b := v.b.(sub := Some(sub.(isOpen := false))), down := v.down + [r]))
  {
    StreamPassesClose(v.b, v.a, v.down, r);
    assert Arrived(v.(b := v.b.(sub := Some(sub.(isOpen := false))), down := v.down + [r]));
  }

  predicate SameStreams(h: Half, h': Half) {
    && h'.registered == h.registered && h'.sub.Some? == h.sub.Some?
    && SentOn(h') == SentOn(h) && HandedTo(h') == HandedTo(h)
  }

  /** An object's handler and reader do not touch the streams. */
  lemma LocalUseOk(v: View, a: Half, b: Half)
    requires OneWay(v) && SameStreams(v.a, a) && SameStreams(v.b, b) && (v.b.sub.None? ==> b == v.b)
    ensures OneWay(v.(a := a, b := b))
  {
  }

  // ---------- delivery ----------

  function After(h: Half, r: Record): Half {
    if !h.registered || h.sub.None? then h
    else if r.kind == DATA then h.(sub := Some(ReceiveData(h.sub.value, r.data)))
    else if r.kind == CLOSE then Half(Some(h.sub.value.(isOpen := false)), false)
    else h
  }

  lemma StreamDeliversData(from: Half, to: Half, flying: seq<Record>)
    requires Stream(from, to, flying) && flying != [] && flying[0].kind == DATA && to.registered && to.sub.Some?
    ensures Stream(from, After(to, flying[0]), flying[1..])
  {
    var r := flying[0];
    Associative(HandedTo(to), [r.data], Payloads(flying[1..]));
  }

  lemma StreamDelivers(from: Half, to: Half, flying: seq<Record>)
    requires (to.registered ==> to.sub.Some?) && Stream(from, to, flying) && flying != []
    ensures Stream(from, After(to, flying[0]), flying[1..])
  {
    if to.registered && flying[0].kind == DATA {
      StreamDeliversData(from, to, flying);
    } else if to.registered {
      assert [] + Payloads(flying[1..]) == Payloads(flying[1..]);
      assert HandedTo(After(to, flying[0])) == HandedTo(to);
    }
  }

  lemma PayloadsOfNone(rs: seq<Record>)
    requires rs != []
    ensures Payloads(rs) == [] ==> Payloads(rs[1..]) == []
  {
  }

  lemma DeliverDownOk(v: View)
    requires OneWay(v) && v.down != []
    ensures OneWay(v.(a := After(v.a, v.down[0]), down := v.down[1..]))
  {
    var a, down := After(v.a, v.down[0]), v.down[1..];
    StreamDelivers(v.b, v.a, v.down);
    assert Arrived(v);
    assert SentOn(a) == SentOn(v.a);
    PayloadsOfNone(v.down);
    assert Arrived(v.(a := a, down := down));
  }

  lemma DeliverUpOk(v: View)
    requires OneWay(v) && v.up != [] && v.up[0].kind != OPEN && (v.b.registered ==> v.b.sub.Some?)
    ensures OneWay(v.(b := After(v.b, v.up[0]), up := v.up[1..]))
  {
    var b, up := After(v.b, v.up[0]), v.up[1..];
    StreamDelivers(v.a, v.b, v.up);
    assert Arrived(v);
    assert SentOn(b) == SentOn(v.b);
    assert Arrived(v.(b := b, up := up));
  }

  /** The OPEN arrives: with a listener a fresh object is registered, without one a CLOSE goes back. */
  lemma DeliverOpenOk(v: View, r: Record)
    requires OneWay(v) && v.up != [] && v.up[0].kind == OPEN && r.kind == CLOSE
    ensures OneWay(v.(b := Half(Some(NEW_SUB), true), up := v.up[1..]))
    ensures OneWay(v.(up := v.up[1..], down := v.down + [r]))
  {
    assert Announced(v);
    assert [] + Payloads(v.up[1..]) == Payloads(v.up[1..]);
    PayloadsAppend(v.down, r);
    var closed := v.(up := v.up[1..], down := v.down + [r]);
    assert Arrived(closed);
  }

  // ---------- steps of a run ----------

  /** Whoever holds an object for an id, one of the two ends issued it. */
  lemma HeldIsIssued(s: Sys, side: bool, id: nat)
    requires IdOk(s, id) && HalfOf(Get(s, side), id).sub.Some?
    ensures Issued(s, true, id) || Issued(s, false, id)
  {
  }

  lemma NothingSent(s: Sys, side: bool, e: End)
    requires e == Get(s, side)
    ensures Put(s, side, Out(e, [])) == s
  {
    assert s.toA + Wire([]) == s.toA && s.toB + Wire([]) == s.toB;
  }

  /** A step that leaves both views of a subchannel and the numbering alone keeps it in order. */
  lemma SameViewsOk(s: Sys, s': Sys, j: nat)
    requires IdOk(s, j) && ViewOf(s', j, true) == ViewOf(s, j, true) && ViewOf(s', j, false) == ViewOf(s, j, false)
    requires Issued(s', true, j) == Issued(s, true, j) && Issued(s', false, j) == Issued(s, false, j)
    ensures IdOk(s', j)
  {
  }

  /** A subchannel with one opener, seen from it, decides. */
  lemma SoleDecides(s: Sys, s': Sys, j: nat)
    requires Issued(s, true, j) || Issued(s, false, j)
    requires Issued(s', true, j) == Issued(s, true, j) && Issued(s', false, j) == Issued(s, false, j)
    requires forall opener :: Sole(s, opener, j) ==> OneWay(ViewOf(s', j, opener))
    ensures IdOk(s', j)
  {
  }

  lemma OpenElsewhere(s: Sys, side: bool, protocol: bytes, j: nat)
    requires Inv(s) && Get(s, side).nextId < ID_LIMIT && j != Get(s, side).nextId
    ensures IdOk(Do(s, Open(side, protocol)), j)
  {
    var e := Get(s, side);
    assert IdOk(s, j);
    Elsewhere(s, side, OpenSubchannel(e, protocol), e.nextId, j);
    SameViewsOk(s, Do(s, Open(side, protocol)), j);
  }

  /** A fresh id is announced; under an id of the other end nothing is promised from now on. */
  lemma OpenOwn(s: Sys, side: bool, protocol: bytes)
    requires Inv(s) && Get(s, side).nextId < ID_LIMIT
    ensures IdOk(Do(s, Open(side, protocol)), Get(s, side).nextId)
  {
    var id := Get(s, side).nextId;
    var r, s' := Record(OPEN, id, protocol), Do(s, Open(side, protocol));
    assert IdOk(s, id) && Issued(s', side, id);
    if !Issued(s, !side, id) {
      ViewAfterPut(s, side, OpenSubchannel(Get(s, side), protocol), id, id, side);
      assert [] + [r] == [r];
      assert ViewOf(s', id, side) == View(Half(Some(NEW_SUB), true), Half(None, false), [r], []);
      assert Announced(ViewOf(s', id, side));
    }
  }

  lemma SetListenersKeeps(s: Sys, side: bool, listeners: set<bytes>, j: nat)
    requires Inv(s)
    ensures IdOk(Put(s, side, SetListeners(Get(s, side), listeners)), j)
  {
    assert IdOk(s, j);
    ViewAfterPut(s, side, SetListeners(Get(s, side), listeners), 0, j, true);
    ViewAfterPut(s, side, SetListeners(Get(s, side), listeners), 0, j, false);
    SameViewsOk(s, Put(s, side, SetListeners(Get(s, side), listeners)), j);
  }

  /** Sending and closing, as seen by their own subchannel. */
  lemma SendOwn(s: Sys, side: bool, id: nat, data: bytes, opener: bool)
    requires id < ID_LIMIT && id in Get(s, side).subs && Get(s, side).subs[id].isOpen && OneWay(ViewOf(s, id, opener))
    ensures OneWay(ViewOf(Do(s, Send(side, id, data)), id, opener))
  {
    var e := Get(s, side);
    ViewAfterPut(s, side, SendData(e, id, data), id, id, opener);
    if side == opener {
      SendUpOk(ViewOf(s, id, opener), e.subs[id], Record(DATA, id, data));
    } else {
      SendDownOk(ViewOf(s, id, opener), e.subs[id], Record(DATA, id, data));
    }
  }

  lemma CloseOwn(s: Sys, side: bool, id: nat, opener: bool)
    requires id < ID_LIMIT && id in Get(s, side).subs && Get(s, side).subs[id].isOpen && OneWay(ViewOf(s, id, opener))
    ensures OneWay(ViewOf(Do(s, Close(side, id)), id, opener))
  {
    var e := Get(s, side);
    ViewAfterPut(s, side, CloseSub(e, id), id, id, opener);
    if side == opener {
      CloseUpOk(ViewOf(s, id, opener), e.subs[id], Record(CLOSE, id, [0]));
    } else {
      CloseDownOk(ViewOf(s, id, opener), e.subs[id], Record(CLOSE, id, [0]));
    }
  }

  lemma HeldIdFits(s: Sys, side: bool, id: nat)
    requires Inv(s) && id in Get(s, side).subs
    ensures id < ID_LIMIT && (Issued(s, true, id) || Issued(s, false, id))
  {
    assert IdOk(s, id);
    HeldIsIssued(s, side, id);
  }

  lemma SendKeeps(s: Sys, side: bool, id: nat, data: bytes, j: nat)
    requires Inv(s)
    ensures IdOk(Do(s, Send(side, id, data)), j)
  {
    var e, s' := Get(s, side), Do(s, Send(side, id, data));
    assert IdOk(s, j);
    if id !in e.subs || !e.subs[id].isOpen {
      NothingSent(s, side, e);
    } else {
      HeldIdFits(s, side, id);
      if j != id {
        Elsewhere(s, side, SendData(e, id, data), id, j);
        SameViewsOk(s, s', j);
      } else {
        forall opener | Sole(s, opener, j) ensures OneWay(ViewOf(s', j, opener)) { SendOwn(s, side, id, data, opener); }
        SoleDecides(s, s', j);
      }
    }
  }

  lemma CloseKeeps(s: Sys, side: bool, id: nat, j: nat)
    requires Inv(s)
    ensures IdOk(Do(s, Close(side, id)), j)
  {
    var e, s' := Get(s, side), Do(s, Close(side, id));
    assert IdOk(s, j);
    if id !in e.subs || !e.subs[id].isOpen {
      NothingSent(s, side, e);
    } else {
      HeldIdFits(s, side, id);
      if j != id {
        Elsewhere(s, side, CloseSub(e, id), id, j);
        SameViewsOk(s, s', j);
      } else {
        forall opener | Sole(s, opener, j) ensures OneWay(ViewOf(s', j, opener)) { CloseOwn(s, side, id, opener); }
        SoleDecides(s, s', j);
      }
    }
  }

  /** Leaving the manager's map stops the stream where it is. */
  lemma UnregisterOk(v: View)
    requires OneWay(v)
    ensures OneWay(v.(a := v.a.(registered := false))) && OneWay(v.(b := v.b.(registered := false)))
  {
  }

  lemma ClosedOwn(s: Sys, side: bool, id: nat, j: nat, opener: bool)
    requires OneWay(ViewOf(s, j, opener))
    ensures OneWay(ViewOf(Do(s, Closed(side, id)), j, opener))
  {
    ViewAfterClosed(s, side, id, j, opener);
    UnregisterOk(ViewOf(s, j, opener));
  }

  lemma ViewAfterClosed(s: Sys, side: bool, id: nat, j: nat, opener: bool)
    ensures var v, v' := ViewOf(s, j, opener), ViewOf(Do(s, Closed(side, id)), j, opener);
            || v' == v
            || v' == if side == opener then v.(a := v.a.(registered := false)) else v.(b := v.b.(registered := false))
  {
    ViewAfterPut(s, side, AfterClose(Get(s, side), id), 0, j, opener);
  }

  lemma ClosedKeeps(s: Sys, side: bool, id: nat, j: nat)
    requires Inv(s)
    ensures IdOk(Do(s, Closed(side, id)), j)
  {
    var s' := Do(s, Closed(side, id));
    assert IdOk(s, j);
    ViewAfterPut(s, side, AfterClose(Get(s, side), id), 0, j, true);
    if Issued(s, true, j) || Issued(s, false, j) {
      forall opener | Sole(s, opener, j) ensures OneWay(ViewOf(s', j, opener)) { ClosedOwn(s, side, id, j, opener); }
      SoleDecides(s, s', j);
    }
  }

  /** Setting a handler and reading from the buffer. */
  lemma HalfAfterUse(e: End, id: nat, u: Use, j: nat)
    requires HalfOk(HalfOf(e, j))
    ensures var h, h' := HalfOf(e, j), HalfOf(UseOn(e, id, u).end, j);
            SameStreams(h, h') && (h.sub.None? ==> h' == h)
  {
    if j in e.subs { ApplyOk(u, e.subs[j]); }
  }

  lemma ViewAfterUse(s: Sys, side: bool, id: nat, u: Use, j: nat, opener: bool)
    requires EndOk(Get(s, side))
    ensures var v, v' := ViewOf(s, j, opener), ViewOf(Do(s, UseSub(side, id, u)), j, opener);
            && SameStreams(v.a, v'.a) && SameStreams(v.b, v'.b) && (v.b.sub.None? ==> v'.b == v.b)
            && v' == v.(a := v'.a, b := v'.b)
  {
    assert HalfOk(HalfOf(Get(s, side), j));
    HalfAfterUse(Get(s, side), id, u, j);
    ViewAfterPut(s, side, UseOn(Get(s, side), id, u), 0, j, opener);
  }

  lemma UseOwn(s: Sys, side: bool, id: nat, u: Use, j: nat, opener: bool)
    requires EndOk(Get(s, side)) && OneWay(ViewOf(s, j, opener))
    ensures OneWay(ViewOf(Do(s, UseSub(side, id, u)), j, opener))
  {
    var v' := ViewOf(Do(s, UseSub(side, id, u)), j, opener);
    ViewAfterUse(s, side, id, u, j, opener);
    LocalUseOk(ViewOf(s, j, opener), v'.a, v'.b);
  }

  lemma UseKeeps(s: Sys, side: bool, id: nat, u: Use, j: nat)
    requires Inv(s)
    ensures IdOk(Do(s, UseSub(side, id, u)), j)
  {
    var s' := Do(s, UseSub(side, id, u));
    assert IdOk(s, j);
    ViewAfterPut(s, side, UseOn(Get(s, side), id, u), 0, j, true);
    if Issued(s, true, j) || Issued(s, false, j) {
      forall opener | Sole(s, opener, j) ensures OneWay(ViewOf(s', j, opener)) { UseOwn(s, side, id, u, j, opener); }
      SoleDecides(s, s', j);
    }
  }

  lemma FlyingHead(ms: seq<bytes>, id: nat)
    requires ms != []
    ensures match ParseRecord(ms[0])
            case None => Flying(ms, id) == Flying(ms[1..], id)
            case Some(r) => Flying(ms, id) == if r.id == id then [r] + Flying(ms[1..], id) else Flying(ms[1..], id)
  {
    assert [] + Flying(ms[1..], id) == Flying(ms[1..], id);
  }

  lemma ParsedIdFits(m: bytes)
    ensures ParseRecord(m).Some? ==> ParseRecord(m).value.id < ID_LIMIT
  {
    if ParseRecord(m).Some? {
      Pow256Values();
      ValueBEBound(m[1..5]);
    }
  }

  /** Handling a record changes its own subchannel's half, and only an OPEN may be answered. */
  lemma HandleIsAfter(e: End, r: Record, j: nat)
    requires r.kind != OPEN
    ensures var o := HandleRecord(e, r);
            o.records == [] && o.end.nextId == e.nextId
            && HalfOf(o.end, j) == if j == r.id then After(HalfOf(e, j), r) else HalfOf(e, j)
  {
  }

  lemma HandleOpen(e: End, r: Record, j: nat)
    requires r.kind == OPEN
    ensures var o := HandleRecord(e, r);
            && o.end.nextId == e.nextId
            && if r.data in e.listeners
               then o.records == [] && HalfOf(o.end, j) == if j == r.id then Half(Some(NEW_SUB), true) else HalfOf(e, j)
               else o.records == [Record(CLOSE, r.id, [0])] && o.end == e
  {
  }

  /** What is on its way to an end, and the system without the first of it. */
  function Incoming(s: Sys, side: bool): seq<bytes> { if side then s.toA else s.toB }

  function Popped(s: Sys, side: bool): Sys
    requires Incoming(s, side) != []
  {
    if side then s.(toA := s.toA[1..]) else s.(toB := s.toB[1..])
  }

  lemma DeliverIsHandle(s: Sys, side: bool)
    requires Incoming(s, side) != []
    ensures Do(s, Deliver(side))
         == match ParseRecord(Incoming(s, side)[0])
            case None => Popped(s, side)
            case Some(r) => Put(Popped(s, side), side, HandleRecord(Get(s, side), r))
  {
  }

  /** Taking a message off the channel only shows on the subchannel of its record. */
  lemma ViewOfPopped(s: Sys, side: bool, j: nat, opener: bool)
    requires Incoming(s, side) != []
    ensures var v, v' := ViewOf(s, j, opener), ViewOf(Popped(s, side), j, opener);
            var p := ParseRecord(Incoming(s, side)[0]);
            if p.None? || p.value.id != j then v' == v
            else if side == opener then v.down != [] && v.down[0] == p.value && v' == v.(down := v.down[1..])
            else v.up != [] && v.up[0] == p.value && v' == v.(up := v.up[1..])
  {
    FlyingHead(Incoming(s, side), j);
  }

  lemma DeliverElsewhere(s: Sys, side: bool, r: Record, j: nat)
    requires Incoming(s, side) != [] && ParseRecord(Incoming(s, side)[0]) == Some(r) && j != r.id && IdOk(s, j)
    ensures IdOk(Do(s, Deliver(side)), j)
  {
    var s1, o := Popped(s, side), HandleRecord(Get(s, side), r);
    DeliverIsHandle(s, side);
    ParsedIdFits(Incoming(s, side)[0]);
    ViewOfPopped(s, side, j, true);
    ViewOfPopped(s, side, j, false);
    if r.kind == OPEN { HandleOpen(Get(s, side), r, j); } else { HandleIsAfter(Get(s, side), r, j); }
    Elsewhere(s1, side, o, r.id, j);
    SameViewsOk(s, Do(s, Deliver(side)), j);
  }

  /** An OPEN only ever reaches the end that did not send it. */
  lemma DeliverOpenOwn(s: Sys, side: bool, r: Record, opener: bool)
    requires Incoming(s, side) != [] && ParseRecord(Incoming(s, side)[0]) == Some(r) && r.kind == OPEN
    requires OneWay(ViewOf(s, r.id, opener))
    ensures OneWay(ViewOf(Do(s, Deliver(side)), r.id, opener))
  {
    var v := ViewOf(s, r.id, opener);
    DeliverIsHandle(s, side);
    ParsedIdFits(Incoming(s, side)[0]);
    ViewOfPopped(s, side, r.id, opener);
    HandleOpen(Get(s, side), r, r.id);
    ViewAfterPut(Popped(s, side), side, HandleRecord(Get(s, side), r), r.id, r.id, opener);
    if side == opener {
      assert false;
    } else {
      DeliverOpenOk(v, Record(CLOSE, r.id, [0]));
    }
  }

  lemma DeliverOtherOwn(s: Sys, side: bool, r: Record, opener: bool)
    requires Incoming(s, side) != [] && ParseRecord(Incoming(s, side)[0]) == Some(r) && r.kind != OPEN
    requires OneWay(ViewOf(s, r.id, opener)) && HalfOk(HalfOf(Get(s, side), r.id))
    ensures OneWay(ViewOf(Do(s, Deliver(side)), r.id, opener))
  {
    var v := ViewOf(s, r.id, opener);
    DeliverIsHandle(s, side);
    ViewOfPopped(s, side, r.id, opener);
    HandleIsAfter(Get(s, side), r, r.id);
    ViewAfterPut(Popped(s, side), side, HandleRecord(Get(s, side), r), 0, r.id, opener);
    if side == opener { DeliverDownOk(v); } else { DeliverUpOk(v); }
  }

  /** What is in flight is in flight on an issued subchannel. */
  lemma FlyingIsIssued(s: Sys, side: bool, r: Record)
    requires Incoming(s, side) != [] && ParseRecord(Incoming(s, side)[0]) == Some(r) && IdOk(s, r.id)
    ensures Issued(s, true, r.id) || Issued(s, false, r.id)
  {
    ViewOfPopped(s, side, r.id, true);
  }

  lemma DeliverKeeps(s: Sys, side: bool, j: nat)
    requires Inv(s)
    ensures IdOk(Do(s, Deliver(side)), j)
  {
    var s' := Do(s, Deliver(side));
    assert IdOk(s, j);
    if Incoming(s, side) != [] {
      DeliverIsHandle(s, side);
      var p := ParseRecord(Incoming(s, side)[0]);
      if p.None? {
        ViewOfPopped(s, side, j, true);
        ViewOfPopped(s, side, j, false);
        SameViewsOk(s, s', j);
      } else if p.value.id != j {
        DeliverElsewhere(s, side, p.value, j);
      } else {
        DeliverOwn(s, side, p.value);
      }
    }
  }

  lemma DeliverOwn(s: Sys, side: bool, r: Record)
    requires Inv(s) && Incoming(s, side) != [] && ParseRecord(Incoming(s, side)[0]) == Some(r)
    ensures IdOk(Do(s, Deliver(side)), r.id)
  {
    var s' := Do(s, Deliver(side));
    assert IdOk(s, r.id) && HalfOk(HalfOf(Get(s, side), r.id));
    FlyingIsIssued(s, side, r);
    DeliverKeepsNumbers(s, side);
    forall opener | Sole(s, opener, r.id) ensures OneWay(ViewOf(s', r.id, opener)) {
      if r.kind == OPEN { DeliverOpenOwn(s, side, r, opener); } else { DeliverOtherOwn(s, side, r, opener); }
    }
    SoleDecides(s, s', r.id);
  }

  lemma DeliverKeepsNumbers(s: Sys, side: bool)
    ensures var s' := Do(s, Deliver(side)); s'.a.nextId == s.a.nextId && s'.b.nextId == s.b.nextId
  {
  }

  lemma StepKeepsIds(s: Sys, step: Step, j: nat)
    requires Inv(s) && NoIdWraps(Do(s, step))
    ensures IdOk(Do(s, step), j)
  {
    match step
    case Open(side, protocol) =>
      if j == Get(s, side).nextId { OpenOwn(s, side, protocol); } else { OpenElsewhere(s, side, protocol, j); }
    case Listen(side, protocol) => SetListenersKeeps(s, side, Get(s, side).listeners + {protocol}, j);
    case Unlisten(side, protocol) => SetListenersKeeps(s, side, Get(s, side).listeners - {protocol}, j);
    case Send(side, id, data) => SendKeeps(s, side, id, data, j);
    case Close(side, id) => CloseKeeps(s, side, id, j);
    case Closed(side, id) => ClosedKeeps(s, side, id, j);
    case UseSub(side, id, u) => UseKeeps(s, side, id, u, j);
    case Deliver(side) => DeliverKeeps(s, side, j);
  }

  lemma NextIdGrows(s: Sys, step: Step)
    ensures Do(s, step).a.nextId >= s.a.nextId && Do(s, step).b.nextId >= s.b.nextId
  {
  }

  lemma {:induction false} RunKeeps(steps: seq<Step>)
    requires NoIdWraps(Run(steps))
    ensures Inv(Run(steps))
    decreases |steps|
  {
    RunKeepsBooks(steps);
    if steps == [] {
    } else {
      var before, step := steps[..|steps| - 1], steps[|steps| - 1];
      NextIdGrows(Run(before), step);
      RunKeeps(before);
      forall id ensures IdOk(Run(steps), id) { StepKeepsIds(Run(before), step, id); }
    }
  }

  // ---------- the theorems ----------

  /** Both directions of a subchannel: a prefix is handed on, the rest in flight while the receiver is registered. */
  predicate StreamsOk(s: Sys, id: nat) {
    && Stream(HalfOf(s.a, id), HalfOf(s.b, id), Flying(s.toB, id))
    && Stream(HalfOf(s.b, id), HalfOf(s.a, id), Flying(s.toA, id))
  }

  /**
   * In every run in which no id wraps, and for every id that at most one end has issued: the
   * records handed to the subchannel at either end are a prefix, in order, of those sent on
   * it at the other end, with the rest in flight while it is registered.
   */
  lemma SubchannelsKeepTheirStreams(steps: seq<Step>, id: nat)
    requires NoIdWraps(Run(steps)) && !(Issued(Run(steps), true, id) && Issued(Run(steps), false, id))
    ensures StreamsOk(Run(steps), id)
  {
    RunKeeps(steps);
    var s := Run(steps);
    assert IdOk(s, id);
    if Issued(s, true, id) || Issued(s, false, id) {
      OneWayStreams(ViewOf(s, id, Issued(s, true, id)));
    }
  }

  lemma OneWayStreams(v: View)
    requires OneWay(v)
    ensures Stream(v.a, v.b, v.up) && Stream(v.b, v.a, v.down)
  {
  }

  /** In every run each end's counter is what it handed on, read and still buffers, whoever opened what. */
  lemma CountersAddUp(steps: seq<Step>, side: bool, id: nat)
    requires id in Get(Run(steps), side).subs
    ensures SubOk(Get(Run(steps), side).subs[id])
  {
    RunKeepsBooks(steps);
    assert HalfOk(HalfOf(Get(Run(steps), side), id));
  }
}
