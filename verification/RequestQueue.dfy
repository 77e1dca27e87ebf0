/**
 * Undilated requests in the browser extension: per address, each call chains its
 * request behind the tail promise and becomes the new tail.  A request takes the
 * wormhole's next send phase, then its next receive phase.
 */
module RequestQueue {
  import opened Bytes

  datatype Status =
    | Chained
    | Sending(tx: nat)
    | Receiving(tx: nat, rx: nat)
    | SendRejected(tx: nat)
    | Settled(tx: nat, rx: nat, ok: bool)

  /** `previous` is the request whose settling starts this one; the first in a queue starts at once. */
  datatype Request = Request(address: bytes, previous: Option<nat>, status: Status)

  /** `tails` is `requestQueues`; `tx`, `rx` are the phase counters of each address's wormhole. */
  datatype Queues = Queues(requests: seq<Request>, tails: map<bytes, nat>, tx: map<bytes, nat>, rx: map<bytes, nat>)

  /** A receive settles well or badly: the peer's reply, a timeout, or a reply that does not parse. */
  datatype Step =
    | Call(address: bytes)
    | Begin(i: nat)
    | SendEnds(i: nat, ok: bool)
    | ReceiveEnds(i: nat, ok: bool)

  const EMPTY := Queues([], map[], map[], map[])

  function Counter(m: map<bytes, nat>, address: bytes): nat { if address in m then m[address] else 0 }

  predicate Done(r: Request) { r.status.SendRejected? || r.status.Settled? }

  /** The tail promise never rejects, so settling either way starts the next request. */
  predicate MayBegin(q: Queues, i: nat) {
    i < |q.requests| && q.requests[i].status.Chained? &&
    var p := q.requests[i].previous; p.None? || (p.value < |q.requests| && Done(q.requests[p.value]))
  }

  function SetStatus(q: Queues, i: nat, status: Status): Queues
    requires i < |q.requests|
  {
    q.(requests := q.requests[i := q.requests[i].(status := status)])
  }

  function DoCall(q: Queues, address: bytes): Queues {
    var previous := if address in q.tails then Some(q.tails[address]) else None;
    q.(requests := q.requests + [Request(address, previous, Chained)], tails := q.tails[address := |q.requests|])
  }

  function DoBegin(q: Queues, i: nat): Queues
    requires i < |q.requests|
  {
    var a := q.requests[i].address;
    SetStatus(q, i, Sending(Counter(q.tx, a))).(tx := q.tx[a := Counter(q.tx, a) + 1])
  }

  function DoSendEnds(q: Queues, i: nat, ok: bool): Queues
    requires i < |q.requests| && q.requests[i].status.Sending?
  {
    var a, tx := q.requests[i].address, q.requests[i].status.tx;
    if ok then SetStatus(q, i, Receiving(tx, Counter(q.rx, a))).(rx := q.rx[a := Counter(q.rx, a) + 1])
    else SetStatus(q, i, SendRejected(tx))
  }

  function Do(q: Queues, step: Step): Queues {
    match step
    case Call(address) => DoCall(q, address)
    case Begin(i) => if MayBegin(q, i) then DoBegin(q, i) else q
    case SendEnds(i, ok) =>
      if i < |q.requests| && q.requests[i].status.Sending? then DoSendEnds(q, i, ok) else q
    case ReceiveEnds(i, ok) =>
      if i < |q.requests| && q.requests[i].status.Receiving?
      then SetStatus(q, i, Settled(q.requests[i].status.tx, q.requests[i].status.rx, ok)) else q
  }

  function Run(steps: seq<Step>): Queues {
    if steps == [] then EMPTY else Do(Run(steps[..|steps| - 1]), steps[|steps| - 1])
  }

  /** The tail of an address is its last call so far. */
  predicate TailIsLast(rs: seq<Request>, tails: map<bytes, nat>, address: bytes) {
    if address in tails then LastCall(rs, |rs|, address, Some(tails[address])) else LastCall(rs, |rs|, address, None)
  }

  /** Among the first n calls, p is the last one to the address, if there is any. */
  predicate LastCall(rs: seq<Request>, n: nat, address: bytes, p: Option<nat>)
    requires n <= |rs|
  {
    match p
    case None => forall j :: 0 <= j < n ==> rs[j].address != address
    case Some(i) => i < n && rs[i].address == address && forall j :: i < j < n ==> rs[j].address != address
  }

  /** The map of tails, as the extension keeps it, and the calls made so far. */
  class RequestQueues {
    var requests: seq<Request>
    var tails: map<bytes, nat>

    ghost predicate Valid()
      reads this
    {
      forall a :: TailIsLast(requests, tails, a)
    }

    constructor ()
      ensures Valid() && requests == [] && tails == map[]
    {
      requests, tails := [], map[];
    }

    /** `getRequestQueue`: None is the resolved promise of a new queue. */
    method GetRequestQueue(address: bytes) returns (tail: Option<nat>)
      requires Valid()
      ensures LastCall(requests, |requests|, address, tail)
    {
      assert TailIsLast(requests, tails, address);
      tail := if address in tails then Some(tails[address]) else None;
    }

    /** The new call waits for the last earlier call to its address, and no other queue is touched. */
    method Fetch(address: bytes) returns (i: nat)
      requires Valid()
      modifies this
      ensures Valid() && i == |old(requests)| == |requests| - 1 && requests[..i] == old(requests)
      ensures requests[i].address == address && requests[i].status == Chained
      ensures LastCall(requests, i, address, requests[i].previous)
      ensures address in tails && tails - {address} == old(tails) - {address}
      ensures Queues(requests, tails, map[], map[]) == DoCall(Queues(old(requests), old(tails), map[], map[]), address)
    {
      var previous := GetRequestQueue(address);
      assert TailIsLast(requests, tails, address);
      i := |requests|;
      requests := requests + [Request(address, previous, Chained)];
      tails := tails[address := i];
      assert forall a :: a != address ==> old(TailIsLast(requests, tails, a)) ==> TailIsLast(requests, tails, a);
    }
  }

  // ---------- counting along a queue ----------

  /** Requests to an address among the first n that have begun ... */
  function Begun(rs: seq<Request>, address: bytes, n: nat): nat
    requires n <= |rs|
  {
    if n == 0 then 0
    else Begun(rs, address, n - 1) + (if rs[n - 1].address == address && !rs[n - 1].status.Chained? then 1 else 0)
  }

  /** ... those whose send was rejected ... */
  function Rejected(rs: seq<Request>, address: bytes, n: nat): nat
    requires n <= |rs|
  {
    if n == 0 then 0
    else
      Rejected(rs, address, n - 1)
      + (if rs[n - 1].address == address && rs[n - 1].status.SendRejected? then 1 else 0)
  }

  /** ... and all of them. */
  function Calls(rs: seq<Request>, address: bytes, n: nat): nat
    requires n <= |rs|
  {
    if n == 0 then 0 else Calls(rs, address, n - 1) + (if rs[n - 1].address == address then 1 else 0)
  }

  /** The last request before position n to an address. */
  function Last(rs: seq<Request>, address: bytes, n: nat): Option<nat>
    requires n <= |rs|
  {
    if n == 0 then None else if rs[n - 1].address == address then Some(n - 1) else Last(rs, address, n - 1)
  }

  // ---------- the invariant ----------

  /** Behind a request of the same address that is not done, nothing has begun. */
  predicate InOrder(rs: seq<Request>) {
    forall i, j :: 0 <= i < j < |rs| && rs[i].address == rs[j].address && !rs[j].status.Chained? ==> Done(rs[i])
  }

  ghost predicate Linked(q: Queues) {
    && (forall i :: 0 <= i < |q.requests| ==> q.requests[i].previous == Last(q.requests, q.requests[i].address, i))
    && (forall a :: Last(q.requests, a, |q.requests|) == if a in q.tails then Some(q.tails[a]) else None)
  }

  /** Send phases count calls; receive phases count calls less rejected sends. */
  predicate PhaseOk(rs: seq<Request>, i: nat)
    requires i < |rs|
  {
    var r := rs[i];
    var tx := Calls(rs, r.address, i);
    var rx := Calls(rs, r.address, i) - Rejected(rs, r.address, i);
    match r.status
    case Chained => true
    case Sending(t) => t == tx
    case SendRejected(t) => t == tx
    case Receiving(t, x) => t == tx && x == rx
    case Settled(t, x, _) => t == tx && x == rx
  }

  ghost predicate Inv(q: Queues) {
    && Linked(q) && InOrder(q.requests)
    && (forall i :: 0 <= i < |q.requests| ==> PhaseOk(q.requests, i))
    && (forall a :: Counter(q.tx, a) == Begun(q.requests, a, |q.requests|))
    && (forall a :: Counter(q.rx, a) == Received(q.requests, a, |q.requests|))
  }

  predicate TookReceivePhase(status: Status) { status.Receiving? || status.Settled? }

  /** Requests that have taken a receive phase. */
  function Received(rs: seq<Request>, address: bytes, n: nat): nat
    requires n <= |rs|
  {
    if n == 0 then 0
    else
      Received(rs, address, n - 1)
      + (if rs[n - 1].address == address && TookReceivePhase(rs[n - 1].status) then 1 else 0)
  }

  // ---------- what a change of status does to the counts ----------

  lemma {:induction false} CountsAfter(rs: seq<Request>, i: nat, status: Status, address: bytes, n: nat)
    requires i < |rs| && n <= |rs|
    ensures var rs' := rs[i := rs[i].(status := status)]; var on := i < n && rs[i].address == address;
            && Calls(rs', address, n) == Calls(rs, address, n)
            && Last(rs', address, n) == Last(rs, address, n)
            && Begun(rs', address, n) == Begun(rs, address, n)
                 + (if on then (if status.Chained? then 0 else 1) - (if rs[i].status.Chained? then 0 else 1) else 0)
            && Rejected(rs', address, n) == Rejected(rs, address, n)
                 + (if on then (if status.SendRejected? then 1 else 0)
                           - (if rs[i].status.SendRejected? then 1 else 0) else 0)
            && Received(rs', address, n) == Received(rs, address, n)
                 + (if on then (if TookReceivePhase(status) then 1 else 0)
                           - (if TookReceivePhase(rs[i].status) then 1 else 0) else 0)
    decreases n
  {
    if n == 0 {
    } else {
      CountsAfter(rs, i, status, address, n - 1);
    }
  }

  lemma {:induction false} CountsOfPrefix(rs: seq<Request>, r: Request, address: bytes, n: nat)
    requires n <= |rs|
    ensures var rs' := rs + [r];
            && Calls(rs', address, n) == Calls(rs, address, n) && Last(rs', address, n) == Last(rs, address, n)
            && Begun(rs', address, n) == Begun(rs, address, n) && Rejected(rs', address, n) == Rejected(rs, address, n)
            && Received(rs', address, n) == Received(rs, address, n)
    decreases n
  {
    if n == 0 {
    } else {
      CountsOfPrefix(rs, r, address, n - 1);
    }
  }

  /** When request i is next in its queue, every earlier call has begun and is done, and no later one has begun. */
  lemma {:induction false} FrontOfQueue(rs: seq<Request>, i: nat, n: nat)
    requires n <= i < |rs|
    requires forall j :: 0 <= j < i && rs[j].address == rs[i].address ==> Done(rs[j])
    ensures var a := rs[i].address;
            Begun(rs, a, n) == Calls(rs, a, n) && Received(rs, a, n) == Calls(rs, a, n) - Rejected(rs, a, n)
    decreases n
  {
    if n == 0 {
    } else {
      FrontOfQueue(rs, i, n - 1);
    }
  }

  lemma {:induction false} NothingBehind(rs: seq<Request>, i: nat, n: nat)
    requires i < n <= |rs|
    requires forall j :: i < j < |rs| && rs[j].address == rs[i].address ==> rs[j].status.Chained?
    ensures var a := rs[i].address;
            Begun(rs, a, n) == Begun(rs, a, i + 1) && Received(rs, a, n) == Received(rs, a, i + 1)
    decreases n
  {
    if n > i + 1 {
      NothingBehind(rs, i, n - 1);
    }
  }

  /** The last earlier request of the queue is done, so all are. */
  lemma {:induction false} PreviousDone(rs: seq<Request>, i: nat, n: nat)
    requires n <= i < |rs| && InOrder(rs)
    requires var p := Last(rs, rs[i].address, n);
             p.None? || (p.value < n && Done(rs[p.value]) && rs[p.value].address == rs[i].address)
    ensures forall j :: 0 <= j < n && rs[j].address == rs[i].address ==> Done(rs[j])
    decreases n
  {
    if n > 0 && rs[n - 1].address != rs[i].address {
      PreviousDone(rs, i, n - 1);
    }
  }

  lemma {:induction false} LastIsBefore(rs: seq<Request>, address: bytes, n: nat)
    requires n <= |rs|
    ensures LastCall(rs, n, address, Last(rs, address, n))
    decreases n
  {
    if n == 0 {
    } else {
      LastIsBefore(rs, address, n - 1);
    }
  }

  // ---------- steps ----------

  lemma CountsAfterCall(q: Queues, address: bytes, a: bytes, n: nat)
    requires n <= |q.requests|
    ensures var rs, rs' := q.requests, DoCall(q, address).requests;
            && Last(rs', a, n) == Last(rs, a, n) && Calls(rs', a, n) == Calls(rs, a, n)
            && Rejected(rs', a, n) == Rejected(rs, a, n)
            && Begun(rs', a, n) == Begun(rs, a, n) && Received(rs', a, n) == Received(rs, a, n)
  {
    CountsOfPrefix(q.requests, DoCall(q, address).requests[|q.requests|], a, n);
  }

  lemma CallKeepsLinks(q: Queues, address: bytes)
    requires Linked(q)
    ensures Linked(DoCall(q, address))
  {
    var q' := DoCall(q, address);
    var rs, rs' := q.requests, q'.requests;
    forall a ensures Last(rs', a, |rs'|) == if a in q'.tails then Some(q'.tails[a]) else None {
      CountsAfterCall(q, address, a, |rs|);
    }
    forall i | 0 <= i < |rs'| ensures rs'[i].previous == Last(rs', rs'[i].address, i) {
      CountsAfterCall(q, address, rs'[i].address, i);
    }
  }

  lemma CallKeepsPhases(q: Queues, address: bytes)
    requires forall i :: 0 <= i < |q.requests| ==> PhaseOk(q.requests, i)
    ensures var rs' := DoCall(q, address).requests; forall i :: 0 <= i < |rs'| ==> PhaseOk(rs', i)
  {
    var rs, rs' := q.requests, DoCall(q, address).requests;
    forall i | 0 <= i < |rs'| ensures PhaseOk(rs', i) {
      if i < |rs| {
        assert PhaseOk(rs, i);
        CountsAfterCall(q, address, rs[i].address, i);
      }
    }
  }

  lemma CallKeepsCounters(q: Queues, address: bytes, a: bytes)
    requires Counter(q.tx, a) == Begun(q.requests, a, |q.requests|)
    requires Counter(q.rx, a) == Received(q.requests, a, |q.requests|)
    ensures var q' := DoCall(q, address);
            && Counter(q'.tx, a) == Begun(q'.requests, a, |q'.requests|)
            && Counter(q'.rx, a) == Received(q'.requests, a, |q'.requests|)
  {
    CountsAfterCall(q, address, a, |q.requests|);
  }

  lemma CallKeepsOrder(q: Queues, address: bytes)
    requires InOrder(q.requests)
    ensures InOrder(DoCall(q, address).requests)
  {
  }

  lemma CallKeeps(q: Queues, address: bytes)
    requires Inv(q)
    ensures Inv(DoCall(q, address))
  {
    CallKeepsLinks(q, address);
    CallKeepsOrder(q, address);
    CallKeepsPhases(q, address);
    forall a { CallKeepsCounters(q, address, a); }
  }

  /** A request that has begun, or may begin, has only done requests before it and only chained ones behind it. */
  lemma AtFront(q: Queues, i: nat)
    requires Inv(q) && i < |q.requests| && !Done(q.requests[i]) && (q.requests[i].status.Chained? ==> MayBegin(q, i))
    ensures var rs := q.requests; var a := rs[i].address; var begun := if rs[i].status.Chained? then 0 else 1;
            var received := if TookReceivePhase(rs[i].status) then 1 else 0;
            && (forall j :: 0 <= j < i && rs[j].address == a ==> Done(rs[j]))
            && (forall j :: i < j < |rs| && rs[j].address == a ==> rs[j].status.Chained?)
            && Counter(q.tx, a) == Calls(rs, a, i) + begun
            && Counter(q.rx, a) == Calls(rs, a, i) - Rejected(rs, a, i) + received
  {
    var rs := q.requests;
    var a := rs[i].address;
    if rs[i].status.Chained? {
      LastIsBefore(rs, a, i);
      PreviousDone(rs, i, i);
    }
    FrontOfQueue(rs, i, i);
    NothingBehind(rs, i, |rs|);
  }

  lemma StatusKeepsLinks(q: Queues, i: nat, status: Status)
    requires Linked(q) && i < |q.requests|
    ensures Linked(SetStatus(q, i, status))
  {
    var q' := SetStatus(q, i, status);
    forall a, n: nat | n <= |q.requests| ensures Last(q'.requests, a, n) == Last(q.requests, a, n) {
      CountsAfter(q.requests, i, status, a, n);
    }
  }

  /** What moving the front request on does to the phases of all requests. */
  lemma StatusKeepsPhases(q: Queues, i: nat, status: Status)
    requires Inv(q) && i < |q.requests| && !Done(q.requests[i]) && (q.requests[i].status.Chained? ==> MayBegin(q, i))
    requires status.SendRejected? || status.Settled? || status.Sending? || status.Receiving?
    ensures var rs' := SetStatus(q, i, status).requests;
            && InOrder(rs')
            && forall j :: 0 <= j < |rs'| && j != i ==> PhaseOk(rs', j)
  {
    var rs, rs' := q.requests, SetStatus(q, i, status).requests;
    AtFront(q, i);
    forall j | 0 <= j < |rs'| && j != i ensures PhaseOk(rs', j) {
      CountsAfter(rs, i, status, rs[j].address, j);
      assert PhaseOk(rs, j);
    }
  }

  lemma CountersKeep(q: Queues, i: nat, status: Status)
    requires Inv(q) && i < |q.requests|
    ensures var q' := SetStatus(q, i, status); var r := q.requests[i];
            forall a :: var on := a == r.address;
              && Begun(q'.requests, a, |q'.requests|) == Counter(q.tx, a)
                   + (if on then (if status.Chained? then 0 else 1) - (if r.status.Chained? then 0 else 1) else 0)
              && Received(q'.requests, a, |q'.requests|) == Counter(q.rx, a)
                   + (if on then (if TookReceivePhase(status) then 1 else 0)
                             - (if TookReceivePhase(r.status) then 1 else 0) else 0)
  {
    forall a ensures var q' := SetStatus(q, i, status); var r := q.requests[i]; var on := a == r.address;
              && Begun(q'.requests, a, |q'.requests|) == Counter(q.tx, a)
                   + (if on then (if status.Chained? then 0 else 1) - (if r.status.Chained? then 0 else 1) else 0)
              && Received(q'.requests, a, |q'.requests|) == Counter(q.rx, a)
                   + (if on then (if TookReceivePhase(status) then 1 else 0)
                             - (if TookReceivePhase(r.status) then 1 else 0) else 0)
    {
      CountsAfter(q.requests, i, status, a, |q.requests|);
    }
  }

  lemma BeginKeeps(q: Queues, i: nat)
    requires Inv(q) && MayBegin(q, i)
    ensures Inv(DoBegin(q, i))
  {
    var status := Sending(Counter(q.tx, q.requests[i].address));
    AtFront(q, i);
    StatusKeepsLinks(q, i, status);
    StatusKeepsPhases(q, i, status);
    CountersKeep(q, i, status);
    CountsAfter(q.requests, i, status, q.requests[i].address, i);
  }

  lemma SendSucceedsKeeps(q: Queues, i: nat)
    requires Inv(q) && i < |q.requests| && q.requests[i].status.Sending?
    ensures Inv(DoSendEnds(q, i, true))
  {
    var r := q.requests[i];
    var status := Receiving(r.status.tx, Counter(q.rx, r.address));
    AtFront(q, i);
    assert PhaseOk(q.requests, i);
    StatusKeepsLinks(q, i, status);
    StatusKeepsPhases(q, i, status);
    CountersKeep(q, i, status);
    CountsAfter(q.requests, i, status, r.address, i);
  }

  lemma SendRejectedKeeps(q: Queues, i: nat)
    requires Inv(q) && i < |q.requests| && q.requests[i].status.Sending?
    ensures Inv(DoSendEnds(q, i, false))
  {
    var r := q.requests[i];
    var status := SendRejected(r.status.tx);
    assert PhaseOk(q.requests, i);
    StatusKeepsLinks(q, i, status);
    StatusKeepsPhases(q, i, status);
    CountersKeep(q, i, status);
    CountsAfter(q.requests, i, status, r.address, i);
  }

  lemma ReceiveEndsKeeps(q: Queues, i: nat, ok: bool)
    requires Inv(q) && i < |q.requests| && q.requests[i].status.Receiving?
    ensures Inv(SetStatus(q, i, Settled(q.requests[i].status.tx, q.requests[i].status.rx, ok)))
  {
    var r := q.requests[i];
    var status := Settled(r.status.tx, r.status.rx, ok);
    assert PhaseOk(q.requests, i);
    StatusKeepsLinks(q, i, status);
    StatusKeepsPhases(q, i, status);
    CountersKeep(q, i, status);
    CountsAfter(q.requests, i, status, r.address, i);
  }

  lemma {:induction false} RunKeeps(steps: seq<Step>)
    ensures Inv(Run(steps))
    decreases |steps|
  {
    if steps == [] {
    } else {
      RunKeeps(steps[..|steps| - 1]);
      var q := Run(steps[..|steps| - 1]);
      match steps[|steps| - 1]
      case Call(address) => CallKeeps(q, address);
      case Begin(i) => if MayBegin(q, i) { BeginKeeps(q, i); }
      case SendEnds(i, ok) => if i < |q.requests| && q.requests[i].status.Sending? {
        if ok { SendSucceedsKeeps(q, i); } else { SendRejectedKeeps(q, i); }
      }
      case ReceiveEnds(i, ok) => if i < |q.requests| && q.requests[i].status.Receiving? { ReceiveEndsKeeps(q, i, ok); }
    }
  }

  // ---------- the theorems ----------

  predicate Active(r: Request) { r.status.Sending? || r.status.Receiving? }

  /** In every run, requests to one address begin in call order and never overlap. */
  lemma OneAtATimeInOrder(steps: seq<Step>, i: nat, j: nat)
    ensures var rs := Run(steps).requests;
            i < j < |rs| && rs[i].address == rs[j].address ==>
              (!rs[j].status.Chained? ==> Done(rs[i])) && !(Active(rs[i]) && Active(rs[j]))
  {
    RunKeeps(steps);
  }

  /** In every run, a request waits for the last earlier call to its address, and for no other. */
  lemma WaitsForTheLastCall(steps: seq<Step>, i: nat)
    requires i < |Run(steps).requests|
    ensures var rs := Run(steps).requests; LastCall(rs, i, rs[i].address, rs[i].previous)
  {
    RunKeeps(steps);
    LastIsBefore(Run(steps).requests, Run(steps).requests[i].address, i);
  }

  /** However the earlier requests ended, the next one may begin. */
  lemma FailureNeverBlocks(steps: seq<Step>, i: nat)
    requires var rs := Run(steps).requests;
             i < |rs| && rs[i].status.Chained?
             && forall j :: 0 <= j < i && rs[j].address == rs[i].address ==> Done(rs[j])
    ensures MayBegin(Run(steps), i)
  {
    RunKeeps(steps);
    var rs := Run(steps).requests;
    LastIsBefore(rs, rs[i].address, i);
  }

  /**
   * In every run, a request awaits the phase it sent on less one for each earlier request
   * to its address whose send was rejected: timeouts do no harm, one rejected send shifts
   * every later request for good.
   */
  lemma AwaitsItsOwnPhaseUnlessASendWasRejected(steps: seq<Step>, i: nat)
    requires var rs := Run(steps).requests; i < |rs| && TookReceivePhase(rs[i].status)
    ensures var rs := Run(steps).requests; var r := rs[i];
            && r.status.tx == Calls(rs, r.address, i) && r.status.tx - r.status.rx == Rejected(rs, r.address, i)
            && (r.status.tx == r.status.rx <==>
                  forall j :: 0 <= j < i && rs[j].address == r.address ==> !rs[j].status.SendRejected?)
  {
    RunKeeps(steps);
    var rs := Run(steps).requests;
    assert PhaseOk(rs, i);
    RejectedIsZero(rs, rs[i].address, i);
  }

  lemma RunThenStep(steps: seq<Step>, step: Step)
    ensures Run(steps + [step]) == Do(Run(steps), step)
  {
    assert (steps + [step])[..|steps|] == steps;
  }

  /** The first request of a queue, up to the rejection of its send. */
  lemma RejectedSend(address: bytes) returns (steps: seq<Step>)
    ensures Run(steps) == Queues([Request(address, None, SendRejected(0))], map[address := 0], map[address := 1], map[])
  {
    RunThenStep([], Call(address));
    RunThenStep([] + [Call(address)], Begin(0));
    RunThenStep([] + [Call(address)] + [Begin(0)], SendEnds(0, false));
    steps := [] + [Call(address)] + [Begin(0)] + [SendEnds(0, false)];
    assert Run([]) == EMPTY;
    assert Run([] + [Call(address)]) == Queues([Request(address, None, Chained)], map[address := 0], map[], map[]);
  }

  /** After one rejected send the next request sends on phase 1 and awaits phase 0. */
  lemma OneRejectedSendShifts(address: bytes) returns (steps: seq<Step>)
    ensures var rs := Run(steps).requests; |rs| == 2 && rs[1] == Request(address, Some(0), Receiving(1, 0))
  {
    var first := RejectedSend(address);
    RunThenStep(first, Call(address));
    RunThenStep(first + [Call(address)], Begin(1));
    RunThenStep(first + [Call(address)] + [Begin(1)], SendEnds(1, true));
    steps := first + [Call(address)] + [Begin(1)] + [SendEnds(1, true)];
  }

  lemma {:induction false} RejectedIsZero(rs: seq<Request>, address: bytes, n: nat)
    requires n <= |rs|
    ensures Rejected(rs, address, n) == 0
       <==> forall j :: 0 <= j < n && rs[j].address == address ==> !rs[j].status.SendRejected?
    decreases n
  {
    if n == 0 {
    } else {
      RejectedIsZero(rs, address, n - 1);
    }
  }

  // ---------- every call is served ----------

  /** The steps a request still has before it. */
  function StagesLeft(r: Request): nat {
    match r.status
    case Chained => 3
    case Sending(_) => 2
    case Receiving(_, _) => 1
    case SendRejected(_) => 0
    case Settled(_, _, _) => 0
  }

  function TotalLeft(rs: seq<Request>): nat {
    if rs == [] then 0 else TotalLeft(rs[..|rs| - 1]) + StagesLeft(rs[|rs| - 1])
  }

  lemma {:induction false} TotalAfter(rs: seq<Request>, i: nat, r: Request)
    requires i < |rs|
    ensures TotalLeft(rs[i := r]) == TotalLeft(rs) - StagesLeft(rs[i]) + StagesLeft(r)
    decreases |rs|
  {
    var last := |rs| - 1;
    if i == last {
      assert rs[i := r][..last] == rs[..last];
    } else {
      TotalAfter(rs[..last], i, r);
      assert rs[i := r][..last] == rs[..last][i := r];
    }
  }

  predicate AllDone(q: Queues) { forall i :: 0 <= i < |q.requests| ==> Done(q.requests[i]) }

  /** The first request that is not done. */
  lemma {:induction false} FirstUndone(rs: seq<Request>, n: nat) returns (i: nat)
    requires n < |rs| && !Done(rs[n])
    ensures i <= n && !Done(rs[i]) && forall j :: 0 <= j < i ==> Done(rs[j])
    decreases n
  {
    i := n;
    if j :| 0 <= j < n && !Done(rs[j]) {
      i := FirstUndone(rs, j);
    }
  }

  /** The step that moves a request on, if it can be moved. */
  function MoveOn(r: Request, i: nat): Step {
    if r.status.Chained? then Begin(i) else if r.status.Sending? then SendEnds(i, true) else ReceiveEnds(i, true)
  }

  lemma MovesOn(steps: seq<Step>, i: nat)
    requires var rs := Run(steps).requests;
             i < |rs| && !Done(rs[i]) && forall j :: 0 <= j < i ==> Done(rs[j])
    ensures var q := Run(steps); var q' := Do(q, MoveOn(q.requests[i], i));
            && |q'.requests| == |q.requests| && TotalLeft(q'.requests) < TotalLeft(q.requests)
  {
    var q := Run(steps);
    if q.requests[i].status.Chained? {
      FailureNeverBlocks(steps, i);
    }
    TotalAfter(q.requests, i, Do(q, MoveOn(q.requests[i], i)).requests[i]);
  }

  /** A run with a request that is not done has a step that brings it nearer to the end. */
  lemma NextStep(steps: seq<Step>) returns (step: Step)
    requires !AllDone(Run(steps))
    ensures var rs, rs' := Run(steps).requests, Run(steps + [step]).requests;
            |rs'| == |rs| && TotalLeft(rs') < TotalLeft(rs)
  {
    var rs := Run(steps).requests;
    var n :| 0 <= n < |rs| && !Done(rs[n]);
    var i := FirstUndone(rs, n);
    step := MoveOn(rs[i], i);
    MovesOn(steps, i);
    RunThenStep(steps, step);
  }

  /** Every run goes on, without further calls, to a state in which every call has been served. */
  lemma {:induction false} EveryCallIsServed(steps: seq<Step>) returns (more: seq<Step>)
    ensures AllDone(Run(steps + more)) && |Run(steps + more).requests| == |Run(steps).requests|
    decreases TotalLeft(Run(steps).requests)
  {
    if AllDone(Run(steps)) {
      more := [];
      assert steps + more == steps;
    } else {
      var step := NextStep(steps);
      var rest := EveryCallIsServed(steps + [step]);
      more := [step] + rest;
      Associative(steps, [step], rest);
    }
  }

  // ---------- how a request ends ----------

  /** What the step makes of a request that is sending or receiving: a failed send, or a receive that ended so. */
  predicate EndsBy(r: Request, i: nat, step: Step, status: Status) {
    || (r.status.Sending? && step == SendEnds(i, false) && status == SendRejected(r.status.tx))
    || (r.status.Receiving? && status.Settled? && step == ReceiveEnds(i, status.ok)
        && status == Settled(r.status.tx, r.status.rx, status.ok))
  }

  predicate EndedWith(q: Queues, i: nat, status: Status) {
    i < |q.requests| && Done(q.requests[i]) && q.requests[i].status == status
  }

  lemma EndsNext(q: Queues, step: Step, i: nat, status: Status)
    ensures EndedWith(Do(q, step), i, status)
       <==> EndedWith(q, i, status) || (i < |q.requests| && EndsBy(q.requests[i], i, step, status))
  {
  }

  /** The n-th step ended the request with this status. */
  predicate EndsAt(steps: seq<Step>, n: nat, i: nat, status: Status)
    requires n < |steps|
  {
    var rs := Run(steps[..n]).requests; i < |rs| && EndsBy(rs[i], i, steps[n], status)
  }

  predicate EverEnds(steps: seq<Step>, i: nat, status: Status) {
    exists n :: 0 <= n < |steps| && EndsAt(steps, n, i, status)
  }

  lemma EverEndsNext(steps: seq<Step>, i: nat, status: Status)
    requires steps != []
    ensures EverEnds(steps, i, status)
       <==> EverEnds(steps[..|steps| - 1], i, status) || EndsAt(steps, |steps| - 1, i, status)
  {
    var last := |steps| - 1;
    var before := steps[..last];
    forall n | 0 <= n < last ensures EndsAt(steps, n, i, status) <==> EndsAt(before, n, i, status) {
      assert before[..n] == steps[..n];
    }
    if EverEnds(before, i, status) {
      var n :| 0 <= n < last && EndsAt(before, n, i, status);
      assert EndsAt(steps, n, i, status);
    }
  }

  /**
   * In every run, a request has ended with a status if and only if a step ended it so: its
   * send was rejected, or its receive settled, well or badly as that step says; and for good.
   */
  lemma {:induction false} EndsExactlyAs(steps: seq<Step>, i: nat, status: Status)
    ensures EndedWith(Run(steps), i, status) <==> EverEnds(steps, i, status)
    decreases |steps|
  {
    if steps == [] {
    } else {
      EndsExactlyAs(steps[..|steps| - 1], i, status);
      EndsNext(Run(steps[..|steps| - 1]), steps[|steps| - 1], i, status);
      EverEndsNext(steps, i, status);
    }
  }
}
