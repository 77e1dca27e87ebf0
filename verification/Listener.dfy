/** The accept queue of a subchannel listener: arrivals meet calls of `accept` in order. */
module Listener {
  import opened Bytes

  /**
   * `pending` and `waiting` are the listener's two queues, a waiting resolver being named
   * by the number of its `accept` call; `handed` is what each call has been resolved with.
   */
  datatype Queue<T> = Queue(pending: seq<T>, waiting: seq<nat>, handed: map<nat, T>, accepts: nat)

  datatype Event<T> = Incoming(subchannel: T) | Accept

  function Arrive<T>(q: Queue<T>, subchannel: T): Queue<T> {
    if q.waiting != [] then q.(waiting := q.waiting[1..], handed := q.handed[q.waiting[0] := subchannel])
    else q.(pending := q.pending + [subchannel])
  }

  function DoAccept<T>(q: Queue<T>): Queue<T> {
    if q.pending != [] then
      q.(pending := q.pending[1..], handed := q.handed[q.accepts := q.pending[0]], accepts := q.accepts + 1)
    else q.(waiting := q.waiting + [q.accepts], accepts := q.accepts + 1)
  }

  function Run<T>(events: seq<Event<T>>): Queue<T> {
    if events == [] then Queue([], [], map[], 0)
    else
      var q := Run(events[..|events| - 1]);
      match events[|events| - 1]
      case Incoming(subchannel) => Arrive(q, subchannel)
      case Accept => DoAccept(q)
  }

  class SubchannelListener<T> {
    var pendingConnections: seq<T>
    var waitingResolvers: seq<nat>
    var resolved: map<nat, T>
    var accepts: nat

    ghost function Value(): Queue<T>
      reads this
    {
      Queue(pendingConnections, waitingResolvers, resolved, accepts)
    }

    constructor ()
      ensures Value() == Queue([], [], map[], 0)
    {
      pendingConnections, waitingResolvers, resolved, accepts := [], [], map[], 0;
    }

    /** The callback registered by `listen`. */
    method OnSubchannel(subchannel: T)
      modifies this
      ensures Value() == Arrive(old(Value()), subchannel)
    {
      if |waitingResolvers| > 0 {
        resolved := resolved[waitingResolvers[0] := subchannel];
        waitingResolvers := waitingResolvers[1..];
      } else {
        pendingConnections := pendingConnections + [subchannel];
      }
    }

    /** Returns the subchannel if the promise is resolved at once. */
    method AcceptOne() returns (now: Option<T>)
      modifies this
      ensures Value() == DoAccept(old(Value()))
      ensures now == if old(pendingConnections) == [] then None else Some(old(pendingConnections)[0])
    {
      if |pendingConnections| > 0 {
        now := Some(pendingConnections[0]);
        resolved := resolved[accepts := pendingConnections[0]];
        pendingConnections := pendingConnections[1..];
      } else {
        now := None;
        waitingResolvers := waitingResolvers + [accepts];
      }
      accepts := accepts + 1;
    }
  }

  // ---------- the meaning of a run ----------

  /** The subchannels that came in, in order. */
  function Arrivals<T>(events: seq<Event<T>>): seq<T> {
    if events == [] then []
    else
      var before := Arrivals(events[..|events| - 1]);
      match events[|events| - 1]
      case Incoming(subchannel) => before + [subchannel]
      case Accept => before
  }

  function Calls<T>(events: seq<Event<T>>): nat {
    if events == [] then 0
    else Calls(events[..|events| - 1]) + (if events[|events| - 1].Accept? then 1 else 0)
  }

  function Range(from: nat, to: nat): seq<nat>
    requires from <= to
  {
    seq(to - from, i requires 0 <= i < to - from => from + i)
  }

  /**
   * The n-th call is resolved with the n-th arrival as soon as both are there, what is
   * pending are the arrivals no call has met, and what is waiting are the calls no arrival
   * has met.
   */
  predicate InStep<T(==)>(q: Queue<T>, arrivals: seq<T>, calls: nat) {
    var met := Min(calls, |arrivals|);
    && q.accepts == calls
    && q.handed == (map n: nat | n < met :: arrivals[n])
    && q.pending == arrivals[met..]
    && q.waiting == Range(met, calls)
  }

  lemma ArriveKeeps<T>(q: Queue<T>, arrivals: seq<T>, calls: nat, subchannel: T)
    requires InStep(q, arrivals, calls)
    ensures InStep(Arrive(q, subchannel), arrivals + [subchannel], calls)
  {
    var n := |arrivals|;
    if q.waiting != [] {
      assert q.waiting[0] == n;
      assert Range(n, calls)[1..] == Range(n + 1, calls);
    } else {
      assert Min(calls, n) == calls;
      assert (arrivals + [subchannel])[calls..] == arrivals[calls..] + [subchannel];
    }
  }

  lemma AcceptKeeps<T>(q: Queue<T>, arrivals: seq<T>, calls: nat)
    requires InStep(q, arrivals, calls)
    ensures InStep(DoAccept(q), arrivals, calls + 1)
  {
    if q.pending != [] {
      assert q.pending[0] == arrivals[calls];
    } else {
      assert Range(|arrivals|, calls) + [calls] == Range(|arrivals|, calls + 1);
    }
  }

  /** For every interleaving the n-th accept receives the n-th arrival, and one queue is empty. */
  lemma {:induction false} NthAcceptGetsNthArrival<T>(events: seq<Event<T>>)
    ensures InStep(Run(events), Arrivals(events), Calls(events))
    ensures Run(events).pending == [] || Run(events).waiting == []
    decreases |events|
  {
    if events == [] {
    } else {
      var before := events[..|events| - 1];
      NthAcceptGetsNthArrival(before);
      match events[|events| - 1]
      case Incoming(subchannel) => ArriveKeeps(Run(before), Arrivals(before), Calls(before), subchannel);
      case Accept => AcceptKeeps(Run(before), Arrivals(before), Calls(before));
    }
  }
}
