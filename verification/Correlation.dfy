/**
 * Matching replies to calls by id: the mount client and the mailbox client.  The two
 * differ in what a lost connection does: the mount client fails every call that is
 * still out, the mailbox client forgets them.
 */
module Correlation {
  import opened Bytes

  datatype Outcome = Replied(kind: byte, payload: bytes) | TimedOut | ConnectionLost | NotSent

  /**
   * The future behind a pending id: awaited by its call, abandoned because sending raised,
   * or completed without being removed.
   */
  datatype Future = Awaited | Abandoned | Completed

  /** `outcomes` is how each call ended, by id. */
  datatype Client = Client(lastId: nat, pending: map<nat, Future>, outcomes: map<nat, Outcome>)

  /** A reply carries any id: late, duplicated and unsolicited ones included. */
  datatype Event =
    | Call(sent: bool)
    | Reply(id: nat, kind: byte, payload: bytes)
    | Timeout(id: nat)
    | Expire(id: nat)
    | Lose
    | Cleanup

  const NEW_CLIENT := Client(0, map[], map[])

  function Settle(c: Client, id: nat, o: Outcome): Client {
    if id in c.pending && c.pending[id] == Awaited then c.(outcomes := c.outcomes[id := o]) else c
  }

  /** A new call; when sending raises, the call ends and its entry stays behind. */
  function DoCall(c: Client, sent: bool): Client {
    var id := c.lastId + 1;
    if sent then c.(lastId := id, pending := c.pending[id := Awaited])
    else c.(lastId := id, pending := c.pending[id := Abandoned], outcomes := c.outcomes[id := NotSent])
  }

  function DoReply(c: Client, id: nat, kind: byte, payload: bytes): Client {
    Settle(c, id, Replied(kind, payload)).(pending := c.pending - {id})
  }

  function DoTimeout(c: Client, id: nat): Client {
    if id in c.pending && c.pending[id] == Awaited then Settle(c, id, TimedOut).(pending := c.pending - {id}) else c
  }

  /** The mailbox client's timer also removes the entry of a call whose send threw. */
  function DoExpire(c: Client, id: nat): Client {
    Settle(c, id, TimedOut).(pending := c.pending - {id})
  }

  /** The calls still out. */
  function Out(c: Client): set<nat> { set id | id in c.pending && c.pending[id] == Awaited }

  /** `_on_connection_lost` of the mount client. */
  function DoLose(c: Client): Client {
    c.(pending := map id | id in c.pending :: if c.pending[id] == Awaited then Completed else c.pending[id],
       outcomes := c.outcomes + map id | id in Out(c) :: ConnectionLost)
  }

  /** The calls among `ids` have been failed already. */
  function FailAmong(c: Client, ids: set<nat>): Client {
    c.(pending := map id | id in c.pending ::
          if id in ids && c.pending[id] == Awaited then Completed else c.pending[id],
       outcomes := c.outcomes + map id | id in Out(c) * ids :: ConnectionLost)
  }

  lemma FailOneMore(c: Client, ids: set<nat>, id: nat)
    requires id in c.pending && id !in ids
    ensures var f := FailAmong(c, ids);
            && f.pending[id] == c.pending[id]
            && FailAmong(c, ids + {id})
            == if c.pending[id] == Awaited
               then f.(outcomes := f.outcomes[id := ConnectionLost], pending := f.pending[id := Completed]) else f
  {
    if c.pending[id] == Awaited {
      assert Out(c) * (ids + {id}) == Out(c) * ids + {id};
    } else {
      assert Out(c) * (ids + {id}) == Out(c) * ids;
    }
  }

  lemma FailEveryone(c: Client)
    ensures FailAmong(c, {}) == c && FailAmong(c, c.pending.Keys) == DoLose(c)
  {
    assert Out(c) * {} == {};
    assert Out(c) * c.pending.Keys == Out(c);
  }

  /** `cleanup` of the mailbox client. */
  function DoCleanup(c: Client): Client { c.(pending := map[]) }

  function Do(c: Client, e: Event): Client {
    match e
    case Call(sent) => DoCall(c, sent)
    case Reply(id, kind, payload) => DoReply(c, id, kind, payload)
    case Timeout(id) => DoTimeout(c, id)
    case Expire(id) => DoExpire(c, id)
    case Lose => DoLose(c)
    case Cleanup => DoCleanup(c)
  }

  function RunFrom(c: Client, events: seq<Event>): Client {
    if events == [] then c else Do(RunFrom(c, events[..|events| - 1]), events[|events| - 1])
  }

  function Run(events: seq<Event>): Client { RunFrom(NEW_CLIENT, events) }

  /** The client side of `MountProtocol`. */
  class MountClient {
    var requestId: nat
    var pendingRequests: map<nat, Future>
    var outcomes: map<nat, Outcome>

    ghost function Value(): Client
      reads this
    {
      Client(requestId, pendingRequests, outcomes)
    }

    constructor ()
      ensures Value() == NEW_CLIENT
    {
      requestId, pendingRequests, outcomes := 0, map[], map[];
    }

    /** `_send_request` up to its await; ids that do not fit four bytes cannot be packed. */
    method SendRequest() returns (id: nat)
      modifies this
      ensures id == old(requestId) + 1
      ensures Value() == DoCall(old(Value()), id < 0x1_0000_0000)
    {
      requestId := requestId + 1;
      id := requestId;
      if id < 0x1_0000_0000 {
        pendingRequests := pendingRequests[id := Awaited];
      } else {
        pendingRequests := pendingRequests[id := Abandoned];
        outcomes := outcomes[id := NotSent];
      }
    }

    method HandleResponse(id: nat, kind: byte, payload: bytes)
      modifies this
      ensures id in old(pendingRequests) && old(pendingRequests)[id] == Awaited ==>
                outcomes == old(outcomes)[id := Replied(kind, payload)] && id !in pendingRequests
      ensures Value() == DoReply(old(Value()), id, kind, payload)
    {
      if id in pendingRequests {
        var future := pendingRequests[id];
        pendingRequests := pendingRequests - {id};
        if future == Awaited {
          outcomes := outcomes[id := Replied(kind, payload)];
        }
      } else {
        assert pendingRequests - {id} == pendingRequests;
      }
    }

    /** Walks over the pending futures and fails those that are not done. */
    method OnConnectionLost()
      modifies this
      ensures Value() == DoLose(old(Value()))
    {
      var todo := pendingRequests.Keys;
      ghost var c, failed := Value(), {};
      FailEveryone(c);
      while todo != {}
        invariant failed !! todo && failed + todo == c.pending.Keys
        invariant Client(requestId, pendingRequests, outcomes) == FailAmong(c, failed)
        decreases todo
      {
        var id :| id in todo;
        FailOneMore(c, failed, id);
        failed := failed + {id};
        if pendingRequests[id] == Awaited {
          outcomes := outcomes[id := ConnectionLost];
          pendingRequests := pendingRequests[id := Completed];
        }
        todo := todo - {id};
      }
    }
  }

  /** The request side of the mailbox client. */
  class MailboxRequests {
    var messageId: nat
    var pendingRequests: map<nat, Future>
    var outcomes: map<nat, Outcome>

    ghost function Value(): Client
      reads this
    {
      Client(messageId, pendingRequests, outcomes)
    }

    constructor ()
      ensures Value() == NEW_CLIENT
    {
      messageId, pendingRequests, outcomes := 0, map[], map[];
    }

    /** `request`: the entry is made before `send`, which throws when the socket is not open. */
    method Request(socketOpen: bool) returns (id: nat)
      modifies this
      ensures id == old(messageId) + 1 && Value() == DoCall(old(Value()), socketOpen)
    {
      messageId := messageId + 1;
      id := messageId;
      pendingRequests := pendingRequests[id := Awaited];
      if !socketOpen {
        pendingRequests := pendingRequests[id := Abandoned];
        outcomes := outcomes[id := NotSent];
      }
    }

    /** The first half of `handleMessage`; what is no pending reply goes to the handlers. */
    method HandleReply(id: nat, kind: byte, payload: bytes) returns (consumed: bool)
      modifies this
      ensures id in old(pendingRequests) && old(pendingRequests)[id] == Awaited ==>
                outcomes == old(outcomes)[id := Replied(kind, payload)] && id !in pendingRequests
      ensures Value() == DoReply(old(Value()), id, kind, payload) && consumed == (id in old(pendingRequests))
    {
      consumed := id in pendingRequests;
      if consumed {
        var future := pendingRequests[id];
        pendingRequests := pendingRequests - {id};
        if future == Awaited {
          outcomes := outcomes[id := Replied(kind, payload)];
        }
      } else {
        assert pendingRequests - {id} == pendingRequests;
      }
    }

    /** The timer of `request`. */
    method Expire(id: nat)
      modifies this
      ensures Value() == DoExpire(old(Value()), id)
    {
      if id in pendingRequests && pendingRequests[id] == Awaited {
        outcomes := outcomes[id := TimedOut];
      }
      pendingRequests := pendingRequests - {id};
    }

    method Cleanup()
      modifies this`pendingRequests
      ensures Value() == DoCleanup(old(Value()))
    {
      pendingRequests := map[];
    }
  }

  // ---------- the invariant ----------

  predicate Ok(c: Client) {
    && (forall id :: id in c.pending ==> 1 <= id <= c.lastId)
    && (forall id :: id in c.outcomes ==> 1 <= id <= c.lastId)
    && (forall id :: id in c.pending && c.pending[id] == Awaited ==> id !in c.outcomes)
  }

  lemma DoKeepsOk(c: Client, e: Event)
    requires Ok(c)
    ensures Ok(Do(c, e)) && Do(c, e).lastId == c.lastId + (if e.Call? then 1 else 0)
    ensures forall id :: id in c.outcomes ==> id in Do(c, e).outcomes && Do(c, e).outcomes[id] == c.outcomes[id]
  {
  }

  lemma {:induction false} RunKeepsOk(c: Client, events: seq<Event>)
    requires Ok(c)
    ensures Ok(RunFrom(c, events))
    ensures forall id :: id in c.outcomes ==>
              id in RunFrom(c, events).outcomes && RunFrom(c, events).outcomes[id] == c.outcomes[id]
    decreases |events|
  {
    if events == [] {
    } else {
      RunKeepsOk(c, events[..|events| - 1]);
      DoKeepsOk(RunFrom(c, events[..|events| - 1]), events[|events| - 1]);
    }
  }

  lemma {:induction false} RunAppend(c: Client, events: seq<Event>, more: seq<Event>)
    ensures RunFrom(c, events + more) == RunFrom(RunFrom(c, events), more)
    decreases |more|
  {
    if more == [] {
      assert events + more == events;
    } else {
      RunAppend(c, events, more[..|more| - 1]);
      assert (events + more)[..|events + more| - 1] == events + more[..|more| - 1];
    }
  }

  // ---------- the theorems ----------

  /** Whatever arrives later, a call that has ended keeps its outcome. */
  lemma SettlesAtMostOnce(events: seq<Event>, more: seq<Event>, id: nat)
    requires id in Run(events).outcomes
    ensures id in Run(events + more).outcomes && Run(events + more).outcomes[id] == Run(events).outcomes[id]
  {
    RunKeepsOk(NEW_CLIENT, events);
    RunAppend(NEW_CLIENT, events, more);
    RunKeepsOk(Run(events), more);
  }

  function Calls(events: seq<Event>): nat {
    if events == [] then 0 else Calls(events[..|events| - 1]) + (if events[|events| - 1].Call? then 1 else 0)
  }

  /** The n-th call has id n: ids are never reused. */
  lemma {:induction false} IdsCountCalls(events: seq<Event>)
    ensures Run(events).lastId == Calls(events)
    decreases |events|
  {
    if events == [] {
    } else {
      IdsCountCalls(events[..|events| - 1]);
      RunKeepsOk(NEW_CLIENT, events[..|events| - 1]);
      DoKeepsOk(Run(events[..|events| - 1]), events[|events| - 1]);
    }
  }

  // ---------- how a call ends, told from the events alone ----------

  /** The event ends a call that is out under this id, whatever it ends it as. */
  predicate Reaches(e: Event, id: nat) {
    match e
    case Call(_) => false
    case Reply(i, _, _) => i == id
    case Timeout(i) => i == id
    case Expire(i) => i == id
    case Lose => true
    case Cleanup => true
  }

  /** What such an event ends it as; the clean-up gives it no outcome. */
  function Ending(e: Event, id: nat): Option<Outcome> {
    if !Reaches(e, id) || e.Cleanup? then None
    else if e.Reply? then Some(Replied(e.kind, e.payload))
    else if e.Lose? then Some(ConnectionLost)
    else Some(TimedOut)
  }

  /** The j-th event is the call with this id. */
  predicate Makes(events: seq<Event>, j: nat, id: nat, sent: bool) {
    j < |events| && events[j] == Call(sent) && Calls(events[..j]) + 1 == id
  }

  predicate UnreachedSince(events: seq<Event>, j: nat, id: nat) {
    forall l :: j < l < |events| ==> !Reaches(events[l], id)
  }

  /** The call was made and sent, and no event has reached it since. */
  predicate StillAwaited(events: seq<Event>, id: nat) {
    exists j :: 0 <= j < |events| && Makes(events, j, id, true) && UnreachedSince(events, j, id)
  }

  /** The i-th event is the first to reach the call, or the call itself when sending it fails. */
  predicate EndsAt(events: seq<Event>, i: nat, id: nat, o: Outcome)
    requires i < |events|
  {
    || (StillAwaited(events[..i], id) && Ending(events[i], id) == Some(o))
    || (o == NotSent && Makes(events, i, id, false))
  }

  predicate EndsAs(events: seq<Event>, id: nat, o: Outcome) {
    exists i :: 0 <= i < |events| && EndsAt(events, i, id, o)
  }

  predicate Has(c: Client, id: nat, o: Outcome) { id in c.outcomes && c.outcomes[id] == o }

  lemma OutAfter(c: Client, e: Event, id: nat)
    requires Ok(c)
    ensures id in Out(Do(c, e)) <==> (e == Call(true) && c.lastId + 1 == id) || (id in Out(c) && !Reaches(e, id))
  {
  }

  lemma HasAfter(c: Client, e: Event, id: nat, o: Outcome)
    requires Ok(c)
    ensures Has(Do(c, e), id, o)
       <==> || Has(c, id, o)
            || (id in Out(c) && Ending(e, id) == Some(o))
            || (o == NotSent && e == Call(false) && c.lastId + 1 == id)
  {
  }

  lemma AwaitedFrom(events: seq<Event>, j: nat, e: Event, id: nat)
    requires j < |events|
    ensures var all := events + [e];
            && (Makes(all, j, id, true) <==> Makes(events, j, id, true))
            && (UnreachedSince(all, j, id) <==> UnreachedSince(events, j, id) && !Reaches(e, id))
  {
    var all := events + [e];
    assert all[..j] == events[..j];
    assert all[|events|] == e;
    assert forall l :: j < l < |events| ==> events[l] == all[l];
  }

  lemma AwaitedNext(events: seq<Event>, e: Event, id: nat)
    ensures StillAwaited(events + [e], id)
       <==> (e == Call(true) && Calls(events) + 1 == id) || (StillAwaited(events, id) && !Reaches(e, id))
  {
    var all, n := events + [e], |events|;
    assert all[..n] == events;
    assert Makes(all, n, id, true) <==> e == Call(true) && Calls(events) + 1 == id;
    assert UnreachedSince(all, n, id);
    forall j | 0 <= j < n
      ensures Makes(all, j, id, true) && UnreachedSince(all, j, id)
         <==> Makes(events, j, id, true) && UnreachedSince(events, j, id) && !Reaches(e, id)
    {
      AwaitedFrom(events, j, e, id);
    }
  }

  lemma EndsNext(events: seq<Event>, e: Event, id: nat, o: Outcome)
    ensures EndsAs(events + [e], id, o)
       <==> || EndsAs(events, id, o)
            || (StillAwaited(events, id) && Ending(e, id) == Some(o))
            || (o == NotSent && e == Call(false) && Calls(events) + 1 == id)
  {
    var all, n := events + [e], |events|;
    assert all[..n] == events;
    forall i | 0 <= i < n ensures EndsAt(all, i, id, o) <==> EndsAt(events, i, id, o) {
      assert all[..i] == events[..i];
    }
    assert EndsAt(all, n, id, o) <==>
      (StillAwaited(events, id) && Ending(e, id) == Some(o)) || (o == NotSent && Makes(all, n, id, false));
    if EndsAs(events, id, o) {
      var i :| 0 <= i < n && EndsAt(events, i, id, o);
      assert EndsAt(all, i, id, o);
    }
  }

  /** The calls still out are those made and sent that no event has reached. */
  lemma {:induction false} OutMeansAwaited(events: seq<Event>, id: nat)
    ensures id in Out(Run(events)) <==> StillAwaited(events, id)
    decreases |events|
  {
    if events == [] {
    } else {
      var before, e := events[..|events| - 1], events[|events| - 1];
      assert events == before + [e];
      OutMeansAwaited(before, id);
      RunKeepsOk(NEW_CLIENT, before);
      IdsCountCalls(before);
      OutAfter(Run(before), e, id);
      AwaitedNext(before, e, id);
    }
  }

  /**
   * For every list of events, every id and every outcome: the call ends that way if and only
   * if the first event to reach it while it was out ends it that way, or sending it failed.
   * A reply ends it as replied with the reply's own kind and payload, a timer as timed out,
   * a lost connection as lost; no later event changes anything, and the clean-up gives it no
   * outcome at all.
   */
  lemma {:induction false} EndsExactlyAs(events: seq<Event>, id: nat, o: Outcome)
    ensures Has(Run(events), id, o) <==> EndsAs(events, id, o)
    decreases |events|
  {
    if events == [] {
    } else {
      var before, e := events[..|events| - 1], events[|events| - 1];
      assert events == before + [e];
      EndsExactlyAs(before, id, o);
      OutMeansAwaited(before, id);
      RunKeepsOk(NEW_CLIENT, before);
      IdsCountCalls(before);
      HasAfter(Run(before), e, id, o);
      EndsNext(before, e, id, o);
    }
  }

  /** The next event to reach a call that is out settles it, each in its own way. */
  lemma NextEventSettles(events: seq<Event>, id: nat, kind: byte, payload: bytes)
    requires id in Out(Run(events))
    ensures Has(Run(events + [Reply(id, kind, payload)]), id, Replied(kind, payload))
    ensures Has(Run(events + [Timeout(id)]), id, TimedOut) && Has(Run(events + [Expire(id)]), id, TimedOut)
    ensures Has(Run(events + [Lose]), id, ConnectionLost)
  {
    RunKeepsOk(NEW_CLIENT, events);
    RunAppendOne(events, Reply(id, kind, payload));
    RunAppendOne(events, Timeout(id));
    RunAppendOne(events, Expire(id));
    RunAppendOne(events, Lose);
    var c := Run(events);
    HasAfter(c, Reply(id, kind, payload), id, Replied(kind, payload));
    HasAfter(c, Timeout(id), id, TimedOut);
    HasAfter(c, Expire(id), id, TimedOut);
    HasAfter(c, Lose, id, ConnectionLost);
  }

  /** The entry of a call whose sending failed is left alone by a time-out of mount and removed by the mailbox timer. */
  lemma LeftoverEntries(c: Client, id: nat)
    requires id in c.pending && c.pending[id] == Abandoned
    ensures Do(c, Timeout(id)) == c
    ensures var c' := Do(c, Expire(id)); c'.outcomes == c.outcomes && c'.pending == c.pending - {id}
  {
  }

  lemma RunAppendOne(events: seq<Event>, e: Event)
    ensures Run(events + [e]) == Do(Run(events), e)
  {
    assert (events + [e])[..|events|] == events;
  }

  /** A call settled by a reply was settled by a reply bearing its own id, received after it was made. */
  lemma {:induction false} RepliedByItsOwn(events: seq<Event>, id: nat) returns (at: nat)
    requires id in Run(events).outcomes && Run(events).outcomes[id].Replied?
    ensures at < |events| && var o := Run(events).outcomes[id]; events[at] == Reply(id, o.kind, o.payload)
    ensures id <= Calls(events[..at])
    decreases |events|
  {
    var last := |events| - 1;
    var before := Run(events[..last]);
    RunKeepsOk(NEW_CLIENT, events[..last]);
    if id in before.outcomes {
      at := RepliedByItsOwn(events[..last], id);
      DoKeepsOk(before, events[last]);
      assert events[..last][..at] == events[..at];
    } else {
      at := last;
      IdsCountCalls(events[..last]);
    }
  }

  /** In the mount client a lost connection leaves no call unsettled. */
  lemma LosingSettlesEveryone(events: seq<Event>, id: nat)
    requires forall e :: e in events ==> !e.Cleanup?
    requires 1 <= id <= Calls(events)
    ensures id in Run(events + [Lose]).outcomes
  {
    var c := Run(events);
    IdsCountCalls(events);
    OutOrSettled(events, id);
    RunAppend(NEW_CLIENT, events, [Lose]);
    assert RunFrom(c, [Lose]) == Do(RunFrom(c, []), Lose);
  }

  lemma {:induction false} OutOrSettled(events: seq<Event>, id: nat)
    requires forall e :: e in events ==> !e.Cleanup?
    requires 1 <= id <= Run(events).lastId
    ensures id in Run(events).outcomes || id in Out(Run(events))
    decreases |events|
  {
    if events == [] {
    } else {
      var last := |events| - 1;
      var before := Run(events[..last]);
      RunKeepsOk(NEW_CLIENT, events[..last]);
      if id <= before.lastId {
        OutOrSettled(events[..last], id);
      }
      assert events[last] in events;
    }
  }

  /** In the mailbox client `cleanup` strands exactly the calls still out: whatever follows, they never settle. */
  lemma {:induction false} CleanupStrands(events: seq<Event>, more: seq<Event>, id: nat)
    requires 1 <= id <= Run(events).lastId
    ensures var c := RunFrom(Do(Run(events), Cleanup), more);
            id !in c.pending && (id in c.outcomes <==> id in Run(events).outcomes)
    decreases |more|
  {
    RunKeepsOk(NEW_CLIENT, events);
    if more == [] {
    } else {
      CleanupStrands(events, more[..|more| - 1], id);
      var start := Do(Run(events), Cleanup);
      LastIdGrows(start, more[..|more| - 1]);
    }
  }

  lemma {:induction false} LastIdGrows(c: Client, events: seq<Event>)
    ensures RunFrom(c, events).lastId >= c.lastId
    decreases |events|
  {
    if events == [] {
    } else {
      LastIdGrows(c, events[..|events| - 1]);
    }
  }
}
