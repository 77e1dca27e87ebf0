/**
 * The mailbox client's handler array.  Dispatch walks the live array with an index
 * while a handler may splice itself out of it, so the element that slides into the
 * freed place is passed over.
 */
module Mailbox {
  import opened Bytes

  /** A waiter from `waitForPhaseWithSide`, or a handler that stays until it is unsubscribed. */
  datatype Handler = Waiter(id: nat, phase: bytes) | Listener(id: nat)

  predicate Wants(h: Handler, phase: bytes) { h.Waiter? && h.phase == phase }

  /** The handlers left registered, and the handlers that were called, in order. */
  datatype Dispatched = Dispatched(kept: seq<Handler>, called: seq<Handler>)

  function Dispatch(hs: seq<Handler>, phase: bytes): Dispatched
    decreases |hs|
  {
    if hs == [] then Dispatched([], [])
    else if Wants(hs[0], phase) then
      if |hs| == 1 then Dispatched([], hs)
      else
        var d := Dispatch(hs[2..], phase);
        Dispatched([hs[1]] + d.kept, [hs[0]] + d.called)
    else
      var d := Dispatch(hs[1..], phase);
      Dispatched([hs[0]] + d.kept, [hs[0]] + d.called)
  }

  /** The rest of the walk, from index i on. */
  function Walk(hs: seq<Handler>, i: nat, phase: bytes): Dispatched {
    if i >= |hs| then Dispatched(hs, [])
    else
      var d := Dispatch(hs[i..], phase);
      Dispatched(hs[..i] + d.kept, d.called)
  }

  lemma WalkOver(hs: seq<Handler>, i: nat, phase: bytes)
    requires i < |hs| && !Wants(hs[i], phase)
    ensures var d := Walk(hs, i + 1, phase); Walk(hs, i, phase) == Dispatched(d.kept, [hs[i]] + d.called)
  {
    assert hs[i..][1..] == hs[i + 1..];
    assert hs[..i] + [hs[i]] == hs[..i + 1];
    assert hs[..|hs|] == hs;
  }

  lemma WalkSplice(hs: seq<Handler>, i: nat, phase: bytes)
    requires i < |hs| && Wants(hs[i], phase)
    ensures var d := Walk(hs[..i] + hs[i + 1..], i + 1, phase);
            Walk(hs, i, phase) == Dispatched(d.kept, [hs[i]] + d.called)
  {
    var less := hs[..i] + hs[i + 1..];
    assert less[..|less|] == less;
    if i + 1 < |hs| {
      var tail := hs[i..];
      var d := Dispatch(tail[2..], phase);
      assert tail[2..] == less[i + 1..];
      assert less[..i + 1] == hs[..i] + [tail[1]];
      assert hs[..i] + ([tail[1]] + d.kept) == less[..i + 1] + d.kept;
      if i + 1 == |less| {
        assert less[i + 1..] == [];
      }
    } else {
      assert hs[i..] == [hs[i]];
      assert less == hs[..i] == hs[..i] + [];
    }
  }

  // ---------- the client ----------

  class MailboxClient {
    var handlers: seq<Handler>
    var nextHandler: nat
    var called: seq<Handler>

    ghost predicate Valid()
      reads this
    {
      Distinct(handlers) && forall h :: h in handlers ==> h.id < nextHandler
    }

    constructor ()
      ensures Valid() && handlers == [] && called == []
    {
      handlers, nextHandler, called := [], 0, [];
    }

    /** Each registration makes a handler of its own. */
    method WaitForPhase(phase: bytes) returns (h: Handler)
      requires Valid()
      modifies this
      ensures Valid() && h == Waiter(old(nextHandler), phase)
      ensures handlers == old(handlers) + [h] && called == old(called)
    {
      h := Waiter(nextHandler, phase);
      nextHandler := nextHandler + 1;
      handlers := handlers + [h];
    }

    method OnMessage() returns (h: Handler)
      requires Valid()
      modifies this
      ensures Valid() && h == Listener(old(nextHandler))
      ensures handlers == old(handlers) + [h] && called == old(called)
    {
      h := Listener(nextHandler);
      nextHandler := nextHandler + 1;
      handlers := handlers + [h];
    }

    /** `off`: splice out the first entry that is this handler. */
    method Off(h: Handler)
      modifies this`handlers
      ensures h !in old(handlers) ==> handlers == old(handlers)
      ensures h in old(handlers) ==>
        exists i :: 0 <= i < |old(handlers)| && old(handlers)[i] == h && h !in old(handlers)[..i]
                    && handlers == old(handlers)[..i] + old(handlers)[i + 1..]
    {
      var i := 0;
      while i < |handlers| && handlers[i] != h
        invariant i <= |handlers| && h !in handlers[..i]
      {
        i := i + 1;
      }
      if i < |handlers| {
        assert handlers[i] == h;
        handlers := handlers[..i] + handlers[i + 1..];
      }
    }

    /** Calls the i-th handler, which unsubscribes itself if it was waiting for this phase. */
    method Call(i: nat, phase: bytes)
      requires Valid() && i < |handlers|
      modifies this`handlers, this`called
      ensures Valid()
      ensures called == old(called) + [old(handlers[i])]
      ensures Walk(old(handlers), i, phase)
           == Dispatched(Walk(handlers, i + 1, phase).kept, [old(handlers[i])] + Walk(handlers, i + 1, phase).called)
      ensures |handlers| <= old(|handlers|)
    {
      var h := handlers[i];
      ghost var hs := handlers;
      called := called + [h];
      if Wants(h, phase) {
        Off(h);
        WalkSplice(hs, i, phase);
        OnlyPlace(hs, i, handlers);
      } else {
        WalkOver(hs, i, phase);
      }
    }

    /** The loop of `handleMessage` for a peer's message. */
    method DispatchMessage(phase: bytes)
      requires Valid()
      modifies this`handlers, this`called
      ensures Valid()
      ensures var d := Dispatch(old(handlers), phase); handlers == d.kept && called == old(called) + d.called
    {
      var i := 0;
      ghost var d := Dispatch(handlers, phase);
      assert handlers[0..] == handlers && handlers[..0] + d.kept == d.kept;
      while i < |handlers|
        invariant Valid()
        invariant d.kept == Walk(handlers, i, phase).kept
        invariant old(called) + d.called == called + Walk(handlers, i, phase).called
        decreases |handlers| - i
      {
        Call(i, phase);
        i := i + 1;
      }
    }
  }

  /** Distinct handlers: the entry that is spliced out is the one that was called. */
  lemma OnlyPlace(hs: seq<Handler>, i: nat, less: seq<Handler>)
    requires Distinct(hs) && i < |hs|
    requires exists j :: 0 <= j < |hs| && hs[j] == hs[i] && hs[i] !in hs[..j] && less == hs[..j] + hs[j + 1..]
    ensures less == hs[..i] + hs[i + 1..] && Distinct(less)
  {
  }

  // ---------- what the walk reaches ----------

  predicate Lone(hs: seq<Handler>, phase: bytes, i: nat) {
    i < |hs| && Wants(hs[i], phase) && forall j :: 0 <= j < |hs| && j != i ==> !Wants(hs[j], phase)
  }

  lemma {:induction false} NobodyWaits(hs: seq<Handler>, phase: bytes)
    requires forall j :: 0 <= j < |hs| ==> !Wants(hs[j], phase)
    ensures Dispatch(hs, phase) == Dispatched(hs, hs)
    decreases |hs|
  {
    if hs == [] {
    } else {
      NobodyWaits(hs[1..], phase);
      assert hs == [hs[0]] + hs[1..];
    }
  }

  lemma FirstIsReached(hs: seq<Handler>, phase: bytes)
    requires Lone(hs, phase, 0)
    ensures Dispatch(hs, phase) == Dispatched(hs[1..], [hs[0]] + (if |hs| > 1 then hs[2..] else []))
  {
    if |hs| > 1 {
      NobodyWaits(hs[2..], phase);
      assert hs[1..] == [hs[1]] + hs[2..];
    }
  }

  lemma {:induction false} LoneWaiterIsRemoved(hs: seq<Handler>, phase: bytes, i: nat)
    requires Lone(hs, phase, i)
    ensures Dispatch(hs, phase).kept == hs[..i] + hs[i + 1..]
    decreases |hs|
  {
    if i == 0 {
      FirstIsReached(hs, phase);
    } else {
      LoneWaiterIsRemoved(hs[1..], phase, i - 1);
      assert hs[..i] == [hs[0]] + hs[1..][..i - 1];
      assert hs[i + 1..] == hs[1..][i..];
    }
  }

  /** Everyone but the handler at position i. */
  function Skipping(hs: seq<Handler>, i: nat): seq<Handler> {
    if i < |hs| then hs[..i] + hs[i + 1..] else hs
  }

  lemma SkippingCons(hs: seq<Handler>, i: nat)
    requires hs != []
    ensures Skipping(hs, i + 1) == [hs[0]] + Skipping(hs[1..], i)
  {
    if i + 1 < |hs| {
      assert hs[..i + 1] == [hs[0]] + hs[1..][..i];
      assert hs[i + 2..] == hs[1..][i + 1..];
    }
  }

  lemma {:induction false} OnlyNextIsSkipped(hs: seq<Handler>, phase: bytes, i: nat)
    requires Lone(hs, phase, i)
    ensures Dispatch(hs, phase).called == Skipping(hs, i + 1)
    decreases |hs|
  {
    if i == 0 {
      FirstIsReached(hs, phase);
      assert hs[..1] == [hs[0]];
      assert |hs| == 1 ==> [hs[0]] + [] == hs;
    } else {
      OnlyNextIsSkipped(hs[1..], phase, i - 1);
      SkippingCons(hs, i);
    }
  }

  /**
   * When one waiter wants the phase, it is called once and removed, every other handler
   * stays, and every other handler but the one behind the waiter is called too.
   */
  lemma LoneWaiterIsReached(hs: seq<Handler>, phase: bytes, i: nat)
    requires Lone(hs, phase, i)
    ensures Dispatch(hs, phase) == Dispatched(hs[..i] + hs[i + 1..], Skipping(hs, i + 1))
  {
    LoneWaiterIsRemoved(hs, phase, i);
    OnlyNextIsSkipped(hs, phase, i);
  }

  /** A listener that was registered right behind a waiter does not see the waiter's message ... */
  lemma ListenerIsPassedOver(phase: bytes)
    ensures Dispatch([Waiter(0, phase), Listener(1)], phase) == Dispatched([Listener(1)], [Waiter(0, phase)])
  {
    var hs := [Waiter(0, phase), Listener(1)];
    assert hs[2..] == [];
    assert Dispatch(hs[2..], phase) == Dispatched([], []);
  }

  /** ... and of two waiters for one phase the second is still waiting afterwards. */
  lemma SecondWaiterIsPassedOver(phase: bytes)
    ensures Dispatch([Waiter(0, phase), Waiter(1, phase)], phase) == Dispatched([Waiter(1, phase)], [Waiter(0, phase)])
  {
    var hs := [Waiter(0, phase), Waiter(1, phase)];
    assert hs[2..] == [];
    assert Dispatch(hs[2..], phase) == Dispatched([], []);
  }

  /** Two neighbours that want the same phase. */
  predicate Adjacent(hs: seq<Handler>, phase: bytes) {
    exists i :: 0 <= i < |hs| - 1 && Wants(hs[i], phase) && Wants(hs[i + 1], phase)
  }

  lemma {:induction false} KeptAreOld(hs: seq<Handler>, phase: bytes)
    ensures forall h :: h in Dispatch(hs, phase).kept ==> h in hs
    ensures forall h :: h in Dispatch(hs, phase).called ==> h in hs
    decreases |hs|
  {
    if hs == [] {
    } else {
      KeptAreOld(hs[1..], phase);
      if |hs| > 1 { KeptAreOld(hs[2..], phase); }
    }
  }

  predicate AllServed(hs: seq<Handler>, phase: bytes) {
    forall h :: h in Dispatch(hs, phase).kept ==> !Wants(h, phase)
  }

  /**
   * In general: every waiter for the phase is served if and only if no two of them are
   * neighbours in the array.
   */
  lemma {:induction false} AllServedUnlessAdjacent(hs: seq<Handler>, phase: bytes)
    ensures AllServed(hs, phase) <==> !Adjacent(hs, phase)
    decreases |hs|
  {
    if hs == [] {
    } else if Wants(hs[0], phase) {
      if |hs| > 1 {
        AllServedUnlessAdjacent(hs[2..], phase);
        var d := Dispatch(hs[2..], phase);
        assert AllServed(hs, phase) <==> !Wants(hs[1], phase) && AllServed(hs[2..], phase) by {
          assert Dispatch(hs, phase).kept == [hs[1]] + d.kept;
        }
        AdjacentTail(hs, phase);
        AdjacentTail(hs[1..], phase);
        assert hs[1..][1..] == hs[2..];
      }
    } else {
      AllServedUnlessAdjacent(hs[1..], phase);
      AdjacentTail(hs, phase);
      assert Dispatch(hs, phase).kept == [hs[0]] + Dispatch(hs[1..], phase).kept;
    }
  }

  lemma AdjacentTail(hs: seq<Handler>, phase: bytes)
    requires hs != []
    ensures Adjacent(hs, phase)
       <==> (|hs| > 1 && Wants(hs[0], phase) && Wants(hs[1], phase)) || Adjacent(hs[1..], phase)
  {
    if Adjacent(hs, phase) {
      var i :| 0 <= i < |hs| - 1 && Wants(hs[i], phase) && Wants(hs[i + 1], phase);
      if i > 0 { assert Wants(hs[1..][i - 1], phase) && Wants(hs[1..][i - 1 + 1], phase); }
    }
    if Adjacent(hs[1..], phase) {
      var i :| 0 <= i < |hs[1..]| - 1 && Wants(hs[1..][i], phase) && Wants(hs[1..][i + 1], phase);
      assert Wants(hs[i + 1], phase) && Wants(hs[i + 1 + 1], phase);
    }
  }

  /**
   * Every handler sees the message if and only if no waiter for its phase stands before
   * the last place: whoever follows a served waiter is passed over.
   */
  lemma {:induction false} EveryoneIsCalledUnless(hs: seq<Handler>, phase: bytes)
    ensures |Dispatch(hs, phase).called| <= |hs|
    ensures Dispatch(hs, phase).called == hs <==> forall i :: 0 <= i < |hs| - 1 ==> !Wants(hs[i], phase)
    decreases |hs|
  {
    if hs == [] {
    } else if Wants(hs[0], phase) {
      if |hs| > 1 {
        EveryoneIsCalledUnless(hs[2..], phase);
        assert !(forall i :: 0 <= i < |hs| - 1 ==> !Wants(hs[i], phase)) by { assert Wants(hs[0], phase); }
      }
    } else {
      EveryoneIsCalledUnless(hs[1..], phase);
      var d := Dispatch(hs[1..], phase);
      assert hs == [hs[0]] + hs[1..];
      assert [hs[0]] + d.called == hs <==> d.called == hs[1..] by {
        assert ([hs[0]] + d.called)[1..] == d.called;
      }
      assert forall i :: 0 <= i < |hs[1..]| - 1 ==> hs[1..][i] == hs[i + 1];
      assert (forall i :: 0 <= i < |hs| - 1 ==> !Wants(hs[i], phase)) ==>
             (forall i :: 0 <= i < |hs[1..]| - 1 ==> !Wants(hs[1..][i], phase));
      if forall i :: 0 <= i < |hs[1..]| - 1 ==> !Wants(hs[1..][i], phase) {
        forall i | 0 <= i < |hs| - 1 ensures !Wants(hs[i], phase) {
          if i > 0 { assert hs[i] == hs[1..][i - 1]; }
        }
      }
    }
  }

  // ---------- the walk, place by place ----------

  /** A place is passed over if the handler in front of it was called and left. */
  predicate PassedOver(hs: seq<Handler>, phase: bytes, i: nat)
    requires i < |hs|
  {
    i > 0 && Wants(hs[i - 1], phase) && !PassedOver(hs, phase, i - 1)
  }

  /** The handlers of the first n places that are not passed over ... */
  function Called(hs: seq<Handler>, phase: bytes, n: nat): seq<Handler>
    requires n <= |hs|
  {
    if n == 0 then [] else Called(hs, phase, n - 1) + (if PassedOver(hs, phase, n - 1) then [] else [hs[n - 1]])
  }

  /** ... and those that stay: passed over, or not waiting for the phase. */
  function Kept(hs: seq<Handler>, phase: bytes, n: nat): seq<Handler>
    requires n <= |hs|
  {
    if n == 0 then []
    else
      Kept(hs, phase, n - 1)
      + (if PassedOver(hs, phase, n - 1) || !Wants(hs[n - 1], phase) then [hs[n - 1]] else [])
  }

  /** Behind a place that passes nobody over, the walk starts afresh. */
  lemma {:induction false} FreshFrom(hs: seq<Handler>, phase: bytes, k: nat, i: nat)
    requires k + i < |hs| && !PassedOver(hs, phase, k)
    ensures PassedOver(hs[k..], phase, i) == PassedOver(hs, phase, k + i)
    decreases i
  {
    if i == 0 {
    } else {
      FreshFrom(hs, phase, k, i - 1);
    }
  }

  lemma {:induction false} SplitWalk(hs: seq<Handler>, phase: bytes, k: nat, n: nat)
    requires k + n <= |hs| && (k < |hs| ==> !PassedOver(hs, phase, k))
    ensures Called(hs, phase, k + n) == Called(hs, phase, k) + Called(hs[k..], phase, n)
    ensures Kept(hs, phase, k + n) == Kept(hs, phase, k) + Kept(hs[k..], phase, n)
    decreases n
  {
    if n == 0 {
      assert Called(hs, phase, k) + [] == Called(hs, phase, k);
      assert Kept(hs, phase, k) + [] == Kept(hs, phase, k);
    } else {
      SplitWalk(hs, phase, k, n - 1);
      FreshFrom(hs, phase, k, n - 1);
      var h := hs[k + n - 1];
      assert hs[k..][n - 1] == h;
      var passed := PassedOver(hs, phase, k + n - 1);
      Associative(Called(hs, phase, k), Called(hs[k..], phase, n - 1), if passed then [] else [h]);
      Associative(Kept(hs, phase, k), Kept(hs[k..], phase, n - 1),
                  if passed || !Wants(h, phase) then [h] else []);
    }
  }

  lemma FirstPlaces(hs: seq<Handler>, phase: bytes)
    requires hs != []
    ensures Called(hs, phase, 1) == [hs[0]] && Kept(hs, phase, 1) == if Wants(hs[0], phase) then [] else [hs[0]]
    ensures |hs| > 1 && Wants(hs[0], phase) ==> Called(hs, phase, 2) == [hs[0]] && Kept(hs, phase, 2) == [hs[1]]
  {
    assert Called(hs, phase, 0) == [] && Kept(hs, phase, 0) == [];
    if |hs| > 1 && Wants(hs[0], phase) {
      assert PassedOver(hs, phase, 1);
      assert [hs[0]] + [] == [hs[0]];
    }
  }

  /**
   * For every array and every phase, with any number of waiters: called are, in order, the
   * handlers that are not passed over, and those that stay are, in order, the ones passed
   * over and the ones that do not wait for the phase.
   */
  lemma {:induction false} WalkPlaceByPlace(hs: seq<Handler>, phase: bytes)
    ensures Dispatch(hs, phase) == Dispatched(Kept(hs, phase, |hs|), Called(hs, phase, |hs|))
    decreases |hs|
  {
    if hs == [] {
    } else {
      FirstPlaces(hs, phase);
      var k := if Wants(hs[0], phase) && |hs| > 1 then 2 else 1;
      if Wants(hs[0], phase) && |hs| == 1 {
        assert hs == [hs[0]];
      } else {
        WalkPlaceByPlace(hs[k..], phase);
        SplitWalk(hs, phase, k, |hs| - k);
      }
    }
  }
}
