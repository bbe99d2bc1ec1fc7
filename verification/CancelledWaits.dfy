/** What cancelling a wait does, and what it does not: the notifier never looks at a
    waiter's context, only the sweep does. */
module CancelledWaits {
  import opened Common
  import opened WaitList
  import opened WaitProtocol
  import opened WaitInvariants
  import opened WaitTheorems
  import opened Sections

  /** At some moment of the run the notifier had taken w out of the list. */
  ghost predicate CapturedIn(s0: State, trace: seq<Action>, w: WaiterId) {
    exists k | 0 <= k <= |trace| :: CapturedAt(s0, trace, k, w)
  }

  ghost predicate CapturedAt(s0: State, trace: seq<Action>, k: nat, w: WaiterId)
    requires k <= |trace|
  {
    Run(s0, trace[..k]).Some? && w in Captured(Run(s0, trace[..k]).value)
  }

  predicate CalledWithBlock(s: State, w: WaiterId) {
    w in s.waiters && s.waiters[w].registered && s.waiters[w].calls != [] && s.waiters[w].calls[0].Arrived?
  }

  /** The notifier has w, or has called it. */
  ghost predicate Notified(s: State, w: WaiterId) {
    w in Captured(s) || CalledWithBlock(s, w)
  }

  lemma AwaitNotifies(s: State, v: WaiterId, a: AwaitAction, w: WaiterId)
    requires WaiterInv(s) && AwaitEnabled(s, v, a)
    ensures Notified(ApplyAwait(s, v, a), w) <==> Notified(s, w)
  {
    assert v in s.waiters ==> WaiterOK(s.waiters[v], v in s.cancelled);
  }

  lemma PollNotifies(s: State, a: PollAction, w: WaiterId)
    requires CaptureInv(s) && PollEnabled(s, a)
    ensures Notified(ApplyPoll(s, a), w) <==> Notified(s, w) || w in Captured(ApplyPoll(s, a))
  {
    if a.CallNext? {
      HeadWaiters(s.poller.rest);
      assert WaitsFor(s, s.poller.rest[0].waiter, s.poller.block.cid);
    }
  }

  lemma SweepNotifies(s: State, a: SweepAction, w: WaiterId)
    requires ListInv(s) && SweepEnabled(s, a)
    ensures Notified(ApplySweep(s, a), w) <==> Notified(s, w)
  {
    if a.EvictEntry? {
      SwapDeleteWaiters(Swept(s), s.sweeper.i);
      assert WaitsFor(s, Swept(s)[s.sweeper.i].waiter, s.sweeper.cid);
    }
  }

  lemma PutNotifies(s: State, p: PutId, a: PutAction, w: WaiterId)
    requires PutEnabled(s, p, a)
    ensures Notified(ApplyPut(s, p, a), w) <==> Notified(s, w)
  {
  }

  lemma OutsideNotifies(s: State, a: OutsideAction, w: WaiterId)
    ensures Notified(ApplyOutside(s, a), w) <==> Notified(s, w)
  {
  }

  lemma NotifiedStep(s: State, a: Action, w: WaiterId)
    requires Inv(s) && Enabled(s, a)
    ensures Notified(Apply(s, a), w) <==> Notified(s, w) || w in Captured(Apply(s, a))
  {
    if a.Await? {
      AwaitNotifies(s, a.w, a.await, w);
    } else if a.Poll? {
      PollNotifies(s, a.poll, w);
    } else if a.Sweep? {
      SweepNotifies(s, a.sweep, w);
    } else if a.Put? {
      PutNotifies(s, a.p, a.put, w);
    } else {
      OutsideNotifies(s, a.outside, w);
    }
  }

  lemma CapturedLater(s0: State, trace: seq<Action>, w: WaiterId)
    requires trace != []
    ensures CapturedIn(s0, trace, w) <==> CapturedIn(s0, trace[..|trace| - 1], w) || CapturedAt(s0, trace, |trace|, w)
  {
    var prefix := trace[..|trace| - 1];
    forall k | 0 <= k < |trace| ensures CapturedAt(s0, trace, k, w) <==> CapturedAt(s0, prefix, k, w) {
      assert trace[..k] == prefix[..k];
    }
  }

  lemma {:induction false} NotifiedMeansCaptured(timeout: nat, store: map<Cid, nat>, trace: seq<Action>, w: WaiterId)
    requires Run(Init(timeout, store), trace).Some?
    ensures Notified(Run(Init(timeout, store), trace).value, w) <==> CapturedIn(Init(timeout, store), trace, w)
  {
    var s0 := Init(timeout, store);
    if trace == [] {
      assert forall k | 0 <= k <= |trace| :: trace[..k] == trace;
    } else {
      var n := |trace| - 1;
      NotifiedMeansCaptured(timeout, store, trace[..n], w);
      ReachableInv(timeout, store, trace[..n]);
      NotifiedStep(Run(s0, trace[..n]).value, trace[n], w);
      CapturedLater(s0, trace, w);
      assert trace[..|trace|] == trace;
    }
  }

  /** Exactly when a registered waiter, cancelled or not, is called with its block: if
      and only if the notifier took it off the list before the sweep got to it. Else,
      once it has left the list, the sweep has dropped it or reported a timeout. */
  lemma CancelledWaiterIsCalledExactly(timeout: nat, store: map<Cid, nat>, trace: seq<Action>, w: WaiterId)
    requires Run(Init(timeout, store), trace).Some?
    ensures var s := Run(Init(timeout, store), trace).value;
      w in s.waiters && s.waiters[w].registered && !Listed(s, w) && w !in Captured(s) ==>
        var x := s.waiters[w];
        && (CapturedIn(Init(timeout, store), trace, w) <==> exists n :: x.calls == [Arrived(Block(x.cid, n))])
        && (!CapturedIn(Init(timeout, store), trace, w) <==> x.calls == [TimedOut] || x.dropped)
  {
    NotifiedMeansCaptured(timeout, store, trace, w);
    WaiterConservation(timeout, store, trace, w);
  }

  // ----- a run in which a cancelled waiter is called -----

  /** The manager with one registered waiter, 0, for c; the rest as at the start. */
  function Waiting0(timeout: nat, c: Cid): State {
    Init(timeout, map[]).(waiters := map[0 := Waiter(c, AwaitDone(false), true, [], false)],
                          waitList := map[c := [Entry(0, 0)]])
  }

  lemma RegistersFirst(timeout: nat, c: Cid) returns (trace: seq<Action>)
    ensures Run(Init(timeout, map[]), trace) == Some(Waiting0(timeout, c))
  {
    var s0 := Init(timeout, map[]);
    var x := Waiter(c, AwaitLock, false, [], false);
    trace := Extend(s0, [], Await(0, StartAwait(c)));
    var s1 := s0.(waiters := map[0 := x]);
    assert Run(s0, trace) == Some(s1);
    var locked := LockAndCheck(s1, 0, false);
    var more := RegisterRuns(s1, 0, locked, x.(pc := AwaitMissing));
    var done := Waiter(c, AwaitDone(false), true, [], false);
    assert map[0 := x][0 := done] == map[0 := done];
    assert [] + [Entry(0, 0)] == [Entry(0, 0)];
    assert Run(s1, more) == Some(Waiting0(timeout, c));
    RunConcat(s0, trace, more);
    trace := trace + more;
  }

  /** The same with the wait cancelled and its block put and announced. */
  function Cancelled0(timeout: nat, b: Block): State {
    Waiting0(timeout, b.cid).(cancelled := {0}, store := map[b.cid := b.size], putters := map[0 := Announcing([b], 1)],
                              poller := PollLock(b))
  }

  lemma PutAfterCancel(timeout: nat, b: Block) returns (trace: seq<Action>)
    ensures Run(Waiting0(timeout, b.cid), trace) == Some(Cancelled0(timeout, b))
  {
    var s := Waiting0(timeout, b.cid);
    trace := Extend(s, [], Outside(CancelWaiter(0)));
    var s1 := s.(cancelled := {0});
    assert {} + {0} == {0};
    assert Run(s, trace) == Some(s1);
    trace := Extend(s, trace, Put(0, StartPut([b])));
    var s2 := s1.(putters := map[0 := Writing([b], 0)]);
    assert Run(s, trace) == Some(s2);
    trace := Extend(s, trace, Put(0, Write));
    var s3 := s1.(putters := map[0 := Writing([b], 1)], store := map[b.cid := b.size]);
    assert map[0 := Writing([b], 0)][0 := Writing([b], 1)] == map[0 := Writing([b], 1)];
    assert Run(s, trace) == Some(s3);
    trace := Announces(s, trace, s3, b);
  }

  lemma Announces(s: State, before: seq<Action>, s3: State, b: Block) returns (trace: seq<Action>)
    requires Run(s, before) == Some(s3) && s3.putters == map[0 := Writing([b], 1)] && s3.ready == []
    requires s3.poller.PollIdle?
    ensures Run(s, trace) == Some(s3.(putters := map[0 := Announcing([b], 1)], poller := PollLock(b)))
  {
    AnnounceEffects(s3, b);
    trace := Extend(s, before, Put(0, WritesDone));
    trace := Extend(s, trace, Put(0, Announce));
    trace := Extend(s, trace, Poll(Receive));
  }

  lemma AnnounceEffects(s3: State, b: Block)
    requires s3.putters == map[0 := Writing([b], 1)] && s3.ready == [] && s3.poller.PollIdle?
    ensures PutEnabled(s3, 0, WritesDone)
    ensures var s4 := ApplyPut(s3, 0, WritesDone);
      && PutEnabled(s4, 0, Announce)
      && var s5 := ApplyPut(s4, 0, Announce);
         && PollEnabled(s5, Receive)
         && ApplyPoll(s5, Receive) == s3.(putters := map[0 := Announcing([b], 1)], poller := PollLock(b))
  {
    assert map[0 := Writing([b], 1)][0 := Announcing([b], 0)] == map[0 := Announcing([b], 0)];
    assert map[0 := Announcing([b], 0)][0 := Announcing([b], 1)] == map[0 := Announcing([b], 1)];
    assert [] + [b] == [b] && [b][1..] == [];
  }

  lemma NotifyEffects(timeout: nat, b: Block)
    ensures var s := Cancelled0(timeout, b);
      && PollEnabled(s, LockPoller)
      && var s1 := ApplyPoll(s, LockPoller);
         && PollEnabled(s1, TakeBucket)
         && var s2 := ApplyPoll(s1, TakeBucket);
            && PollEnabled(s2, UnlockPoller)
            && var s3 := ApplyPoll(s2, UnlockPoller);
               PollEnabled(s3, CallNext) && CallsOf(ApplyPoll(s3, CallNext), 0) == [Arrived(b)]
  {
    assert [] + [Arrived(b)] == [Arrived(b)];
  }

  /** There is a run in which a waiter is cancelled while it is listed, and is then
      called with its block all the same. */
  lemma CancelledCanBeCalled(timeout: nat, b: Block) returns (before: seq<Action>, after: seq<Action>)
    ensures Run(Init(timeout, map[]), before).Some?
    ensures var s := Run(Init(timeout, map[]), before).value;
      && 0 in s.cancelled && Listed(s, 0) && CallsOf(s, 0) == []
      && Run(s, after).Some? && CallsOf(Run(s, after).value, 0) == [Arrived(b)]
  {
    var registered := RegistersFirst(timeout, b.cid);
    var put := PutAfterCancel(timeout, b);
    RunConcat(Init(timeout, map[]), registered, put);
    before := registered + put;
    var s := Cancelled0(timeout, b);
    assert Entry(0, 0) in Bucket(s.waitList, b.cid);
    NotifyEffects(timeout, b);
    after := Extend(s, [], Poll(LockPoller));
    after := Extend(s, after, Poll(TakeBucket));
    after := Extend(s, after, Poll(UnlockPoller));
    after := Extend(s, after, Poll(CallNext));
  }
}
