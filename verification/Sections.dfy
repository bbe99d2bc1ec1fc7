/** Each critical section of the manager, run without interruption in the
    interleaving model, does to the wait list and to the callbacks what the method
    of the same name in `BlockManager` does to the slices. */
module Sections {
  import opened Common
  import opened WaitList
  import opened WaitProtocol
  import opened WaitInvariants
  import opened BlockManager

  function Performed(fired: Option<Call>): seq<Call> {
    if fired.Some? then [fired.value] else []
  }

  /** The callback invocations of a run, in order. */
  ghost function Log(s: State, trace: seq<Action>): seq<Call>
    requires Run(s, trace).Some?
  {
    if trace == [] then []
    else
      var n := |trace| - 1;
      Log(s, trace[..n]) + Performed(Fires(Run(s, trace[..n]).value, trace[n]))
  }

  lemma Extend(s: State, trace: seq<Action>, a: Action) returns (more: seq<Action>)
    requires Run(s, trace).Some? && Enabled(Run(s, trace).value, a)
    ensures var t := Run(s, trace).value;
      && more == trace + [a]
      && Run(s, more) == Some(Apply(t, a))
      && Log(s, more) == Log(s, trace) + Performed(Fires(t, a))
  {
    more := trace + [a];
    assert more[..|trace|] == trace;
  }

  lemma LastStep(s: State, trace: seq<Action>)
    requires trace != []
    ensures var prefix, a := Run(s, trace[..|trace| - 1]), trace[|trace| - 1];
      Run(s, trace) == if prefix.Some? && Enabled(prefix.value, a) then Some(Apply(prefix.value, a)) else None
  {
  }

  lemma {:induction false} RunConcat(s: State, first: seq<Action>, second: seq<Action>)
    requires Run(s, first).Some? && Run(Run(s, first).value, second).Some?
    ensures Run(s, first + second) == Run(Run(s, first).value, second)
    decreases |second|
  {
    if second == [] {
      assert first + second == first;
    } else {
      var n, both := |second| - 1, first + second;
      RunConcat(s, first, second[..n]);
      assert both[..|both| - 1] == first + second[..n] && both[|both| - 1] == second[n];
      LastStep(s, both);
      LastStep(Run(s, first).value, second);
    }
  }

  /** No AwaitBlock call starts in this run. */
  ghost predicate StartsNone(trace: seq<Action>) {
    forall a | a in trace :: !(a.Await? && a.await.StartAwait?)
  }

  /** The poller notifies, and receives nothing, in this run. */
  ghost predicate OnlyNotifies(trace: seq<Action>) {
    forall a | a in trace :: a.Poll? && !a.poll.Receive?
  }

  /** These entries belong to AwaitBlock calls that were made. */
  predicate Known(s: State, es: seq<Entry>) {
    forall i | 0 <= i < |es| :: es[i].waiter in s.waiters
  }

  ghost predicate AllKnown(s: State) {
    forall c | c in s.waitList :: Known(s, s.waitList[c])
  }

  lemma EntriesAreKnown(s: State)
    requires ListInv(s)
    ensures AllKnown(s)
  {
    forall c | c in s.waitList ensures Known(s, s.waitList[c]) {
      forall i | 0 <= i < |s.waitList[c]| ensures s.waitList[c][i].waiter in s.waiters {
        assert s.waitList[c][i].waiter in WaitersOf(s.waitList[c]);
        assert WaitsFor(s, s.waitList[c][i].waiter, c);
      }
    }
  }

  // ----- the notifier -----

  lemma CallDoes(t: State, b: Block, rest: seq<Entry>)
    requires t.poller == PollCalling(b, rest) && rest != [] && Known(t, rest)
    ensures Enabled(t, Poll(CallNext))
    ensures Fires(t, Poll(CallNext)) == Some(Call(rest[0].waiter, Arrived(b)))
    ensures var u := Apply(t, Poll(CallNext));
      && u == t.(waiters := u.waiters, poller := PollCalling(b, rest[1..]))
      && Known(u, rest[1..])
  {
  }

  lemma FirstAnnouncement(log: seq<Call>, rest: seq<Entry>, b: Block)
    requires rest != []
    ensures log + Announcements(rest, b) == log + [Call(rest[0].waiter, Arrived(b))] + Announcements(rest[1..], b)
  {
    assert Announcements(rest, b) == [Call(rest[0].waiter, Arrived(b))] + Announcements(rest[1..], b);
    Assoc(log, [Call(rest[0].waiter, Arrived(b))], Announcements(rest[1..], b));
  }

  lemma CallRuns(s: State, trace: seq<Action>, b: Block, rest: seq<Entry>) returns (next: seq<Action>)
    requires Run(s, trace).Some? && Run(s, trace).value.poller == PollCalling(b, rest) && rest != []
    requires Known(Run(s, trace).value, rest) && OnlyNotifies(trace)
    ensures Run(s, next).Some? && OnlyNotifies(next)
    ensures var t, u := Run(s, trace).value, Run(s, next).value;
      && u == t.(waiters := u.waiters, poller := PollCalling(b, rest[1..]))
      && Known(u, rest[1..])
      && Log(s, next) == Log(s, trace) + [Call(rest[0].waiter, Arrived(b))]
  {
    CallDoes(Run(s, trace).value, b, rest);
    next := Extend(s, trace, Poll(CallNext));
  }

  lemma {:induction false} CallsRun(s: State, trace: seq<Action>, b: Block, rest: seq<Entry>)
    returns (more: seq<Action>)
    requires Run(s, trace).Some? && Run(s, trace).value.poller == PollCalling(b, rest)
    requires Known(Run(s, trace).value, rest) && OnlyNotifies(trace)
    ensures Run(s, more).Some? && OnlyNotifies(more)
    ensures var t, u := Run(s, trace).value, Run(s, more).value;
      && u == t.(waiters := u.waiters, poller := PollIdle)
      && Log(s, more) == Log(s, trace) + Announcements(rest, b)
    decreases |rest|
  {
    var t := Run(s, trace).value;
    if rest == [] {
      more := Extend(s, trace, Poll(PollDone));
    } else {
      var next := CallRuns(s, trace, b, rest);
      more := CallsRun(s, next, b, rest[1..]);
      FirstAnnouncement(Log(s, trace), rest, b);
    }
  }

  /** notifyWaitCallbacks without interruption does what `BlockManager.Manager.Notify`
      does: the bucket leaves the list and each of its entries is called in order. */
  lemma NotifyIsASection(s: State) returns (trace: seq<Action>)
    requires Inv(s) && s.poller.PollLock? && s.lock.Free?
    ensures Run(s, trace).Some? && OnlyNotifies(trace)
    ensures var t := Run(s, trace).value;
      && t == s.(waiters := t.waiters, poller := PollIdle, waitList := Without(s.waitList, s.poller.block.cid))
      && Log(s, trace) == Announcements(Bucket(s.waitList, s.poller.block.cid), s.poller.block)
  {
    var b := s.poller.block;
    EntriesAreKnown(s);
    trace := Extend(s, [], Poll(LockPoller));
    trace := Extend(s, trace, Poll(TakeBucket));
    trace := Extend(s, trace, Poll(UnlockPoller));
    trace := CallsRun(s, trace, b, Bucket(s.waitList, b.cid));
    assert [] + Announcements(Bucket(s.waitList, b.cid), b) == Announcements(Bucket(s.waitList, b.cid), b);
  }

  // ----- AwaitBlock -----

  /** s with AwaitBlock call w at x, holding the lock or not. */
  function With(s: State, w: WaiterId, x: Waiter, lock: Holder, wl: Buckets): State {
    s.(waiters := s.waiters[w := x], lock := lock, waitList := wl)
  }

  /** Where CheckStore leaves the call. */
  function Checked(seen: Lookup): AwaitPc {
    match seen
    case Absent => AwaitMissing
    case Present(size) => AwaitPresent(size)
    case Fault => AwaitErred
  }

  lemma LockAndCheck(s: State, w: WaiterId, fault: bool) returns (trace: seq<Action>)
    requires w in s.waiters && s.waiters[w].pc.AwaitLock? && s.lock.Free?
    ensures Run(s, trace) == Some(With(s, w, s.waiters[w].(pc := Checked(LookUp(s.store, s.waiters[w].cid, fault))),
                                       HeldBy(w), s.waitList))
    ensures Log(s, trace) == [] && StartsNone(trace)
  {
    var x := s.waiters[w];
    trace := Extend(s, [], Await(w, LockWaiter));
    UpdateTwice(s.waiters, w, x.(pc := AwaitCheck), x.(pc := Checked(LookUp(s.store, x.cid, fault))));
    trace := Extend(s, trace, Await(w, CheckStore(fault)));
  }

  /** The rest of the call on the missing path. */
  lemma RegisterRuns(s: State, w: WaiterId, trace: seq<Action>, x: Waiter) returns (more: seq<Action>)
    requires s.lock.Free? && w in s.waiters && x.pc.AwaitMissing? && StartsNone(trace)
    requires Run(s, trace) == Some(With(s, w, x, HeldBy(w), s.waitList))
    ensures Run(s, more) == Some(With(s, w, x.(pc := AwaitDone(false), registered := true), Free,
                                      WaitList.Append(s.waitList, x.cid, Entry(w, s.clock))))
    ensures Log(s, more) == Log(s, trace) && StartsNone(more)
  {
    var y := x.(pc := AwaitAppended, registered := true);
    var wl := WaitList.Append(s.waitList, x.cid, Entry(w, s.clock));
    UpdateTwice(s.waiters, w, x, y);
    more := Extend(s, trace, Await(w, Register));
    assert Run(s, more) == Some(With(s, w, y, HeldBy(w), wl));
    UpdateTwice(s.waiters, w, y, y.(pc := AwaitDone(false)));
    more := Extend(s, more, Await(w, UnlockWaiter));
  }

  /** What a call that registered nothing calls back with. */
  function Answered(x: Waiter): Result {
    if x.pc.AwaitPresent? then Arrived(Block(x.cid, x.pc.size)) else LoadError
  }

  /** Unlocked, and about to call back. */
  function Unlocked(x: Waiter): Waiter {
    x.(pc := if x.pc.AwaitPresent? then AwaitHit(x.pc.size) else AwaitFail)
  }

  lemma UnlockRuns(s: State, w: WaiterId, trace: seq<Action>, x: Waiter) returns (more: seq<Action>)
    requires s.lock.Free? && w in s.waiters && (x.pc.AwaitPresent? || x.pc.AwaitErred?) && StartsNone(trace)
    requires Run(s, trace) == Some(With(s, w, x, HeldBy(w), s.waitList))
    ensures Run(s, more) == Some(With(s, w, Unlocked(x), Free, s.waitList)) && Log(s, more) == Log(s, trace)
    ensures StartsNone(more)
  {
    UpdateTwice(s.waiters, w, x, Unlocked(x));
    more := Extend(s, trace, Await(w, UnlockWaiter));
  }

  /** The rest of the call when the store answered with the block or an error. */
  lemma AnswerRuns(s: State, w: WaiterId, trace: seq<Action>, x: Waiter) returns (more: seq<Action>)
    requires s.lock.Free? && w in s.waiters && (x.pc.AwaitPresent? || x.pc.AwaitErred?) && StartsNone(trace)
    requires Run(s, trace) == Some(With(s, w, x, HeldBy(w), s.waitList))
    ensures Run(s, more) == Some(With(s, w, x.(pc := AwaitDone(x.pc.AwaitPresent?), calls := x.calls + [Answered(x)]),
                                      Free, s.waitList))
    ensures Log(s, more) == Log(s, trace) + [Call(w, Answered(x))]
  {
    var unlocked := UnlockRuns(s, w, trace, x);
    UpdateTwice(s.waiters, w, Unlocked(x), x.(pc := AwaitDone(x.pc.AwaitPresent?), calls := x.calls + [Answered(x)]));
    more := Extend(s, unlocked, Await(w, CallWaiter));
  }

  /** AwaitBlock without interruption does what `BlockManager.Manager.AwaitBlock` does
      with the lookup of the store: it returns true exactly if the block is there,
      registers exactly if it is not, and otherwise calls back at once. */
  lemma AwaitIsASection(s: State, w: WaiterId, fault: bool) returns (trace: seq<Action>)
    requires w in s.waiters && s.waiters[w].pc.AwaitLock? && s.lock.Free?
    ensures Run(s, trace).Some?
    ensures var t := Run(s, trace).value;
      var c := s.waiters[w].cid;
      var seen := LookUp(s.store, c, fault);
      && t == s.(waiters := t.waiters, waitList := t.waitList)
      && w in t.waiters && t.waiters[w].pc == AwaitDone(seen.Present?)
      && t.waitList == (if seen.Absent? then WaitList.Append(s.waitList, c, Entry(w, s.clock)) else s.waitList)
      && Log(s, trace) == match seen
           case Absent => []
           case Present(size) => [Call(w, Arrived(Block(c, size)))]
           case Fault => [Call(w, LoadError)]
  {
    var seen := LookUp(s.store, s.waiters[w].cid, fault);
    var x := s.waiters[w].(pc := Checked(seen));
    trace := LockAndCheck(s, w, fault);
    if seen.Absent? {
      trace := RegisterRuns(s, w, trace, x);
    } else {
      trace := AnswerRuns(s, w, trace, x);
    }
  }
}
