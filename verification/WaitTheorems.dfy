/** Whole-run properties of the block manager: no lost wakeup, conservation of
    waiters, at most one callback per waiter. Every theorem is about every
    trace of every interleaving. */
module WaitTheorems {
  import opened Common
  import opened WaitList
  import opened WaitProtocol
  import opened WaitInvariants

  lemma {:induction false} ReachableInv(timeout: nat, store: map<Cid, nat>, trace: seq<Action>)
    requires Run(Init(timeout, store), trace).Some?
    ensures Inv(Run(Init(timeout, store), trace).value)
  {
    if trace == [] {
      InitInv(timeout, store);
    } else {
      var prefix := trace[..|trace| - 1];
      ReachableInv(timeout, store, prefix);
      Step(Run(Init(timeout, store), prefix).value, trace[|trace| - 1]);
    }
  }

  // ----- no lost wakeup -----

  /** The action after which a stored block may stay unannounced for good. */
  ghost predicate Skips(s: State, a: Action, c: Cid)
    requires Enabled(s, a)
  {
    match a
    case Put(p, GiveUp) => c in Owed(s.putters[p])
    case Put(p, WriteFails) => c in Owed(s.putters[p])
    case Outside(SilentWrite(b)) => c == b.cid
    case _ => false
  }

  /** Some action of the trace skipped an announcement that w was relying on. */
  ghost predicate SkippedFor(s0: State, trace: seq<Action>, w: WaiterId) {
    exists k | 0 <= k < |trace| :: SkippedAt(s0, trace, k, w)
  }

  ghost predicate SkippedAt(s0: State, trace: seq<Action>, k: nat, w: WaiterId)
    requires k < |trace|
  {
    var s := Run(s0, trace[..k]);
    s.Some? && Enabled(s.value, trace[k]) && Exposed(s.value, w) && Skips(s.value, trace[k], s.value.waiters[w].cid)
  }

  lemma PutMisses(s: State, p: PutId, a: PutAction, w: WaiterId)
    requires PutEnabled(s, p, a)
    ensures w in ApplyPut(s, p, a).missed <==>
      w in s.missed || (Exposed(s, w) && (a.GiveUp? || a.WriteFails?) && s.waiters[w].cid in Owed(s.putters[p]))
  {
  }

  lemma OutsideMisses(s: State, a: OutsideAction, w: WaiterId)
    ensures w in ApplyOutside(s, a).missed <==>
      w in s.missed || (Exposed(s, w) && a.SilentWrite? && s.waiters[w].cid == a.block.cid)
  {
  }

  lemma MissedStep(s: State, a: Action, w: WaiterId)
    requires Enabled(s, a)
    ensures w in Apply(s, a).missed <==> w in s.missed || (Exposed(s, w) && Skips(s, a, s.waiters[w].cid))
  {
    if a.Put? {
      PutMisses(s, a.p, a.put, w);
    } else if a.Outside? {
      OutsideMisses(s, a.outside, w);
    }
  }

  lemma SkippedStep(s0: State, trace: seq<Action>, w: WaiterId)
    requires trace != []
    ensures var n := |trace| - 1;
      SkippedFor(s0, trace, w) <==> SkippedFor(s0, trace[..n], w) || SkippedAt(s0, trace, n, w)
  {
    var n := |trace| - 1;
    var prefix := trace[..n];
    forall k | 0 <= k < n ensures SkippedAt(s0, trace, k, w) <==> SkippedAt(s0, prefix, k, w) {
      assert trace[..k] == prefix[..k];
    }
  }

  /** `missed` is exactly the set of waiters an announcement was skipped for. */
  lemma {:induction false} MissedMeansSkipped(timeout: nat, store: map<Cid, nat>, trace: seq<Action>, w: WaiterId)
    requires Run(Init(timeout, store), trace).Some?
    ensures w in Run(Init(timeout, store), trace).value.missed <==> SkippedFor(Init(timeout, store), trace, w)
  {
    if trace != [] {
      var n := |trace| - 1;
      MissedMeansSkipped(timeout, store, trace[..n], w);
      SkippedStep(Init(timeout, store), trace, w);
      MissedStep(Run(Init(timeout, store), trace[..n]).value, trace[n], w);
    }
  }

  /** No lost wakeup: whenever a waiter relies on an announcement of a block that
      is stored, that announcement is still on its way to the notifier's lock
      section, unless one was skipped after the waiter's own lookup. */
  lemma NoLostWakeup(timeout: nat, store: map<Cid, nat>, trace: seq<Action>, w: WaiterId)
    requires Run(Init(timeout, store), trace).Some?
    ensures var s := Run(Init(timeout, store), trace).value;
      Exposed(s, w) && s.waiters[w].cid in s.store && !SkippedFor(Init(timeout, store), trace, w)
      ==> Pending(s, s.waiters[w].cid)
  {
    ReachableInv(timeout, store, trace);
    MissedMeansSkipped(timeout, store, trace, w);
  }

  /** Nothing is stored but unannounced, queued, or on its way to the lock section. */
  ghost predicate Settled(s: State) {
    && (forall p | p in s.putters :: s.putters[p].PutDone?)
    && s.ready == []
    && !s.poller.PollLock? && !s.poller.PollTake?
  }

  /** At rest, a block that is waited for is not in the store. */
  lemma SettledWaitersAreMissing(timeout: nat, store: map<Cid, nat>, trace: seq<Action>, w: WaiterId)
    requires Run(Init(timeout, store), trace).Some?
    ensures var s := Run(Init(timeout, store), trace).value;
      Settled(s) && Listed(s, w) && !SkippedFor(Init(timeout, store), trace, w) ==> s.waiters[w].cid !in s.store
  {
    NoLostWakeup(timeout, store, trace, w);
  }

  /** The exception is real: in any reachable state at rest, a write through the
      inner store leaves a listed waiter listed, with its block stored and no
      announcement under way. */
  lemma SilentWriteLosesWakeup(s: State, w: WaiterId, size: nat)
    requires Inv(s) && Settled(s) && Listed(s, w)
    ensures var c := s.waiters[w].cid;
      var t := Apply(s, Outside(SilentWrite(Block(c, size))));
      Settled(t) && Listed(t, w) && c in t.store && !Pending(t, c) && w in t.missed
  {
  }

  // ----- conservation of waiters -----

  function One(b: bool): nat {
    if b then 1 else 0
  }

  /** Each registered waiter is in exactly one place: listed (at one index of one
      bucket), captured by the notifier, called back, or dropped with a cancelled
      context; and what a registered waiter is called with is its block or the timeout. */
  lemma WaiterConservation(timeout: nat, store: map<Cid, nat>, trace: seq<Action>, w: WaiterId)
    requires Run(Init(timeout, store), trace).Some?
    ensures var s := Run(Init(timeout, store), trace).value;
      w in s.waiters && s.waiters[w].registered ==>
        var x := s.waiters[w];
        && One(Listed(s, w)) + One(w in Captured(s)) + |x.calls| + One(x.dropped) == 1
        && (x.dropped ==> w in s.cancelled)
        && (x.calls != [] ==> x.calls == [TimedOut] || (exists n :: x.calls == [Arrived(Block(x.cid, n))]))
  {
    ReachableInv(timeout, store, trace);
    var s := Run(Init(timeout, store), trace).value;
    if w in s.waiters && s.waiters[w].registered && s.waiters[w].calls != [] && !s.waiters[w].calls[0].TimedOut? {
      var x := s.waiters[w];
      assert x.calls == [Arrived(Block(x.cid, x.calls[0].block.size))];
    }
  }

  // ----- a block that was put reaches its waiters -----

  /** The configured timeout never changes; with none, nothing is ever swept. */
  ghost predicate Unswept(s: State, timeout: nat) {
    && s.timeout == timeout
    && (timeout == 0 ==> s.sweeper.SweepIdle?)
    && (timeout == 0 ==> forall w | w in s.waiters :: !s.waiters[w].dropped && TimedOut !in s.waiters[w].calls)
  }

  lemma UnsweptAwait(s: State, timeout: nat, w: WaiterId, a: AwaitAction)
    requires Unswept(s, timeout) && AwaitEnabled(s, w, a)
    ensures Unswept(ApplyAwait(s, w, a), timeout)
  {
  }

  lemma UnsweptPoll(s: State, timeout: nat, a: PollAction)
    requires Unswept(s, timeout) && PollEnabled(s, a)
    ensures Unswept(ApplyPoll(s, a), timeout)
  {
  }

  lemma UnsweptSweep(s: State, timeout: nat, a: SweepAction)
    requires Unswept(s, timeout) && SweepEnabled(s, a)
    ensures Unswept(ApplySweep(s, a), timeout)
  {
  }

  lemma UnsweptStep(s: State, timeout: nat, a: Action)
    requires Unswept(s, timeout) && Enabled(s, a)
    ensures Unswept(Apply(s, a), timeout)
  {
    if a.Await? {
      UnsweptAwait(s, timeout, a.w, a.await);
    } else if a.Poll? {
      UnsweptPoll(s, timeout, a.poll);
    } else if a.Sweep? {
      UnsweptSweep(s, timeout, a.sweep);
    }
  }

  lemma {:induction false} NoTimeoutNoSweep(timeout: nat, store: map<Cid, nat>, trace: seq<Action>)
    requires Run(Init(timeout, store), trace).Some?
    ensures Unswept(Run(Init(timeout, store), trace).value, timeout)
  {
    if trace != [] {
      var n := |trace| - 1;
      NoTimeoutNoSweep(timeout, store, trace[..n]);
      UnsweptStep(Run(Init(timeout, store), trace[..n]).value, timeout, trace[n]);
    }
  }

  /** At rest, every registered waiter whose block is stored, and for which no
      announcement was skipped, has been answered: called exactly once, or dropped
      by the sweep with its context cancelled. With no timeout configured it was
      called exactly once, with its block. */
  lemma StoredMeansAnswered(timeout: nat, store: map<Cid, nat>, trace: seq<Action>, w: WaiterId)
    requires Run(Init(timeout, store), trace).Some?
    ensures var s := Run(Init(timeout, store), trace).value;
      && w in s.waiters && s.waiters[w].registered && s.waiters[w].cid in s.store
      && Settled(s) && s.poller.PollIdle? && !SkippedFor(Init(timeout, store), trace, w) ==>
        var x := s.waiters[w];
        && (|x.calls| == 1 || (x.dropped && w in s.cancelled))
        && (timeout == 0 ==> exists n :: x.calls == [Arrived(Block(x.cid, n))])
  {
    NoLostWakeup(timeout, store, trace, w);
    WaiterConservation(timeout, store, trace, w);
    NoTimeoutNoSweep(timeout, store, trace);
  }

  /** An entry stands at one index of its own CID's bucket and nowhere else. */
  lemma EntriesAreUnique(timeout: nat, store: map<Cid, nat>, trace: seq<Action>, c: Cid, i: nat, d: Cid, j: nat)
    requires Run(Init(timeout, store), trace).Some?
    ensures var wl := Run(Init(timeout, store), trace).value.waitList;
      i < |Bucket(wl, c)| && j < |Bucket(wl, d)| && Bucket(wl, c)[i].waiter == Bucket(wl, d)[j].waiter ==>
        c == d && i == j
  {
    ReachableInv(timeout, store, trace);
    var s := Run(Init(timeout, store), trace).value;
    if i < |Bucket(s.waitList, c)| && j < |Bucket(s.waitList, d)| {
      assert Bucket(s.waitList, c)[i].waiter in WaitersOf(s.waitList[c]);
      assert Bucket(s.waitList, d)[j].waiter in WaitersOf(s.waitList[d]);
    }
  }

  ghost function CallsOf(s: State, w: WaiterId): seq<Result> {
    if w in s.waiters then s.waiters[w].calls else []
  }

  /** Every AwaitBlock callback runs at most once in any run; a returned call that
      did not register ran it exactly once, with the block iff it returned true. */
  lemma CalledAtMostOnce(timeout: nat, store: map<Cid, nat>, trace: seq<Action>, w: WaiterId)
    requires Run(Init(timeout, store), trace).Some?
    ensures var s := Run(Init(timeout, store), trace).value;
      && |CallsOf(s, w)| <= 1
      && (w in s.waiters && s.waiters[w].pc.AwaitDone? && !s.waiters[w].registered ==>
            |CallsOf(s, w)| == 1
            && (CallsOf(s, w)[0].Arrived? <==> s.waiters[w].pc.found)
            && (CallsOf(s, w)[0].LoadError? <==> !s.waiters[w].pc.found))
      && (w in s.waiters && s.waiters[w].pc == AwaitDone(true) ==> !s.waiters[w].registered)
  {
    ReachableInv(timeout, store, trace);
  }

  /** w is called exactly as fired says; it is never renamed, and once its
      AwaitBlock has returned it stays returned. */
  ghost predicate Logged(s: State, t: State, fired: Option<Call>, w: WaiterId) {
    && CallsOf(t, w) == CallsOf(s, w) + (if fired.Some? && fired.value.w == w then [fired.value.r] else [])
    && (w in s.waiters ==>
          w in t.waiters
          && t.waiters[w].cid == s.waiters[w].cid
          && (s.waiters[w].pc.AwaitDone? ==> t.waiters[w].pc == s.waiters[w].pc))
  }

  predicate Starts(a: Action, w: WaiterId) {
    a.Await? && a.await.StartAwait? && a.w == w
  }

  lemma AwaitLogged(s: State, a: Action, w: WaiterId)
    requires a.Await? && Enabled(s, a)
    ensures Logged(s, ApplyAwait(s, a.w, a.await), Fires(s, a), w)
    ensures w in ApplyAwait(s, a.w, a.await).waiters ==> w in s.waiters || Starts(a, w)
  {
  }

  lemma PollLogged(s: State, a: Action, w: WaiterId)
    requires a.Poll? && Enabled(s, a)
    ensures Logged(s, ApplyPoll(s, a.poll), Fires(s, a), w)
    ensures w in ApplyPoll(s, a.poll).waiters ==> w in s.waiters
  {
  }

  lemma SweepLogged(s: State, a: Action, w: WaiterId)
    requires a.Sweep? && Enabled(s, a)
    ensures Logged(s, ApplySweep(s, a.sweep), Fires(s, a), w)
    ensures w in ApplySweep(s, a.sweep).waiters ==> w in s.waiters
  {
  }

  /** The call history is a log: a step appends the invocation it performs and
      changes nothing else in it; only StartAwait adds a waiter. */
  lemma CallsAreALog(s: State, a: Action, w: WaiterId)
    requires Enabled(s, a)
    ensures Logged(s, Apply(s, a), Fires(s, a), w)
    ensures w in Apply(s, a).waiters ==> w in s.waiters || Starts(a, w)
  {
    if a.Await? {
      AwaitLogged(s, a, w);
    } else if a.Poll? {
      PollLogged(s, a, w);
    } else if a.Sweep? {
      SweepLogged(s, a, w);
    }
  }

  // ----- time and contexts -----

  lemma AwaitTime(s: State, w: WaiterId, a: AwaitAction)
    requires AwaitEnabled(s, w, a)
    ensures var t := ApplyAwait(s, w, a);
      t.timeout == s.timeout && s.clock == t.clock && s.cancelled == t.cancelled && t.sweeper == s.sweeper
  {
  }

  lemma PutTime(s: State, p: PutId, a: PutAction)
    requires PutEnabled(s, p, a)
    ensures var t := ApplyPut(s, p, a);
      && t.timeout == s.timeout && s.clock == t.clock && s.cancelled == t.cancelled && t.sweeper == s.sweeper
      && t.waitList == s.waitList && t.waiters == s.waiters && t.lock == s.lock
  {
  }

  lemma OutsideTime(s: State, a: OutsideAction)
    ensures var t := ApplyOutside(s, a);
      && t.timeout == s.timeout && s.clock <= t.clock && t.sweeper == s.sweeper
      && t.cancelled == s.cancelled + (if a.CancelWaiter? then {a.w} else {})
      && t.waitList == s.waitList && t.waiters == s.waiters && t.lock == s.lock
  {
  }

  lemma SweepTime(s: State, a: SweepAction)
    requires SweepEnabled(s, a)
    ensures var t := ApplySweep(s, a); t.timeout == s.timeout && s.clock == t.clock && s.cancelled == t.cancelled
  {
  }

  lemma PollTime(s: State, a: PollAction)
    requires PollEnabled(s, a)
    ensures var t := ApplyPoll(s, a);
      t.timeout == s.timeout && s.clock == t.clock && s.cancelled == t.cancelled && t.sweeper == s.sweeper
  {
  }

  /** The timeout stays, time does not go back, and contexts stay cancelled. */
  lemma TimeGoesOn(s: State, a: Action)
    requires Enabled(s, a)
    ensures var t := Apply(s, a);
      && t.timeout == s.timeout && s.clock <= t.clock && s.cancelled <= t.cancelled
      && forall w :: w in t.cancelled <==> w in s.cancelled || a == Outside(CancelWaiter(w))
  {
    if a.Await? {
      AwaitTime(s, a.w, a.await);
    } else if a.Put? {
      PutTime(s, a.p, a.put);
    } else if a.Poll? {
      PollTime(s, a.poll);
    } else if a.Sweep? {
      SweepTime(s, a.sweep);
    } else if a.Outside? {
      OutsideTime(s, a.outside);
    }
  }

  /** The sweep reports a timeout to exactly the evicted entries whose context is
      still live, all of them expired, and drops exactly the cancelled ones. */
  lemma EvictionVerdict(s: State)
    requires Inv(s) && Enabled(s, Sweep(EvictEntry))
    ensures var e := Swept(s)[s.sweeper.i];
      var t := ApplySweep(s, EvictEntry);
      if e.waiter in s.cancelled then CallsOf(t, e.waiter) == [] && t.waiters[e.waiter].dropped
      else s.clock - e.registeredAt > s.timeout && CallsOf(t, e.waiter) == [TimedOut] && !t.waiters[e.waiter].dropped
  {
    SwapDeleteWaiters(Swept(s), s.sweeper.i);
  }
}
