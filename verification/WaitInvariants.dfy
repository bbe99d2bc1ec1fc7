/** What every step of the block manager keeps. */
module WaitInvariants {
  import opened Common
  import opened WaitList
  import opened WaitProtocol

  /** waitListLk is held by exactly the goroutine whose program counter says so. */
  ghost predicate LockInv(s: State) {
    && (forall w | w in s.waiters :: HoldsLock(s.waiters[w].pc) <==> s.lock == HeldBy(w))
    && (s.lock.HeldBy? ==> s.lock.w in s.waiters)
    && (s.lock.HeldByPoller? <==> s.poller.PollTake? || s.poller.PollTook?)
    && (s.lock.HeldBySweeper? <==> s.sweeper.SweepRange? || s.sweeper.SweepAt? || s.sweeper.SweepDoomed?)
  }

  ghost predicate WaiterOK(x: Waiter, cancelled: bool) {
    && |x.calls| <= 1
    && (x.dropped ==> x.registered && x.calls == [] && cancelled)
    && (x.registered ==> (x.pc.AwaitAppended? || x.pc == AwaitDone(false)))
    && (x.registered && x.calls != [] ==>
          x.calls[0].TimedOut? || (x.calls[0].Arrived? && x.calls[0].block.cid == x.cid))
    && (x.pc.AwaitAppended? ==> x.registered)
    && (!x.registered && !x.pc.AwaitDone? ==> x.calls == [])
    && (!x.registered && x.pc.AwaitDone? ==>
          |x.calls| == 1
          && if x.pc.found then x.calls[0].Arrived? && x.calls[0].block.cid == x.cid else x.calls[0] == LoadError)
  }

  ghost predicate WaiterInv(s: State) {
    forall w | w in s.waiters :: WaiterOK(s.waiters[w], w in s.cancelled)
  }

  /** w is on the books for c: registered there, not called, not dropped. */
  ghost predicate WaitsFor(s: State, w: WaiterId, c: Cid) {
    w in s.waiters && s.waiters[w].cid == c && Waiting(s.waiters[w])
  }

  /** Every entry of the list belongs to one uncalled waiter for that CID, once. */
  ghost predicate ListInv(s: State) {
    forall c | c in s.waitList ::
      && DistinctWaiters(s.waitList[c])
      && (forall w | w in WaitersOf(s.waitList[c]) :: WaitsFor(s, w, c) && w !in Captured(s))
  }

  ghost predicate CaptureInv(s: State) {
    s.poller.PollTook? || s.poller.PollCalling? ==>
      DistinctWaiters(s.poller.rest) && (forall w | w in WaitersOf(s.poller.rest) :: WaitsFor(s, w, s.poller.block.cid))
  }

  /** No waiter is forgotten: an uncalled, undropped one is listed or captured. */
  ghost predicate CoverInv(s: State) {
    forall w | w in s.waiters && Waiting(s.waiters[w]) :: Listed(s, w) || w in Captured(s)
  }

  ghost predicate Doomed(s: State, e: Entry) {
    e.waiter in s.cancelled || Expired(s, e)
  }

  /** The sweep stands inside a bucket that exists; every other bucket is non-empty. */
  ghost predicate SweepInv(s: State) {
    && (s.sweeper.SweepAt? || s.sweeper.SweepDoomed? ==>
          s.sweeper.cid in s.waitList && s.sweeper.cid !in s.sweeper.todo)
    && (s.sweeper.SweepAt? ==> s.sweeper.i <= |s.waitList[s.sweeper.cid]|)
    && (s.sweeper.SweepDoomed? ==> s.sweeper.i < |s.waitList[s.sweeper.cid]|
                                   && Doomed(s, s.waitList[s.sweeper.cid][s.sweeper.i]))
    && (s.sweeper.SweepRange? || s.sweeper.SweepAt? || s.sweeper.SweepDoomed? ==> s.sweeper.todo <= s.waitList.Keys)
    && (forall c | c in s.waitList :: s.waitList[c] == [] ==> s.sweeper.SweepAt? && s.sweeper.cid == c)
  }

  ghost predicate PutInv(s: State) {
    && (forall p | p in s.putters :: s.putters[p].PutDone? || s.putters[p].n <= |s.putters[p].blocks|)
    && |s.ready| <= CHANNEL_CAPACITY
  }

  /** A stored block is never silently waited for. */
  ghost predicate WakeInv(s: State) {
    forall w | Exposed(s, w) && w !in s.missed && s.waiters[w].cid in s.store :: Pending(s, s.waiters[w].cid)
  }

  ghost predicate ControlInv(s: State) {
    LockInv(s) && WaiterInv(s) && SweepInv(s) && PutInv(s)
  }

  ghost predicate BookInv(s: State) {
    ListInv(s) && CaptureInv(s) && CoverInv(s)
  }

  ghost predicate Inv(s: State) {
    ControlInv(s) && BookInv(s) && WakeInv(s)
  }

  lemma InitInv(timeout: nat, store: map<Cid, nat>)
    ensures Inv(Init(timeout, store))
  {
  }

  // ----- control: locks, program counters, callback counts -----

  /** Only w's program counter moves, and it is right about the lock. */
  lemma OneWaiterLocks(s: State, t: State, w: WaiterId)
    requires LockInv(s) && w in t.waiters && t.waiters == s.waiters[w := t.waiters[w]]
    requires t.poller == s.poller && t.sweeper == s.sweeper
    requires t.lock == s.lock || (t.lock == HeldBy(w) && s.lock.Free?) || (t.lock.Free? && s.lock == HeldBy(w))
    requires HoldsLock(t.waiters[w].pc) <==> t.lock == HeldBy(w)
    ensures LockInv(t)
  {
  }

  lemma AwaitLocks(s: State, w: WaiterId, a: AwaitAction)
    requires LockInv(s) && AwaitEnabled(s, w, a)
    ensures LockInv(ApplyAwait(s, w, a))
  {
    OneWaiterLocks(s, ApplyAwait(s, w, a), w);
  }

  lemma AwaitWaiters(s: State, w: WaiterId, a: AwaitAction)
    requires WaiterInv(s) && AwaitEnabled(s, w, a)
    ensures WaiterInv(ApplyAwait(s, w, a))
  {
  }

  lemma AwaitSweep(s: State, w: WaiterId, a: AwaitAction)
    requires LockInv(s) && SweepInv(s) && PutInv(s) && AwaitEnabled(s, w, a)
    ensures SweepInv(ApplyAwait(s, w, a)) && PutInv(ApplyAwait(s, w, a))
  {
  }

  lemma PutControl(s: State, p: PutId, a: PutAction)
    requires ControlInv(s) && PutEnabled(s, p, a)
    ensures ControlInv(ApplyPut(s, p, a))
  {
  }

  lemma PollControl(s: State, a: PollAction)
    requires ControlInv(s) && CaptureInv(s) && PollEnabled(s, a)
    ensures ControlInv(ApplyPoll(s, a))
  {
    if a.CallNext? {
      HeadWaiters(s.poller.rest);
    }
  }

  lemma SweepControl(s: State, a: SweepAction)
    requires ControlInv(s) && ListInv(s) && SweepEnabled(s, a)
    ensures ControlInv(ApplySweep(s, a))
  {
    if a.EvictEntry? {
      SwapDeleteWaiters(Swept(s), s.sweeper.i);
    }
  }

  lemma OutsideControl(s: State, a: OutsideAction)
    requires ControlInv(s)
    ensures ControlInv(ApplyOutside(s, a))
  {
  }

  // ----- books: who is listed, who is captured -----

  /** The step moves no waiter on or off the books. */
  ghost predicate SameBooks(s: State, t: State) {
    && t.waitList == s.waitList
    && Captured(t) == Captured(s)
    && (t.poller.PollTook? || t.poller.PollCalling? ==>
          (s.poller.PollTook? || s.poller.PollCalling?)
          && t.poller.rest == s.poller.rest && t.poller.block == s.poller.block)
    && s.waiters.Keys <= t.waiters.Keys
    && (forall w | w in t.waiters ::
          if w in s.waiters then
            t.waiters[w].cid == s.waiters[w].cid && (Waiting(t.waiters[w]) <==> Waiting(s.waiters[w]))
          else !Waiting(t.waiters[w]))
  }

  lemma SameBooksKept(s: State, t: State)
    requires BookInv(s) && SameBooks(s, t)
    ensures BookInv(t)
  {
  }

  lemma RegisterList(s: State, w: WaiterId)
    requires ControlInv(s) && BookInv(s) && AwaitEnabled(s, w, Register)
    ensures ListInv(ApplyAwait(s, w, Register))
  {
    AppendWaiters(Bucket(s.waitList, s.waiters[w].cid), Entry(w, s.clock));
  }

  lemma RegisterCover(s: State, w: WaiterId)
    requires ControlInv(s) && BookInv(s) && AwaitEnabled(s, w, Register)
    ensures CaptureInv(ApplyAwait(s, w, Register)) && CoverInv(ApplyAwait(s, w, Register))
  {
    AppendWaiters(Bucket(s.waitList, s.waiters[w].cid), Entry(w, s.clock));
  }

  lemma AwaitSameBooks(s: State, w: WaiterId, a: AwaitAction)
    requires WaiterInv(s) && AwaitEnabled(s, w, a) && !a.Register?
    ensures SameBooks(s, ApplyAwait(s, w, a))
  {
    assert w in s.waiters ==> WaiterOK(s.waiters[w], w in s.cancelled);
  }

  lemma AwaitBooks(s: State, w: WaiterId, a: AwaitAction)
    requires ControlInv(s) && BookInv(s) && AwaitEnabled(s, w, a)
    ensures BookInv(ApplyAwait(s, w, a))
  {
    if a.Register? {
      RegisterList(s, w);
      RegisterCover(s, w);
    } else {
      AwaitSameBooks(s, w, a);
      SameBooksKept(s, ApplyAwait(s, w, a));
    }
  }

  lemma CallBooks(s: State)
    requires BookInv(s) && PollEnabled(s, CallNext)
    ensures BookInv(ApplyPoll(s, CallNext))
  {
    HeadWaiters(s.poller.rest);
  }

  lemma TakeBooks(s: State)
    requires BookInv(s) && PollEnabled(s, TakeBucket)
    ensures BookInv(ApplyPoll(s, TakeBucket))
  {
  }

  lemma PollBooks(s: State, a: PollAction)
    requires ControlInv(s) && BookInv(s) && PollEnabled(s, a)
    ensures BookInv(ApplyPoll(s, a))
  {
    if a.CallNext? {
      CallBooks(s);
    } else if a.TakeBucket? {
      TakeBooks(s);
    } else {
      SameBooksKept(s, ApplyPoll(s, a));
    }
  }

  lemma EvictList(s: State)
    requires ControlInv(s) && BookInv(s) && SweepEnabled(s, EvictEntry)
    ensures ListInv(ApplySweep(s, EvictEntry)) && CaptureInv(ApplySweep(s, EvictEntry))
  {
    SwapDeleteWaiters(Swept(s), s.sweeper.i);
  }

  lemma EvictCover(s: State)
    requires ControlInv(s) && BookInv(s) && SweepEnabled(s, EvictEntry)
    ensures CoverInv(ApplySweep(s, EvictEntry))
  {
    SwapDeleteWaiters(Swept(s), s.sweeper.i);
  }

  lemma SweepBooks(s: State, a: SweepAction)
    requires ControlInv(s) && BookInv(s) && SweepEnabled(s, a)
    ensures BookInv(ApplySweep(s, a))
  {
    if a.EvictEntry? {
      EvictList(s);
      EvictCover(s);
    } else if !a.CloseBucket? {
      SameBooksKept(s, ApplySweep(s, a));
    }
  }

  lemma PutBooks(s: State, p: PutId, a: PutAction)
    requires BookInv(s) && PutEnabled(s, p, a)
    ensures BookInv(ApplyPut(s, p, a))
  {
    SameBooksKept(s, ApplyPut(s, p, a));
  }

  lemma OutsideBooks(s: State, a: OutsideAction)
    requires BookInv(s)
    ensures BookInv(ApplyOutside(s, a))
  {
    SameBooksKept(s, ApplyOutside(s, a));
  }

  // ----- wake-ups: what is stored and waited for is still to be announced -----

  /** The step exposes nobody, stores nothing and loses no announcement. */
  ghost predicate WakeQuiet(s: State, t: State) {
    && (forall w | Exposed(t, w) :: Exposed(s, w) && t.waiters[w].cid == s.waiters[w].cid)
    && s.missed <= t.missed
    && t.store.Keys <= s.store.Keys
    && (forall c | Pending(s, c) :: Pending(t, c))
  }

  lemma WakeQuietKept(s: State, t: State)
    requires WakeInv(s) && WakeQuiet(s, t)
    ensures WakeInv(t)
  {
  }

  lemma SamePending(s: State, t: State)
    requires t.putters == s.putters && t.ready == s.ready && t.poller == s.poller
    ensures forall c :: Pending(s, c) <==> Pending(t, c)
  {
  }

  lemma RegisterWake(s: State, w: WaiterId)
    requires Inv(s) && AwaitEnabled(s, w, Register)
    ensures WakeInv(ApplyAwait(s, w, Register))
  {
    var t := ApplyAwait(s, w, Register);
    SamePending(s, t);
    AppendWaiters(Bucket(s.waitList, s.waiters[w].cid), Entry(w, s.clock));
    WakeQuietKept(s, t);
  }

  lemma CheckWake(s: State, w: WaiterId, fault: bool)
    requires Inv(s) && AwaitEnabled(s, w, CheckStore(fault))
    ensures WakeInv(ApplyAwait(s, w, CheckStore(fault)))
  {
    SamePending(s, ApplyAwait(s, w, CheckStore(fault)));
  }

  lemma AwaitWake(s: State, w: WaiterId, a: AwaitAction)
    requires Inv(s) && AwaitEnabled(s, w, a) && !a.Register? && !a.CheckStore?
    ensures WakeInv(ApplyAwait(s, w, a))
  {
    var t := ApplyAwait(s, w, a);
    SamePending(s, t);
    WakeQuietKept(s, t);
  }

  lemma CidsSplit(bs: seq<Block>, n: nat)
    requires n < |bs|
    ensures CidsOf(bs[..n + 1]) == CidsOf(bs[..n]) + {bs[n].cid}
    ensures CidsOf(bs[n..]) == {bs[n].cid} + CidsOf(bs[n + 1..])
  {
    assert bs[..n + 1] == bs[..n] + [bs[n]];
    assert bs[n..] == [bs[n]] + bs[n + 1..];
  }

  /** A step of Put p keeps what every other Put owes. */
  lemma PutPending(s: State, t: State, p: PutId)
    requires p in t.putters && t.putters == s.putters[p := t.putters[p]]
    requires t.poller == s.poller && CidsOf(s.ready) <= CidsOf(t.ready)
    ensures forall c | Pending(s, c) :: Pending(t, c) || (p in s.putters && c in Owed(s.putters[p]))
    ensures forall c | c in Owed(t.putters[p]) :: Pending(t, c)
  {
    forall c | Pending(s, c) && !(p in s.putters && c in Owed(s.putters[p])) ensures Pending(t, c) {
      if q :| q in s.putters && c in Owed(s.putters[q]) {
        assert t.putters[q] == s.putters[q];
      }
    }
  }

  lemma WriteWake(s: State, p: PutId)
    requires WakeInv(s) && PutEnabled(s, p, Write)
    ensures WakeInv(ApplyPut(s, p, Write))
  {
    CidsSplit(s.putters[p].blocks, s.putters[p].n);
    PutPending(s, ApplyPut(s, p, Write), p);
  }

  lemma AnnounceWake(s: State, p: PutId)
    requires WakeInv(s) && PutEnabled(s, p, Announce)
    ensures WakeInv(ApplyPut(s, p, Announce))
  {
    var t := ApplyPut(s, p, Announce);
    CidsSplit(s.putters[p].blocks, s.putters[p].n);
    assert t.ready[..|s.ready|] == s.ready;
    assert t.ready[|s.ready|] == s.putters[p].blocks[s.putters[p].n];
    PutPending(s, t, p);
  }

  lemma PutWake(s: State, p: PutId, a: PutAction)
    requires PutInv(s) && WakeInv(s) && PutEnabled(s, p, a) && !a.Write? && !a.Announce?
    ensures WakeInv(ApplyPut(s, p, a))
  {
    PutPending(s, ApplyPut(s, p, a), p);
  }

  lemma ReceiveWake(s: State)
    requires WakeInv(s) && PollEnabled(s, Receive)
    ensures WakeInv(ApplyPoll(s, Receive))
  {
    CidsSplit(s.ready, 0);
    WakeQuietKept(s, ApplyPoll(s, Receive));
  }

  /** The bucket of the announced block leaves the list, so nobody listed needs it. */
  lemma TakeWake(s: State)
    requires LockInv(s) && WakeInv(s) && PollEnabled(s, TakeBucket)
    ensures WakeInv(ApplyPoll(s, TakeBucket))
  {
  }

  lemma PollWake(s: State, a: PollAction)
    requires LockInv(s) && WakeInv(s) && PollEnabled(s, a) && !a.Receive? && !a.TakeBucket?
    ensures WakeInv(ApplyPoll(s, a))
  {
    WakeQuietKept(s, ApplyPoll(s, a));
  }

  lemma SweepWake(s: State, a: SweepAction)
    requires Inv(s) && SweepEnabled(s, a)
    ensures WakeInv(ApplySweep(s, a))
  {
    var t := ApplySweep(s, a);
    SamePending(s, t);
    if a.EvictEntry? {
      SwapDeleteWaiters(Swept(s), s.sweeper.i);
    }
    WakeQuietKept(s, t);
  }

  lemma OutsideWake(s: State, a: OutsideAction)
    requires Inv(s)
    ensures WakeInv(ApplyOutside(s, a))
  {
    SamePending(s, ApplyOutside(s, a));
  }

  lemma Step(s: State, a: Action)
    requires Inv(s) && Enabled(s, a)
    ensures Inv(Apply(s, a))
  {
    match a
    case Await(w, b) =>
      AwaitLocks(s, w, b);
      AwaitWaiters(s, w, b);
      AwaitSweep(s, w, b);
      AwaitBooks(s, w, b);
      if b.Register? {
        RegisterWake(s, w);
      } else if b.CheckStore? {
        CheckWake(s, w, b.fault);
      } else {
        AwaitWake(s, w, b);
      }
    case Put(p, b) =>
      PutControl(s, p, b);
      PutBooks(s, p, b);
      if b.Write? {
        WriteWake(s, p);
      } else if b.Announce? {
        AnnounceWake(s, p);
      } else {
        PutWake(s, p, b);
      }
    case Poll(b) =>
      PollControl(s, b);
      PollBooks(s, b);
      if b.Receive? {
        ReceiveWake(s);
      } else if b.TakeBucket? {
        TakeWake(s);
      } else {
        PollWake(s, b);
      }
    case Sweep(b) =>
      SweepControl(s, b);
      SweepBooks(s, b);
      SweepWake(s, b);
    case Outside(b) =>
      OutsideControl(s, b);
      OutsideBooks(s, b);
      OutsideWake(s, b);
  }
}
