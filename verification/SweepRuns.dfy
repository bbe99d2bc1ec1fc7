/** Every sweep, whatever interleaves with it: from the moment it takes the lock to the
    moment it is about to release it. */
module SweepRuns {
  import opened Common
  import opened WaitList
  import opened WaitProtocol
  import opened WaitInvariants
  import opened WaitTheorems

  predicate Sweeping(pc: SweeperPc) {
    pc.SweepRange? || pc.SweepAt? || pc.SweepDoomed?
  }

  predicate StandsIn(pc: SweeperPc, c: Cid) {
    (pc.SweepAt? || pc.SweepDoomed?) && pc.cid == c
  }

  /** How many entries of bucket c this sweep is done with. */
  function DoneIn(t: State, c: Cid): nat
    requires Sweeping(t.sweeper)
  {
    if c in t.sweeper.todo then 0
    else if StandsIn(t.sweeper, c) then t.sweeper.i
    else |Bucket(t.waitList, c)|
  }

  /** Time has passed since s, and a sweep that began there is under way. */
  ghost predicate Since(s: State, t: State) {
    && t.lock.HeldBySweeper? && Sweeping(t.sweeper)
    && t.timeout == s.timeout && s.clock <= t.clock && s.cancelled <= t.cancelled
  }

  /** What the sweep is done with holds nothing that was stale when it began. */
  ghost predicate Cleaned(s: State, t: State)
    requires Sweeping(t.sweeper)
  {
    forall c, j | c in t.waitList && 0 <= j < |t.waitList[c]| && j < DoneIn(t, c) :: !Doomed(s, t.waitList[c][j])
  }

  /** How the waiter of an evicted entry ended: dropped with its context cancelled, or
      with one call, the timeout, and that is past. */
  ghost predicate Evicted(t: State, e: Entry) {
    && e.waiter in t.waiters && t.waiters[e.waiter].registered
    && if t.waiters[e.waiter].dropped then e.waiter in t.cancelled
       else t.waiters[e.waiter].calls == [TimedOut] && t.clock - e.registeredAt > t.timeout
  }

  /** Of the entries there were, those not evicted are still there; and an evicted one
      was stale. */
  ghost predicate Keeps(s: State, t: State) {
    forall c, e | c in s.waitList && e in s.waitList[c] ::
      e in Bucket(t.waitList, c) || (Evicted(t, e) && Doomed(t, e))
  }

  ghost predicate AddsNothing(s: State, t: State) {
    forall c, e | c in t.waitList && e in t.waitList[c] :: e in Bucket(s.waitList, c)
  }

  ghost predicate Accounted(s: State, t: State) {
    Keeps(s, t) && AddsNothing(s, t)
  }

  ghost predicate Progress(s: State, t: State) {
    Since(s, t) && Cleaned(s, t) && Accounted(s, t)
  }

  // ----- what every step keeps -----

  /** While the sweep holds the lock nobody else touches the list. */
  lemma OthersWait(t: State, a: Action)
    requires LockInv(t) && t.lock.HeldBySweeper? && Enabled(t, a) && !a.Sweep?
    ensures var u := Apply(t, a); u.waitList == t.waitList && u.sweeper == t.sweeper && u.lock == t.lock
  {
    if a.Await? {
      AwaitTime(t, a.w, a.await);
    } else if a.Put? {
      PutTime(t, a.p, a.put);
    } else if a.Outside? {
      OutsideTime(t, a.outside);
    }
  }

  lemma AwaitFlags(s: State, w: WaiterId, a: AwaitAction, v: WaiterId)
    requires WaiterInv(s) && AwaitEnabled(s, w, a) && v in s.waiters && s.waiters[v].registered
    ensures var t := ApplyAwait(s, w, a);
      v in t.waiters && t.waiters[v].registered && t.waiters[v].dropped == s.waiters[v].dropped
  {
  }

  lemma PollFlags(s: State, a: PollAction, v: WaiterId)
    requires PollEnabled(s, a) && v in s.waiters && s.waiters[v].registered
    ensures var t := ApplyPoll(s, a);
      v in t.waiters && t.waiters[v].registered && t.waiters[v].dropped == s.waiters[v].dropped
  {
  }

  lemma SweepFlags(s: State, a: SweepAction, v: WaiterId)
    requires SweepEnabled(s, a) && v in s.waiters && s.waiters[v].registered
    ensures var t := ApplySweep(s, a);
      v in t.waiters && t.waiters[v].registered && (s.waiters[v].dropped ==> t.waiters[v].dropped)
  {
  }

  /** Registration and dropping are not undone. */
  lemma FlagsStay(s: State, a: Action, v: WaiterId)
    requires WaiterInv(s) && Enabled(s, a) && v in s.waiters && s.waiters[v].registered
    ensures var t := Apply(s, a);
      v in t.waiters && t.waiters[v].registered && (s.waiters[v].dropped ==> t.waiters[v].dropped)
  {
    if a.Await? {
      AwaitFlags(s, a.w, a.await, v);
    } else if a.Poll? {
      PollFlags(s, a.poll, v);
    } else if a.Sweep? {
      SweepFlags(s, a.sweep, v);
    } else if a.Put? {
      PutTime(s, a.p, a.put);
    } else {
      OutsideTime(s, a.outside);
    }
  }

  lemma EvictedStays(s: State, a: Action, e: Entry)
    requires Inv(s) && Enabled(s, a) && Evicted(s, e)
    ensures Evicted(Apply(s, a), e)
  {
    var t := Apply(s, a);
    Step(s, a);
    TimeGoesOn(s, a);
    FlagsStay(s, a, e.waiter);
    CallsAreALog(s, a, e.waiter);
    assert WaiterOK(t.waiters[e.waiter], e.waiter in t.cancelled);
  }

  /** Accounts stay when neither the list changes nor a stale entry becomes fresh. */
  lemma SameListAccounted(s: State, t: State, a: Action)
    requires Inv(t) && Enabled(t, a) && Accounted(s, t)
    requires forall c :: Bucket(Apply(t, a).waitList, c) == Bucket(t.waitList, c)
    ensures Accounted(s, Apply(t, a))
  {
    var u := Apply(t, a);
    TimeGoesOn(t, a);
    forall c, e | c in s.waitList && e in s.waitList[c]
      ensures e in Bucket(u.waitList, c) || (Evicted(u, e) && Doomed(u, e))
    {
      if e !in Bucket(t.waitList, c) {
        EvictedStays(t, a, e);
      }
    }
    forall c, e | c in u.waitList && e in u.waitList[c] ensures e in Bucket(s.waitList, c) {
      assert e in Bucket(t.waitList, c);
    }
  }

  // ----- the sweep's own steps -----

  lemma SwapDeleteEntries(es: seq<Entry>, i: nat)
    requires i < |es|
    ensures forall e | e in es && e != es[i] :: e in SwapDelete(es, i)
    ensures forall e | e in SwapDelete(es, i) :: e in es
    ensures forall j | 0 <= j < i && j < |es| - 1 :: SwapDelete(es, i)[j] == es[j]
  {
    var r, last := SwapDelete(es, i), |es| - 1;
    forall e | e in es && e != es[i] ensures e in r {
      var k :| 0 <= k < |es| && es[k] == e;
      assert e == if k == last then r[i] else r[k];
    }
    forall e | e in r ensures e in es {
      var k :| 0 <= k < |r| && r[k] == e;
      assert e == if k == i then es[last] else es[k];
    }
  }

  lemma EvictedHere(t: State)
    requires Inv(t) && SweepEnabled(t, EvictEntry)
    ensures var e := Swept(t)[t.sweeper.i];
      Evicted(ApplySweep(t, EvictEntry), e) && Doomed(ApplySweep(t, EvictEntry), e)
  {
    var e := Swept(t)[t.sweeper.i];
    EvictionVerdict(t);
    assert WaitsFor(t, e.waiter, t.sweeper.cid) by {
      assert e.waiter in WaitersOf(t.waitList[t.sweeper.cid]);
    }
  }

  lemma EvictKeepsEntry(s: State, t: State, c: Cid, e: Entry)
    requires Inv(t) && SweepEnabled(t, EvictEntry) && Keeps(s, t) && e in Bucket(s.waitList, c)
    ensures var u := ApplySweep(t, EvictEntry); e in Bucket(u.waitList, c) || (Evicted(u, e) && Doomed(u, e))
  {
    if e in Bucket(t.waitList, c) {
      SwapDeleteEntries(Swept(t), t.sweeper.i);
      EvictedHere(t);
    } else {
      EvictedStays(t, Sweep(EvictEntry), e);
    }
  }

  lemma EvictKeeps(s: State, t: State)
    requires Inv(t) && SweepEnabled(t, EvictEntry) && Keeps(s, t)
    ensures Keeps(s, ApplySweep(t, EvictEntry))
  {
    var u := ApplySweep(t, EvictEntry);
    forall c, e | c in s.waitList && e in s.waitList[c]
      ensures e in Bucket(u.waitList, c) || (Evicted(u, e) && Doomed(u, e))
    {
      EvictKeepsEntry(s, t, c, e);
    }
  }

  lemma EvictAddsNothing(s: State, t: State)
    requires SweepInv(t) && SweepEnabled(t, EvictEntry) && AddsNothing(s, t)
    ensures AddsNothing(s, ApplySweep(t, EvictEntry))
  {
    SwapDeleteEntries(Swept(t), t.sweeper.i);
    var u := ApplySweep(t, EvictEntry);
    forall c, e | c in u.waitList && e in u.waitList[c] ensures e in Bucket(s.waitList, c) {
      assert e in Bucket(t.waitList, c);
    }
  }

  /** What is stale stays stale. */
  lemma StaleLater(s: State, t: State, e: Entry)
    requires t.timeout == s.timeout && s.clock <= t.clock && s.cancelled <= t.cancelled && Doomed(s, e)
    ensures Doomed(t, e)
  {
  }

  lemma CheckCleans(s: State, t: State)
    requires SweepInv(t) && SweepEnabled(t, CheckEntry) && Since(s, t) && Cleaned(s, t)
    ensures Cleaned(s, ApplySweep(t, CheckEntry))
  {
    var e := Swept(t)[t.sweeper.i];
    if Doomed(s, e) {
      StaleLater(s, t, e);
    }
  }

  lemma EvictCleans(s: State, t: State)
    requires SweepInv(t) && SweepEnabled(t, EvictEntry) && Since(s, t) && Cleaned(s, t)
    ensures Cleaned(s, ApplySweep(t, EvictEntry))
  {
    SwapDeleteEntries(Swept(t), t.sweeper.i);
    var u, c0 := ApplySweep(t, EvictEntry), t.sweeper.cid;
    forall c, j | c in u.waitList && 0 <= j < |u.waitList[c]| && j < DoneIn(u, c) ensures !Doomed(s, u.waitList[c][j]) {
      assert u.waitList[c][j] == t.waitList[c][j] && j < DoneIn(t, c);
    }
  }

  lemma MoveCleans(s: State, t: State, a: SweepAction)
    requires SweepInv(t) && SweepEnabled(t, a) && Since(s, t) && Cleaned(s, t) && (a.PickBucket? || a.CloseBucket?)
    ensures Cleaned(s, ApplySweep(t, a))
  {
    var u := ApplySweep(t, a);
    forall c, j | c in u.waitList && 0 <= j < |u.waitList[c]| && j < DoneIn(u, c) ensures !Doomed(s, u.waitList[c][j]) {
      assert u.waitList[c] == t.waitList[c] && j < DoneIn(t, c);
    }
  }

  /** One step of the sweep, other than its end. */
  lemma SweepProgresses(s: State, t: State, a: SweepAction)
    requires Inv(t) && SweepEnabled(t, a) && Progress(s, t) && !a.UnlockSweeper?
    ensures Progress(s, ApplySweep(t, a))
  {
    SweepTime(t, a);
    if a.EvictEntry? {
      EvictKeeps(s, t);
      EvictAddsNothing(s, t);
      EvictCleans(s, t);
    } else {
      SameListAccounted(s, t, Sweep(a));
      if a.CheckEntry? {
        CheckCleans(s, t);
      } else {
        MoveCleans(s, t, a);
      }
    }
  }

  lemma ProgressStep(s: State, t: State, a: Action)
    requires Inv(t) && Enabled(t, a) && Progress(s, t) && a != Sweep(UnlockSweeper)
    ensures Progress(s, Apply(t, a))
  {
    if a.Sweep? {
      SweepProgresses(s, t, a.sweep);
    } else {
      TimeGoesOn(t, a);
      OthersWait(t, a);
      SameListAccounted(s, t, a);
    }
  }

  lemma ProgressBegins(s: State)
    requires Inv(s) && SweepEnabled(s, LockSweeper)
    ensures Progress(s, ApplySweep(s, LockSweeper))
  {
  }

  lemma {:induction false} ProgressRuns(s: State, more: seq<Action>)
    requires Inv(s) && SweepEnabled(s, LockSweeper) && Sweep(UnlockSweeper) !in more
    requires Run(ApplySweep(s, LockSweeper), more).Some?
    ensures var t := Run(ApplySweep(s, LockSweeper), more).value; Inv(t) && Progress(s, t)
  {
    if more == [] {
      Step(s, Sweep(LockSweeper));
      ProgressBegins(s);
    } else {
      var n := |more| - 1;
      assert forall a | a in more[..n] :: a in more;
      ProgressRuns(s, more[..n]);
      var t := Run(ApplySweep(s, LockSweeper), more[..n]).value;
      Step(t, more[n]);
      ProgressStep(s, t, more[n]);
    }
  }

  /** What every completed sweep has done, in every run and whatever interleaved with it
      from the moment s at which it took the lock to the moment t at which it is about
      to release it. An entry that was cancelled, or older than the configured timeout, at
      s has left the list, and its waiter was dropped with its context cancelled or called
      once, with the timeout; an entry that is neither at t is still there; whatever left
      was evicted in one of those two ways; nothing was added; and no empty bucket remains. */
  lemma SweepRemovesExactly(timeout: nat, store: map<Cid, nat>, trace: seq<Action>, more: seq<Action>, c: Cid, e: Entry)
    requires Run(Init(timeout, store), trace).Some?
    requires var s := Run(Init(timeout, store), trace).value;
      && SweepEnabled(s, LockSweeper) && Sweep(UnlockSweeper) !in more
      && Run(ApplySweep(s, LockSweeper), more).Some?
      && SweepEnabled(Run(ApplySweep(s, LockSweeper), more).value, UnlockSweeper)
    ensures var s := Run(Init(timeout, store), trace).value;
      var t := Run(ApplySweep(s, LockSweeper), more).value;
      && t.timeout == timeout
      && (e in Bucket(s.waitList, c) && (e.waiter in s.cancelled || s.clock - e.registeredAt > timeout) ==>
            !Listed(t, e.waiter) && Evicted(t, e))
      && (e in Bucket(s.waitList, c) && e.waiter !in t.cancelled && t.clock - e.registeredAt <= timeout ==>
            e in Bucket(t.waitList, c))
      && (e in Bucket(s.waitList, c) && e !in Bucket(t.waitList, c) ==> Evicted(t, e))
      && (e in Bucket(t.waitList, c) ==> e in Bucket(s.waitList, c))
      && (c in t.waitList ==> t.waitList[c] != [])
  {
    ReachableInv(timeout, store, trace);
    var s := Run(Init(timeout, store), trace).value;
    ProgressRuns(s, more);
    NoTimeoutNoSweep(timeout, store, trace);
    var t := Run(ApplySweep(s, LockSweeper), more).value;
    if e in Bucket(s.waitList, c) {
      EntryOutcome(s, t, c, e);
    }
    if e in Bucket(s.waitList, c) && e !in Bucket(t.waitList, c) {
      OnlyEntryOf(timeout, store, trace, t, c, e);
    }
  }

  lemma EntryOutcome(s: State, t: State, c: Cid, e: Entry)
    requires Progress(s, t) && t.sweeper == SweepRange({}) && e in Bucket(s.waitList, c)
    ensures e.waiter in s.cancelled || s.clock - e.registeredAt > s.timeout ==> e !in Bucket(t.waitList, c)
    ensures e.waiter !in t.cancelled && t.clock - e.registeredAt <= s.timeout ==> e in Bucket(t.waitList, c)
    ensures e !in Bucket(t.waitList, c) ==> Evicted(t, e)
  {
    assert c in s.waitList && e in s.waitList[c];
    assert e in Bucket(t.waitList, c) || (Evicted(t, e) && Doomed(t, e));
    if Doomed(s, e) {
      StaleIsGone(s, t, c, e);
    }
  }

  lemma StaleIsGone(s: State, t: State, c: Cid, e: Entry)
    requires Progress(s, t) && t.sweeper == SweepRange({}) && Doomed(s, e)
    ensures e !in Bucket(t.waitList, c)
  {
    forall j | 0 <= j < |Bucket(t.waitList, c)| ensures Bucket(t.waitList, c)[j] != e {
      assert j < DoneIn(t, c) && !Doomed(s, t.waitList[c][j]);
    }
  }

  /** Its waiter had no other entry to be listed by. */
  lemma OnlyEntryOf(timeout: nat, store: map<Cid, nat>, trace: seq<Action>, t: State, c: Cid, e: Entry)
    requires Run(Init(timeout, store), trace).Some?
    requires AddsNothing(Run(Init(timeout, store), trace).value, t)
    requires e in Bucket(Run(Init(timeout, store), trace).value.waitList, c) && e !in Bucket(t.waitList, c)
    ensures !Listed(t, e.waiter)
  {
    var s := Run(Init(timeout, store), trace).value;
    if Listed(t, e.waiter) {
      var d := t.waiters[e.waiter].cid;
      var f :| f in Bucket(t.waitList, d) && f.waiter == e.waiter;
      assert f in Bucket(s.waitList, d);
      var i :| 0 <= i < |Bucket(s.waitList, c)| && Bucket(s.waitList, c)[i] == e;
      var j :| 0 <= j < |Bucket(s.waitList, d)| && Bucket(s.waitList, d)[j] == f;
      EntriesAreUnique(timeout, store, trace, c, i, d, j);
    }
  }
}
