/** Progress of the block manager: some goroutine can always move, and without
    new calls or sweep ticks every schedule is finite. Callbacks are single steps
    that do not re-enter the manager, as the bitswap provider's are. */
module WaitProgress {
  import opened Common
  import opened WaitList
  import opened WaitProtocol
  import opened WaitInvariants
  import opened WaitTheorems

  /** A step of the manager's own code that is not the start of a new piece of work. */
  predicate Works(a: Action) {
    match a
    case Await(_, b) => !b.StartAwait?
    case Put(_, b) => !b.StartPut?
    case Poll(_) => true
    case Sweep(b) => !b.SweepTick?
    case Outside(_) => false
  }

  /** Some AwaitBlock, Put, PutMany, notification or sweep has not finished. */
  ghost predicate Unfinished(s: State) {
    || (exists w | w in s.waiters :: !s.waiters[w].pc.AwaitDone?)
    || (exists p | p in s.putters :: !s.putters[p].PutDone?)
    || s.ready != []
    || !s.poller.PollIdle?
    || !s.sweeper.SweepIdle?
  }

  /** The lock holder is never blocked: not on the channel, not on anything else. */
  lemma HolderMoves(s: State) returns (a: Action)
    requires Inv(s) && !s.lock.Free?
    ensures Works(a) && Enabled(s, a)
  {
    match s.lock
    case HeldBy(w) =>
      var pc := s.waiters[w].pc;
      a := Await(w, if pc.AwaitCheck? then CheckStore(false) else if pc.AwaitMissing? then Register else UnlockWaiter);
    case HeldByPoller =>
      a := Poll(if s.poller.PollTake? then TakeBucket else UnlockPoller);
    case HeldBySweeper =>
      match s.sweeper {
        case SweepRange(todo) =>
          if c :| c in todo {
            a := Sweep(PickBucket(c));
          } else {
            a := Sweep(UnlockSweeper);
          }
        case SweepAt(_, c, i) => a := Sweep(if i < |Swept(s)| then CheckEntry else CloseBucket);
        case SweepDoomed(_, c, i) =>
          assert Swept(s)[i].waiter in WaitersOf(s.waitList[c]);
          a := Sweep(EvictEntry);
      }
  }

  /** With the lock free, the poller moves unless it is idle on an empty channel. */
  lemma PollerMoves(s: State) returns (a: Action)
    requires Inv(s) && s.lock.Free? && (!s.poller.PollIdle? || s.ready != [])
    ensures Works(a) && Enabled(s, a)
  {
    match s.poller
    case PollIdle => a := Poll(Receive);
    case PollLock(_) => a := Poll(LockPoller);
    case PollCalling(_, rest) =>
      if rest == [] {
        a := Poll(PollDone);
      } else {
        HeadWaiters(rest);
        a := Poll(CallNext);
      }
  }

  /** Deadlock freedom: while anything is unfinished, some goroutine has a step
      that needs neither a cancellation, a store failure nor a clock tick. */
  lemma DeadlockFreedom(s: State) returns (a: Action)
    requires Inv(s) && Unfinished(s)
    ensures Works(a) && Enabled(s, a)
  {
    if !s.lock.Free? {
      a := HolderMoves(s);
    } else if !s.poller.PollIdle? || s.ready != [] {
      a := PollerMoves(s);
    } else if !s.sweeper.SweepIdle? {
      a := Sweep(LockSweeper);
    } else if w :| w in s.waiters && !s.waiters[w].pc.AwaitDone? {
      a := Await(w, if s.waiters[w].pc.AwaitLock? then LockWaiter else CallWaiter);
    } else {
      var p :| p in s.putters && !s.putters[p].PutDone?;
      var pc := s.putters[p];
      if pc.Writing? {
        a := Put(p, if pc.n < |pc.blocks| then Write else WritesDone);
      } else {
        a := Put(p, if pc.n < |pc.blocks| then Announce else PutReturns);
      }
    }
  }

  // ----- every schedule of the work at hand is finite -----

  function AwaitWeight(x: Waiter): nat {
    (match x.pc
     case AwaitLock => 10
     case AwaitCheck => 9
     case AwaitMissing => 8
     case AwaitErred => 2
     case AwaitPresent(_) => 2
     case AwaitAppended => 1
     case AwaitFail => 1
     case AwaitHit(_) => 1
     case AwaitDone(_) => 0)
    + if Waiting(x) then 1 else 0
  }

  function PutWeight(pc: PutPc): nat {
    match pc
    case Writing(bs, n) => if n <= |bs| then 7 * |bs| - n + 2 else 0
    case Announcing(bs, n) => if n <= |bs| then 6 * (|bs| - n) + 1 else 0
    case PutDone(_) => 0
  }

  function PollWeight(pc: PollerPc): nat {
    match pc
    case PollIdle => 0
    case PollLock(_) => 4
    case PollTake(_) => 3
    case PollTook(_, _) => 2
    case PollCalling(_, _) => 1
  }

  ghost function AwaitWeights(ws: map<WaiterId, Waiter>): map<WaiterId, nat> {
    map w | w in ws :: AwaitWeight(ws[w])
  }

  ghost function PutWeights(ps: map<PutId, PutPc>): map<PutId, nat> {
    map p | p in ps :: PutWeight(ps[p])
  }

  /** Steps a sweep may still spend on the buckets in todo. */
  ghost function Sweepable(wl: Buckets, todo: set<Cid>): map<Cid, nat> {
    map c | c in wl && c in todo :: 2 * |wl[c]| + 2
  }

  ghost function SweepWeight(s: State): nat {
    match s.sweeper
    case SweepIdle => 0
    case SweepLock => 2 + Sum(Sweepable(s.waitList, s.waitList.Keys))
    case SweepRange(todo) => 1 + Sum(Sweepable(s.waitList, todo))
    case SweepAt(todo, _, i) =>
      2 + Sum(Sweepable(s.waitList, todo)) + if i <= |Swept(s)| then 2 * (|Swept(s)| - i) else 0
    case SweepDoomed(todo, _, i) =>
      1 + Sum(Sweepable(s.waitList, todo)) + if i <= |Swept(s)| then 2 * (|Swept(s)| - i) else 0
  }

  ghost function Rank(s: State): nat {
    Sum(AwaitWeights(s.waiters)) + Sum(PutWeights(s.putters)) + 5 * |s.ready| + PollWeight(s.poller) + SweepWeight(s)
  }

  lemma WaiterWeight(ws: map<WaiterId, Waiter>, w: WaiterId, x: Waiter)
    requires w in ws
    ensures Sum(AwaitWeights(ws[w := x])) == Sum(AwaitWeights(ws)) - AwaitWeight(ws[w]) + AwaitWeight(x)
  {
    assert AwaitWeights(ws[w := x]) == AwaitWeights(ws)[w := AwaitWeight(x)];
    SumUpdate(AwaitWeights(ws), w, AwaitWeight(x));
  }

  lemma SweepableUpdate(wl: Buckets, c: Cid, es: seq<Entry>)
    ensures Sum(Sweepable(wl[c := es], wl.Keys + {c}))
         == Sum(Sweepable(wl, wl.Keys)) + 2 * |es| + 2 - if c in wl then 2 * |wl[c]| + 2 else 0
  {
    assert Sweepable(wl[c := es], wl.Keys + {c}) == Sweepable(wl, wl.Keys)[c := 2 * |es| + 2];
    SumUpdate(Sweepable(wl, wl.Keys), c, 2 * |es| + 2);
  }

  /** Only waiter w and the sweep's own weight differ. */
  lemma WaiterRank(s: State, t: State, w: WaiterId)
    requires w in s.waiters && w in t.waiters && t.waiters == s.waiters[w := t.waiters[w]]
    requires t.putters == s.putters && t.ready == s.ready && t.poller == s.poller
    requires AwaitWeight(t.waiters[w]) + SweepWeight(t) < AwaitWeight(s.waiters[w]) + SweepWeight(s)
    ensures Rank(t) < Rank(s)
  {
    WaiterWeight(s.waiters, w, t.waiters[w]);
  }

  lemma AwaitDrops(s: State, w: WaiterId, a: AwaitAction)
    requires WaiterInv(s) && AwaitEnabled(s, w, a) && !a.StartAwait? && !a.Register?
    ensures var t := ApplyAwait(s, w, a);
      && t.waiters == s.waiters[w := t.waiters[w]]
      && t.putters == s.putters && t.ready == s.ready && t.poller == s.poller
      && t.sweeper == s.sweeper && t.waitList == s.waitList
      && AwaitWeight(t.waiters[w]) < AwaitWeight(s.waiters[w])
  {
    assert WaiterOK(s.waiters[w], w in s.cancelled);
  }

  lemma AwaitRank(s: State, w: WaiterId, a: AwaitAction)
    requires WaiterInv(s) && AwaitEnabled(s, w, a) && !a.StartAwait? && !a.Register?
    ensures Rank(ApplyAwait(s, w, a)) < Rank(s)
  {
    AwaitDrops(s, w, a);
    WaiterRank(s, ApplyAwait(s, w, a), w);
  }

  lemma RegisterRank(s: State, w: WaiterId)
    requires LockInv(s) && WaiterInv(s) && AwaitEnabled(s, w, Register)
    ensures Rank(ApplyAwait(s, w, Register)) < Rank(s)
  {
    var t := ApplyAwait(s, w, Register);
    var c := s.waiters[w].cid;
    assert s.lock == HeldBy(w) && WaiterOK(s.waiters[w], w in s.cancelled);
    assert SweepWeight(t) <= SweepWeight(s) + 4 by {
      SweepableUpdate(s.waitList, c, t.waitList[c]);
      assert t.waitList.Keys == s.waitList.Keys + {c};
    }
    WaiterRank(s, t, w);
  }

  lemma PutDrops(s: State, p: PutId, a: PutAction)
    requires PutInv(s) && PutEnabled(s, p, a) && !a.StartPut?
    ensures var t := ApplyPut(s, p, a);
      && t.putters == s.putters[p := t.putters[p]]
      && t.waiters == s.waiters && t.poller == s.poller && t.sweeper == s.sweeper && t.waitList == s.waitList
      && PutWeight(t.putters[p]) + 5 * |t.ready| < PutWeight(s.putters[p]) + 5 * |s.ready|
  {
  }

  lemma PutRank(s: State, p: PutId, a: PutAction)
    requires PutInv(s) && PutEnabled(s, p, a) && !a.StartPut?
    ensures Rank(ApplyPut(s, p, a)) < Rank(s)
  {
    var t := ApplyPut(s, p, a);
    PutDrops(s, p, a);
    assert PutWeights(t.putters) == PutWeights(s.putters)[p := PutWeight(t.putters[p])];
    SumUpdate(PutWeights(s.putters), p, PutWeight(t.putters[p]));
  }

  lemma TakeRank(s: State)
    requires LockInv(s) && PollEnabled(s, TakeBucket)
    ensures Rank(ApplyPoll(s, TakeBucket)) < Rank(s)
  {
    var t := ApplyPoll(s, TakeBucket);
    var c := s.poller.block.cid;
    if c in s.waitList {
      SumRemove(Sweepable(s.waitList, s.waitList.Keys), c);
      assert Sweepable(t.waitList, t.waitList.Keys) == Sweepable(s.waitList, s.waitList.Keys) - {c};
    } else {
      assert t.waitList == s.waitList;
    }
  }

  lemma CallDrops(s: State)
    requires CaptureInv(s) && PollEnabled(s, CallNext)
    ensures var t := ApplyPoll(s, CallNext);
      var w := s.poller.rest[0].waiter;
      && w in t.waiters && t.waiters == s.waiters[w := t.waiters[w]]
      && AwaitWeight(t.waiters[w]) < AwaitWeight(s.waiters[w])
  {
    HeadWaiters(s.poller.rest);
    assert WaitsFor(s, s.poller.rest[0].waiter, s.poller.block.cid);
  }

  lemma CallRank(s: State)
    requires CaptureInv(s) && PollEnabled(s, CallNext)
    ensures Rank(ApplyPoll(s, CallNext)) < Rank(s)
  {
    var w := s.poller.rest[0].waiter;
    CallDrops(s);
    WaiterWeight(s.waiters, w, ApplyPoll(s, CallNext).waiters[w]);
  }

  lemma PollRank(s: State, a: PollAction)
    requires PollEnabled(s, a) && !a.TakeBucket? && !a.CallNext?
    ensures Rank(ApplyPoll(s, a)) < Rank(s)
  {
  }

  lemma EvictDrops(s: State)
    requires SweepInv(s) && ListInv(s) && SweepEnabled(s, EvictEntry)
    ensures var t := ApplySweep(s, EvictEntry);
      var w := Swept(s)[s.sweeper.i].waiter;
      && w in t.waiters && t.waiters == s.waiters[w := t.waiters[w]]
      && AwaitWeight(t.waiters[w]) < AwaitWeight(s.waiters[w])
      && t.sweeper == SweepAt(s.sweeper.todo, s.sweeper.cid, s.sweeper.i)
      && |Swept(t)| == |Swept(s)| - 1
      && Sweepable(t.waitList, t.sweeper.todo) == Sweepable(s.waitList, s.sweeper.todo)
  {
    SwapDeleteWaiters(Swept(s), s.sweeper.i);
    assert WaitsFor(s, Swept(s)[s.sweeper.i].waiter, s.sweeper.cid);
  }

  lemma EvictRank(s: State)
    requires SweepInv(s) && ListInv(s) && SweepEnabled(s, EvictEntry)
    ensures Rank(ApplySweep(s, EvictEntry)) < Rank(s)
  {
    EvictDrops(s);
    WaiterRank(s, ApplySweep(s, EvictEntry), Swept(s)[s.sweeper.i].waiter);
  }

  lemma SweepRank(s: State, a: SweepAction)
    requires SweepInv(s) && SweepEnabled(s, a) && !a.SweepTick? && !a.EvictEntry?
    ensures Rank(ApplySweep(s, a)) < Rank(s)
  {
    var t := ApplySweep(s, a);
    if a.PickBucket? {
      SumRemove(Sweepable(s.waitList, s.sweeper.todo), a.cid);
      assert Sweepable(t.waitList, t.sweeper.todo) == Sweepable(s.waitList, s.sweeper.todo) - {a.cid};
    } else if a.CloseBucket? {
      assert Sweepable(t.waitList, t.sweeper.todo) == Sweepable(s.waitList, s.sweeper.todo);
    }
  }

  lemma RankStep(s: State, a: Action)
    requires Inv(s) && Enabled(s, a) && Works(a)
    ensures Rank(Apply(s, a)) < Rank(s)
  {
    match a
    case Await(w, b) =>
      if b.Register? {
        RegisterRank(s, w);
      } else {
        AwaitRank(s, w, b);
      }
    case Put(p, b) => PutRank(s, p, b);
    case Poll(b) =>
      if b.TakeBucket? {
        TakeRank(s);
      } else if b.CallNext? {
        CallRank(s);
      } else {
        PollRank(s, b);
      }
    case Sweep(b) =>
      if b.EvictEntry? {
        EvictRank(s);
      } else {
        SweepRank(s, b);
      }
  }

  /** What the environment does, the clock, cancellations, writes and deletions past
      the manager, neither adds to the work at hand nor takes from it. */
  lemma OutsideRank(s: State, a: OutsideAction)
    ensures Rank(ApplyOutside(s, a)) == Rank(s)
  {
  }

  /** The steps of a schedule that are the manager's own. */
  function WorkDone(trace: seq<Action>): nat {
    if trace == [] then 0 else WorkDone(trace[..|trace| - 1]) + if Works(trace[|trace| - 1]) then 1 else 0
  }

  /** No call, sweep tick or other piece of work begins in this schedule; the
      environment may do anything at any point of it. */
  ghost predicate NothingNew(trace: seq<Action>) {
    forall a | a in trace :: Works(a) || a.Outside?
  }

  /** Every schedule is finite: without new work, from any reachable state, no run
      makes more than Rank steps of its own. */
  lemma {:induction false} WorkIsBounded(s: State, trace: seq<Action>)
    requires Inv(s) && NothingNew(trace) && Run(s, trace).Some?
    ensures Inv(Run(s, trace).value)
    ensures WorkDone(trace) + Rank(Run(s, trace).value) <= Rank(s)
  {
    if trace != [] {
      var n := |trace| - 1;
      assert forall a | a in trace[..n] :: a in trace;
      WorkIsBounded(s, trace[..n]);
      var t := Run(s, trace[..n]).value;
      Step(t, trace[n]);
      if Works(trace[n]) {
        RankStep(t, trace[n]);
      } else {
        OutsideRank(t, trace[n].outside);
      }
    }
  }

  /** From any reachable state there is a schedule that finishes everything. */
  lemma {:induction false} WorkFinishes(s: State) returns (trace: seq<Action>)
    requires Inv(s)
    ensures (forall a | a in trace :: Works(a)) && Run(s, trace).Some? && !Unfinished(Run(s, trace).value)
    decreases Rank(s)
  {
    trace := [];
    while Unfinished(Run(s, trace).value)
      invariant (forall a | a in trace :: Works(a)) && Run(s, trace).Some? && Inv(Run(s, trace).value)
      decreases Rank(Run(s, trace).value)
    {
      var t := Run(s, trace).value;
      var a := DeadlockFreedom(t);
      Step(t, a);
      RankStep(t, a);
      assert (trace + [a])[..|trace|] == trace;
      trace := trace + [a];
    }
  }

  ghost predicate CanWork(s: State) {
    exists a :: Works(a) && Enabled(s, a)
  }

  lemma WorkIsUnfinished(s: State, a: Action)
    requires Works(a) && Enabled(s, a)
    ensures Unfinished(s)
  {
  }

  /** However the goroutines are scheduled, from any reachable state, and whatever the
      environment does in between: without new work no schedule makes more steps than
      the rank of the state, and the goroutines can stop only where everything is
      finished. */
  lemma EveryScheduleFinishes(timeout: nat, store: map<Cid, nat>, trace: seq<Action>, more: seq<Action>)
    requires Run(Init(timeout, store), trace).Some?
    requires NothingNew(more) && Run(Run(Init(timeout, store), trace).value, more).Some?
    ensures var s := Run(Init(timeout, store), trace).value;
      WorkDone(more) <= Rank(s) && (Unfinished(Run(s, more).value) <==> CanWork(Run(s, more).value))
  {
    ReachableInv(timeout, store, trace);
    var s := Run(Init(timeout, store), trace).value;
    WorkIsBounded(s, more);
    var t := Run(s, more).value;
    if Unfinished(t) {
      var a := DeadlockFreedom(t);
    }
    if CanWork(t) {
      var a :| Works(a) && Enabled(t, a);
      WorkIsUnfinished(t, a);
    }
  }
}
