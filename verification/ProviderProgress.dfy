/** Progress of the provider together with its manager: no want, retrieval, worker or
    goroutine of the manager is ever stuck, and without new wants, sweeps or other new
    work every schedule is finite. Retrieve is taken to return. */
module ProviderProgress {
  import opened Common
  import opened WaitList
  import opened WaitProtocol
  import opened WaitProgress
  import opened Wants
  import opened ProviderProtocol
  import opened ProviderInvariants
  import opened ProviderTheorems

  /** A step of the provider's or the manager's own code that starts nothing new. */
  predicate PWorks(a: PAction) {
    match a
    case Serve(_, b) => !b.ReceiveWant?
    case Manager(b) => Works(b)
    case Work(_, _) => true
  }

  ghost predicate PUnfinished(p: PState) {
    || Unfinished(p.mgr)
    || (exists w | w in p.wants :: !GoroutinesDone(p.wants[w]))
    || (exists k | k in p.workers :: p.workers[k].Working?)
    || (p.queue != multiset{} && p.cfg.maxWorkers > 0)
  }

  /** The provider never stands in the way of a step of the manager: whatever callback
      it fires belongs to a want. */
  lemma ManagerIsNotBlocked(p: PState, b: Action)
    requires PInv(p) && Enabled(p.mgr, b) && !(b.Await? && b.await.StartAwait?)
    ensures PEnabled(p, Manager(b))
  {
    if Fires(p.mgr, b).Some? {
      FiresOnWaiter(p.mgr, b);
    }
  }

  lemma WantMoves(p: PState, w: WantId) returns (a: PAction)
    requires PInv(p) && !Unfinished(p.mgr) && w in p.wants && !GoroutinesDone(p.wants[w])
    ensures PWorks(a) && PEnabled(p, a)
  {
    var h := p.wants[w];
    assert HandlingOK(p.cfg, h, WaiterOf(p.mgr, w));
    a := Serve(w, if h.pc.Deciding? then DecideWant(false)
                  else if h.pc.NamingRetrieval? then NameRetrieval(false)
                  else if h.pc.Awaiting? then AwaitReturns
                  else if h.retrieval.Retrieving? then RetrievalEnds(Succeeded)
                  else RetrievalCancels);
  }

  lemma WorkerMoves(p: PState, k: nat) returns (a: PAction)
    requires PInv(p) && k in p.workers && p.workers[k].Working?
    ensures PWorks(a) && PEnabled(p, a)
  {
    assert WorkerOK(p.cfg, p.workers[k]);
    a := Work(k, if |p.workers[k].msg| < |p.workers[k].tasks| then AnswerTask(false) else SendMessage);
  }

  /** Deadlock freedom of the whole: while a want, a retrieval, a worker, a queued task
      or anything of the manager is unfinished, some goroutine can move. */
  lemma PDeadlockFreedom(p: PState) returns (a: PAction)
    requires PInv(p) && PUnfinished(p)
    ensures PWorks(a) && PEnabled(p, a)
  {
    if Unfinished(p.mgr) {
      var b := DeadlockFreedom(p.mgr);
      ManagerIsNotBlocked(p, b);
      a := Manager(b);
    } else if w :| w in p.wants && !GoroutinesDone(p.wants[w]) {
      a := WantMoves(p, w);
    } else if k :| k in p.workers && p.workers[k].Working? {
      a := WorkerMoves(p, k);
    } else {
      var t :| t in p.queue;
      assert multiset([t]) <= p.queue;
      a := Work(0, PopTasks(t.peer, [t]));
    }
  }

  // ----- every schedule of the work at hand is finite -----

  function WantWeight(h: Handling): nat {
    (match h.pc
     case Deciding => 48
     case NamingRetrieval => 47
     case Awaiting => 6
     case Finished(_) => 0)
    + (match h.retrieval
       case Retrieving => 5
       case Reported(_) => 1
       case _ => 0)
  }

  function WorkerWeight(pc: WorkerPc): nat {
    if pc.Working? && |pc.msg| <= |pc.tasks| then |pc.tasks| - |pc.msg| + 1 else 0
  }

  ghost function WantWeights(wants: map<WantId, Handling>): map<WantId, nat> {
    map w | w in wants :: WantWeight(wants[w])
  }

  ghost function WorkerWeights(workers: map<nat, WorkerPc>): map<nat, nat> {
    map k | k in workers :: WorkerWeight(workers[k])
  }

  /** A step of the manager may queue one task, which is worth three. */
  ghost function PRank(p: PState): nat {
    4 * Rank(p.mgr) + Sum(WantWeights(p.wants)) + 3 * |p.queue| + Sum(WorkerWeights(p.workers))
  }

  lemma ServingRank(p: PState, w: WantId, r: Reaction)
    requires w in p.wants
    ensures PRank(Serving(p, w, p.wants[w], r))
         == PRank(p) - WantWeight(p.wants[w]) + WantWeight(After(p.wants[w], r)) + 3 * |AsSeq(r.said)|
  {
    var g := After(p.wants[w], r);
    SumUpdate(WantWeights(p.wants), w, WantWeight(g));
    assert WantWeights(p.wants[w := g]) == WantWeights(p.wants)[w := WantWeight(g)];
  }

  lemma StartAwaitRank(s: State, w: WaiterId, c: Cid)
    requires w !in s.waiters
    ensures Rank(ApplyAwait(s, w, StartAwait(c))) == Rank(s) + 10
  {
    var x := Waiter(c, AwaitLock, false, [], false);
    SumUpdate(AwaitWeights(s.waiters), w, AwaitWeight(x));
    assert AwaitWeights(s.waiters[w := x]) == AwaitWeights(s.waiters)[w := AwaitWeight(x)];
  }

  /** A want's own step lowers its weight by more than the task it queues is worth. */
  lemma ReactDrops(p: PState, w: WantId, a: WantAction)
    requires PInv(p) && ServeEnabled(p, w, a) && !a.ReceiveWant?
    ensures var h := p.wants[w];
      var r := React(p.cfg, h, a, LookUp(p.mgr.store, h.want.cid, a.DecideWant? && a.fault), WaiterOf(p.mgr, w));
      WantWeight(After(h, r)) + 3 * |AsSeq(r.said)| + (if a == NameRetrieval(false) then 41 else 1) <= WantWeight(h)
  {
    assert HandlingOK(p.cfg, p.wants[w], WaiterOf(p.mgr, w));
  }

  lemma ServeRank(p: PState, w: WantId, a: WantAction)
    requires PInv(p) && ServeEnabled(p, w, a) && !a.ReceiveWant?
    ensures PRank(ApplyServe(p, w, a)) < PRank(p)
  {
    var h := p.wants[w];
    var r := React(p.cfg, h, a, LookUp(p.mgr.store, h.want.cid, a.DecideWant? && a.fault), WaiterOf(p.mgr, w));
    ReactDrops(p, w, a);
    ServingRank(p, w, r);
    if a == NameRetrieval(false) {
      StartAwaitRank(p.mgr, w, h.want.cid);
    } else if a.RetrievalCancels? {
      OutsideRank(p.mgr, CancelWaiter(w));
    }
  }

  /** A callback queues one task and moves nothing else of weight. */
  lemma CallbackRank(t: PState, call: Call)
    requires call.w in t.wants
    ensures var u := Serving(t, call.w, t.wants[call.w], ReactToCall(t.wants[call.w], call.r));
      PRank(u.(mgr := ApplyOutside(t.mgr, CancelWaiter(call.w)))) == PRank(t) + 3
  {
    ServingRank(t, call.w, ReactToCall(t.wants[call.w], call.r));
    OutsideRank(t.mgr, CancelWaiter(call.w));
  }

  lemma ManagerRank(p: PState, b: Action)
    requires PInv(p) && ManagerEnabled(p, b)
    ensures Works(b) ==> PRank(ApplyManager(p, b)) < PRank(p)
    ensures b.Outside? ==> PRank(ApplyManager(p, b)) == PRank(p)
  {
    if Works(b) {
      RankStep(p.mgr, b);
    } else if b.Outside? {
      OutsideRank(p.mgr, b.outside);
    }
    if Fires(p.mgr, b).Some? {
      CallbackRank(p.(mgr := Apply(p.mgr, b)), Fires(p.mgr, b).value);
    }
  }

  lemma WorkerRank(p: PState, k: nat, pc: WorkerPc)
    ensures Sum(WorkerWeights(p.workers[k := pc]))
         == Sum(WorkerWeights(p.workers)) + WorkerWeight(pc)
            - if k in p.workers then WorkerWeight(p.workers[k]) else 0
  {
    SumUpdate(WorkerWeights(p.workers), k, WorkerWeight(pc));
    assert WorkerWeights(p.workers[k := pc]) == WorkerWeights(p.workers)[k := WorkerWeight(pc)];
  }

  lemma WorkRank(p: PState, k: nat, a: WorkerAction)
    requires QueueInv(p) && WorkEnabled(p, k, a)
    ensures PRank(ApplyWork(p, k, a)) < PRank(p)
  {
    WorkerRank(p, k, ApplyWork(p, k, a).workers[k]);
    if a.PopTasks? {
      assert |p.queue - multiset(a.tasks)| == |p.queue| - |a.tasks|;
    }
  }

  lemma PRankStep(p: PState, a: PAction)
    requires PInv(p) && PEnabled(p, a) && PWorks(a)
    ensures PRank(PApply(p, a)) < PRank(p)
  {
    match a
    case Serve(w, b) => ServeRank(p, w, b);
    case Manager(b) => ManagerRank(p, b);
    case Work(k, b) => WorkRank(p, k, b);
  }

  function PWorkDone(trace: seq<PAction>): nat {
    if trace == [] then 0 else PWorkDone(trace[..|trace| - 1]) + if PWorks(trace[|trace| - 1]) then 1 else 0
  }

  ghost predicate PNothingNew(trace: seq<PAction>) {
    forall a | a in trace :: PWorks(a) || (a.Manager? && a.a.Outside?)
  }

  lemma {:induction false} PWorkIsBounded(p: PState, trace: seq<PAction>)
    requires PInv(p) && PNothingNew(trace) && PRun(p, trace).Some?
    ensures PInv(PRun(p, trace).value)
    ensures PWorkDone(trace) + PRank(PRun(p, trace).value) <= PRank(p)
  {
    if trace != [] {
      var n := |trace| - 1;
      assert forall a | a in trace[..n] :: a in trace;
      PWorkIsBounded(p, trace[..n]);
      var t := PRun(p, trace[..n]).value;
      PStep(t, trace[n]);
      if PWorks(trace[n]) {
        PRankStep(t, trace[n]);
      } else {
        ManagerRank(t, trace[n].a);
      }
    }
  }

  ghost predicate PCanWork(p: PState) {
    exists a :: PWorks(a) && PEnabled(p, a)
  }

  lemma PWorkIsUnfinished(p: PState, a: PAction)
    requires PWorks(a) && PEnabled(p, a)
    ensures PUnfinished(p)
  {
    if a.Manager? {
      WorkIsUnfinished(p.mgr, a.a);
    } else if a.Work? && a.work.PopTasks? {
      assert a.work.tasks[0] in multiset(a.work.tasks);
    }
  }

  /** However wants, retrievals, workers and the manager's goroutines are scheduled, from
      any reachable state, and whatever the environment does in between: without new
      work they make at most PRank steps, and they can stop only where everything is
      finished and, if there are workers at all, every queued task was answered. */
  lemma EveryProviderScheduleFinishes(cfg: Config, timeout: nat, store: map<Cid, nat>, trace: seq<PAction>,
          more: seq<PAction>)
    requires PRun(PInit(cfg, timeout, store), trace).Some?
    requires PNothingNew(more) && PRun(PRun(PInit(cfg, timeout, store), trace).value, more).Some?
    ensures var p := PRun(PInit(cfg, timeout, store), trace).value;
      PWorkDone(more) <= PRank(p) && (PUnfinished(PRun(p, more).value) <==> PCanWork(PRun(p, more).value))
  {
    PReachableInv(cfg, timeout, store, trace);
    var p := PRun(PInit(cfg, timeout, store), trace).value;
    PWorkIsBounded(p, more);
    var t := PRun(p, more).value;
    if PUnfinished(t) {
      var a := PDeadlockFreedom(t);
    }
    if PCanWork(t) {
      var a :| PWorks(a) && PEnabled(t, a);
      PWorkIsUnfinished(t, a);
    }
  }
}
