/** The body of the message loop, run without interruption in the interleaving model,
    queues, waits and retrieves what `BitswapProvider.Provider.HandleEntry` does. */
module ProviderSection {
  import opened Common
  import opened WaitList
  import opened WaitProtocol
  import opened Wants
  import opened ProviderProtocol
  import opened ProviderTheorems
  import opened Sections
  import opened BitswapProvider

  /** p with want w at h, this manager state and these tasks queued. */
  function Moved(p: PState, w: WantId, h: Handling, mgr: State, queued: multiset<Task>): PState {
    p.(wants := p.wants[w := h], mgr := mgr, queue := p.queue + queued)
  }

  /** A step of the manager that starts no AwaitBlock and calls nobody back. */
  lemma QuietStep(p: PState, trace: seq<PAction>, q: PState, b: Action) returns (longer: seq<PAction>)
    requires PRun(p, trace) == Some(q) && Enabled(q.mgr, b) && Fires(q.mgr, b) == None
    requires !(b.Await? && b.await.StartAwait?)
    ensures PRun(p, longer) == Some(q.(mgr := Apply(q.mgr, b)))
  {
    longer := PExtend(p, trace, Manager(b));
  }

  /** So is a whole run of such steps a run of the provider. */
  lemma {:induction false} QuietRun(p: PState, trace: seq<PAction>, q: PState, steps: seq<Action>)
    returns (longer: seq<PAction>)
    requires PRun(p, trace) == Some(q)
    requires Run(q.mgr, steps).Some? && Log(q.mgr, steps) == [] && StartsNone(steps)
    ensures PRun(p, longer) == Some(q.(mgr := Run(q.mgr, steps).value))
    decreases |steps|
  {
    if steps == [] {
      longer := trace;
    } else {
      var n := |steps| - 1;
      assert forall a | a in steps[..n] :: a in steps;
      longer := QuietRun(p, trace, q, steps[..n]);
      assert steps[n] in steps;
      longer := QuietStep(p, longer, q.(mgr := Run(q.mgr, steps[..n]).value), steps[n]);
    }
  }

  /** A step of the want itself, other than starting or ending its wait. */
  lemma OwnRuns(p: PState, trace: seq<PAction>, q: PState, w: WantId, a: WantAction) returns (longer: seq<PAction>)
    requires PRun(p, trace) == Some(q) && w in q.wants && ServeEnabled(q, w, a)
    requires a != NameRetrieval(false) && !a.RetrievalCancels? && !a.ReceiveWant?
    ensures PRun(p, longer) == Some(Serving(q, w, q.wants[w], OwnStep(q, w, a)))
  {
    longer := PExtend(p, trace, Serve(w, a));
  }

  lemma TwiceMoved(p: PState, w: WantId, g: Handling, h: Handling)
    ensures p.wants[w := g][w := h] == p.wants[w := h]
  {
    UpdateTwice(p.wants, w, g, h);
  }

  /** A want's own step after it has moved to g. */
  lemma MovedServes(p: PState, w: WantId, g: Handling, mgr: State, queued: multiset<Task>, r: Reaction)
    ensures Serving(Moved(p, w, g, mgr, queued), w, g, r)
         == Moved(p, w, After(g, r), mgr,
                  queued + if r.said.Some? then multiset{TaskFor(g.want, r.said.value)} else multiset{})
  {
    TwiceMoved(p, w, g, After(g, r));
    var said := if r.said.Some? then multiset{TaskFor(g.want, r.said.value)} else multiset{};
    assert p.queue + queued + said == p.queue + (queued + said);
  }

  /** Where the want stands once a retrieval was named: waiting for AwaitBlock. */
  function Named(want: Want): Handling {
    Handling(want, Awaiting, NotStarted, [])
  }

  /** The manager right after the call of AwaitBlock. */
  function Entered(s: State, w: WaiterId, c: Cid): State {
    s.(waiters := s.waiters[w := Waiter(c, AwaitLock, false, [], false)])
  }

  /** The want, decided; and the call of AwaitBlock, entered, if there is one. */
  lemma DecideRuns(p: PState, w: WantId, a: Answers) returns (trace: seq<PAction>)
    requires Ready(p, w) && FromStore(p, w, a)
    ensures var want := p.wants[w].want;
      var verdict := Decide(p.cfg, want, a.first);
      if verdict.Silent? then
        PRun(p, trace) == Some(Moved(p, w, Handling(want, Finished(Skipped(verdict.why)), NotStarted, []), p.mgr,
                                     multiset{}))
      else if verdict.Reply? then
        PRun(p, trace) == Some(Moved(p, w, Handling(want, Finished(Answered), NotStarted, [verdict.response]), p.mgr,
                                     multiset{TaskFor(want, verdict.response)}))
      else PRun(p, trace) == Some(Moved(p, w, Handling(want, NamingRetrieval, NotStarted, []), p.mgr, multiset{}))
  {
    var want := p.wants[w].want;
    trace := OwnRuns(p, [], p, w, DecideWant(a.first.Fault?));
    SeqFacts(Decide(p.cfg, want, a.first));
    NothingQueued(p.queue);
  }

  lemma SeqFacts(v: Verdict)
    ensures var none: seq<Response> := []; none + [] == none && (v.Reply? ==> none + [v.response] == [v.response])
  {
  }

  lemma NameRuns(p: PState, trace: seq<PAction>, w: WantId, want: Want, fails: bool) returns (longer: seq<PAction>)
    requires w !in p.mgr.waiters
    requires PRun(p, trace) == Some(Moved(p, w, Handling(want, NamingRetrieval, NotStarted, []), p.mgr, multiset{}))
    ensures PRun(p, longer) == Some(
      if fails then Moved(p, w, Handling(want, Finished(NoRetrievalId), NotStarted, []), p.mgr, multiset{})
      else Moved(p, w, Named(want), Entered(p.mgr, w, want.cid), multiset{}))
  {
    var h := Handling(want, NamingRetrieval, NotStarted, []);
    var q := Moved(p, w, h, p.mgr, multiset{});
    longer := PExtend(p, trace, Serve(w, NameRetrieval(fails)));
    var r := React(p.cfg, h, NameRetrieval(fails), LookUp(p.mgr.store, want.cid, false), WaiterOf(p.mgr, w));
    MovedServes(p, w, h, p.mgr, multiset{}, r);
    SeqFacts(Retrieve);
    NothingQueued(multiset{});
  }

  /** A want that ReceiveMessage is about to handle, with the lock free. */
  predicate Ready(p: PState, w: WantId) {
    && w in p.wants && w !in p.mgr.waiters && p.mgr.lock.Free?
    && p.wants[w] == Handling(p.wants[w].want, Deciding, NotStarted, [])
  }

  /** Both lookups are of the store as it is, or fail. */
  predicate FromStore(p: PState, w: WantId, a: Answers)
    requires w in p.wants
  {
    && (a.first.Fault? || a.first == LookUp(p.mgr.store, p.wants[w].want.cid, false))
    && (a.second.Fault? || a.second == LookUp(p.mgr.store, p.wants[w].want.cid, false))
    && a.waiter == w && a.now == p.mgr.clock
  }

  /** Where AwaitBlock leaves its waiter, when nothing interrupts it. */
  function Returned(c: Cid, seen: Lookup): Waiter {
    match seen
    case Absent => Waiter(c, AwaitDone(false), true, [], false)
    case Present(size) => Waiter(c, AwaitDone(true), false, [Arrived(Block(c, size))], false)
    case Fault => Waiter(c, AwaitDone(false), false, [LoadError], false)
  }

  /** AwaitBlock up to its return, on the missing path. */
  lemma MissingRuns(p: PState, trace: seq<PAction>, q: PState, w: WantId, c: Cid) returns (longer: seq<PAction>)
    requires PRun(p, trace) == Some(q) && w !in p.mgr.waiters && p.mgr.lock.Free? && q.mgr == Entered(p.mgr, w, c)
    requires c !in p.mgr.store
    ensures PRun(p, longer) == Some(q.(mgr := p.mgr.(
              waiters := p.mgr.waiters[w := Returned(c, Absent)],
              waitList := WaitList.Append(p.mgr.waitList, c, Entry(w, p.mgr.clock)))))
  {
    var s := q.mgr;
    var x := s.waiters[w];
    var locked := LockAndCheck(s, w, false);
    var steps := RegisterRuns(s, w, locked, x.(pc := AwaitMissing));
    longer := QuietRun(p, trace, q, steps);
    UpdateTwice(p.mgr.waiters, w, x, Returned(c, Absent));
  }

  /** AwaitBlock up to the unlock, on the other two. */
  lemma FoundRuns(p: PState, trace: seq<PAction>, q: PState, w: WantId, c: Cid, fault: bool)
    returns (longer: seq<PAction>)
    requires PRun(p, trace) == Some(q) && w !in p.mgr.waiters && p.mgr.lock.Free? && q.mgr == Entered(p.mgr, w, c)
    requires !LookUp(p.mgr.store, c, fault).Absent?
    ensures PRun(p, longer) == Some(q.(mgr := p.mgr.(waiters := p.mgr.waiters[w :=
              Unlocked(Waiter(c, Checked(LookUp(p.mgr.store, c, fault)), false, [], false))])))
  {
    var s := q.mgr;
    var x := s.waiters[w];
    var y := x.(pc := Checked(LookUp(p.mgr.store, c, fault)));
    var locked := LockAndCheck(s, w, fault);
    var steps := UnlockRuns(s, w, locked, y);
    longer := QuietRun(p, trace, q, steps);
    UpdateTwice(p.mgr.waiters, w, x, Unlocked(y));
  }

  /** The callback: it queues its response, and cancels the want's own context. */
  lemma CallbackLands(p: PState, trace: seq<PAction>, q: PState, w: WantId, x: Waiter) returns (longer: seq<PAction>)
    requires PRun(p, trace) == Some(q) && w in q.wants && AwaitEnabled(q.mgr, w, CallWaiter) && x.calls != []
    requires ApplyAwait(q.mgr, w, CallWaiter) == q.mgr.(waiters := q.mgr.waiters[w := x])
    requires Fires(q.mgr, Await(w, CallWaiter)) == Some(Call(w, x.calls[0]))
    ensures PRun(p, longer) == Some(Serving(q, w, q.wants[w], ReactToCall(q.wants[w], x.calls[0])).(
              mgr := q.mgr.(waiters := q.mgr.waiters[w := x], cancelled := q.mgr.cancelled + {w})))
  {
    longer := PExtend(p, trace, Manager(Await(w, CallWaiter)));
  }

  lemma CallbackRuns(p: PState, trace: seq<PAction>, w: WantId, want: Want, seen: Lookup) returns (longer: seq<PAction>)
    requires w !in p.mgr.waiters && !seen.Absent?
    requires PRun(p, trace) == Some(Moved(p, w, Named(want), p.mgr.(waiters := p.mgr.waiters[w :=
               Unlocked(Waiter(want.cid, Checked(seen), false, [], false))]), multiset{}))
    ensures var e := AwaitEffect(want, seen);
      PRun(p, longer) == Some(Moved(p, w, Named(want).(responses := e.queued), p.mgr.(
        waiters := p.mgr.waiters[w := Returned(want.cid, seen)], cancelled := p.mgr.cancelled + {w}),
        Tasks(want, e.queued)))
  {
    var y, x := Unlocked(Waiter(want.cid, Checked(seen), false, [], false)), Returned(want.cid, seen);
    var mgr := p.mgr.(waiters := p.mgr.waiters[w := y]);
    CallEffect(p.mgr, w, y, x, want, seen);
    UpdateTwice(p.mgr.waiters, w, y, x);
    longer := CallbackLands(p, trace, Moved(p, w, Named(want), mgr, multiset{}), w, x);
    var r := ReactToCall(Named(want), x.calls[0]);
    MovedServes(p, w, Named(want), mgr, multiset{}, r);
    QueuedByCallback(want, seen);
  }

  lemma QueuedByCallback(want: Want, seen: Lookup)
    requires !seen.Absent?
    ensures var r := ReactToCall(Named(want), Returned(want.cid, seen).calls[0]);
      var e := AwaitEffect(want, seen);
      After(Named(want), r) == Named(want).(responses := e.queued)
      && multiset{} + multiset{TaskFor(want, r.said.value)} == Tasks(want, e.queued)
  {
    var r := ReactToCall(Named(want), Returned(want.cid, seen).calls[0]);
    TasksOfOne(want, r.said.value);
    SeqFacts(Reply(r.said.value));
  }

  lemma CallEffect(s: State, w: WaiterId, y: Waiter, x: Waiter, want: Want, seen: Lookup)
    requires !seen.Absent? && y == Unlocked(Waiter(want.cid, Checked(seen), false, [], false))
    requires x == Returned(want.cid, seen)
    ensures var t := s.(waiters := s.waiters[w := y]);
      && AwaitEnabled(t, w, CallWaiter)
      && ApplyAwait(t, w, CallWaiter) == s.(waiters := s.waiters[w := x])
      && Fires(t, Await(w, CallWaiter)) == Some(Call(w, x.calls[0]))
  {
    UpdateTwice(s.waiters, w, y, x);
    assert [] + x.calls == x.calls;
  }

  lemma ReturnEffect(cfg: Config, want: Want, seen: Lookup)
    ensures var e := AwaitEffect(want, seen);
      var h := Named(want).(responses := e.queued);
      var r := React(cfg, h, AwaitReturns, Absent, Some(Returned(want.cid, seen)));
      r.said == None && After(h, r) == Handled(want, e, Finished(if e.retrieves then Launched else FoundAtOnce))
  {
    var e := AwaitEffect(want, seen);
    assert e.queued + [] == e.queued;
  }

  lemma SeenDoesNotMatter(cfg: Config, h: Handling, one: Lookup, other: Lookup, x: Option<Waiter>)
    ensures React(cfg, h, AwaitReturns, one, x) == React(cfg, h, AwaitReturns, other, x)
  {
  }

  /** AwaitBlock has returned: the entry is handled, or its retrieval goroutine starts. */
  lemma ReturnRuns(p: PState, trace: seq<PAction>, w: WantId, want: Want, seen: Lookup, mgr: State)
    returns (longer: seq<PAction>)
    requires w in mgr.waiters && mgr.waiters[w] == Returned(want.cid, seen)
    requires var e := AwaitEffect(want, seen);
      PRun(p, trace) == Some(Moved(p, w, Named(want).(responses := e.queued), mgr, Tasks(want, e.queued)))
    ensures var e := AwaitEffect(want, seen);
      PRun(p, longer) == Some(Moved(p, w, Handled(want, e, Finished(if e.retrieves then Launched else FoundAtOnce)),
                                    mgr, Tasks(want, e.queued)))
  {
    var e := AwaitEffect(want, seen);
    var h := Named(want).(responses := e.queued);
    var q := Moved(p, w, h, mgr, Tasks(want, e.queued));
    longer := OwnRuns(p, trace, q, w, AwaitReturns);
    var r := OwnStep(q, w, AwaitReturns);
    SeenDoesNotMatter(p.cfg, h, LookUp(mgr.store, want.cid, false), Absent, Some(mgr.waiters[w]));
    ReturnEffect(p.cfg, want, seen);
    MovedServes(p, w, h, mgr, Tasks(want, e.queued), r);
    NothingQueued(Tasks(want, e.queued));
  }

  /** The want once its entry is handled with this effect. */
  function Handled(want: Want, e: Effect, pc: WantPc): Handling {
    Handling(want, pc, if e.retrieves then Retrieving else NotStarted, e.queued)
  }

  /** The call of AwaitBlock, to its return. */
  lemma AwaitRuns(p: PState, trace: seq<PAction>, w: WantId, want: Want, seen: Lookup)
    returns (longer: seq<PAction>, mgr: State)
    requires w !in p.mgr.waiters && p.mgr.lock.Free?
    requires seen.Fault? || seen == LookUp(p.mgr.store, want.cid, false)
    requires PRun(p, trace) == Some(Moved(p, w, Named(want), Entered(p.mgr, w, want.cid), multiset{}))
    ensures var e := AwaitEffect(want, seen);
      && PRun(p, longer) == Some(Moved(p, w, Named(want).(responses := e.queued), mgr, Tasks(want, e.queued)))
      && mgr == p.mgr.(waiters := p.mgr.waiters[w := Returned(want.cid, seen)], waitList := mgr.waitList,
                       cancelled := mgr.cancelled)
      && mgr.waitList == if e.waits then WaitList.Append(p.mgr.waitList, want.cid, Entry(w, p.mgr.clock))
                         else p.mgr.waitList
  {
    var q := Moved(p, w, Named(want), Entered(p.mgr, w, want.cid), multiset{});
    if seen.Absent? {
      longer := MissingRuns(p, trace, q, w, want.cid);
      mgr := p.mgr.(waiters := p.mgr.waiters[w := Returned(want.cid, seen)],
                    waitList := WaitList.Append(p.mgr.waitList, want.cid, Entry(w, p.mgr.clock)));
    } else {
      longer := FoundRuns(p, trace, q, w, want.cid, seen.Fault?);
      longer := CallbackRuns(p, longer, w, want, seen);
      mgr := p.mgr.(waiters := p.mgr.waiters[w := Returned(want.cid, seen)], cancelled := p.mgr.cancelled + {w});
    }
  }

  /** From every state in which a want is about to be handled and the lock is free, the
      interleaving model has a run that handles it as the body of the message loop
      does: it queues the same tasks, leaves the same entry in the wait list, starts a
      retrieval exactly when that does, and touches nothing else of the provider. */
  lemma LoopBodyIsASection(p: PState, w: WantId, a: Answers) returns (trace: seq<PAction>)
    requires Ready(p, w) && FromStore(p, w, a)
    ensures PRun(p, trace).Some?
    ensures var want := p.wants[w].want;
      var t := PRun(p, trace).value;
      var e := Handle(p.cfg, want, a);
      && w in t.wants && t == p.(wants := p.wants[w := t.wants[w]], mgr := t.mgr, queue := t.queue)
      && t.wants[w].want == want && t.wants[w].pc.Finished?
      && t.wants[w].responses == e.queued
      && (if e.retrieves then t.wants[w].retrieval == Retrieving else t.wants[w].retrieval == NotStarted)
      && t.queue == p.queue + Tasks(want, e.queued)
      && t.mgr.waitList == (if e.waits then WaitList.Append(p.mgr.waitList, want.cid, Entry(w, a.now))
                            else p.mgr.waitList)
      && t.mgr.store == p.mgr.store && t.mgr.lock.Free?
  {
    var want := p.wants[w].want;
    var verdict := Decide(p.cfg, want, a.first);
    trace := DecideRuns(p, w, a);
    if verdict.Reply? {
      TasksOfOne(want, verdict.response);
    } else if verdict.Retrieve? {
      trace := NameRuns(p, trace, w, want, a.idFails);
      if !a.idFails {
        var mgr;
        trace, mgr := AwaitRuns(p, trace, w, want, a.second);
        trace := ReturnRuns(p, trace, w, want, a.second, mgr);
      }
    }
  }
}
