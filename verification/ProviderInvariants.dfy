/** What every step of the provider keeps. */
module ProviderInvariants {
  import opened Common
  import opened WaitList
  import opened WaitProtocol
  import opened WaitInvariants
  import opened WaitTheorems
  import opened Wants
  import opened ProviderProtocol

  /** The provider would start a retrieval for this want. */
  predicate Retrievable(cfg: Config, want: Want) {
    !want.cancel && want.cid !in cfg.blacklist && !want.kind.WantOther? && cfg.hasRetriever
  }

  function CallbackPart(want: Want, calls: seq<Result>): seq<Response> {
    if calls == [] then [] else [OnBlock(want, calls[0])]
  }

  function RetrievalPart(r: RetrievalPc): seq<Response> {
    match r
    case Reported(o) => AsSeq(RetrievalReport(o))
    case Ended(o) => AsSeq(RetrievalReport(o))
    case _ => []
  }

  /** One list of at most one response each, in either order. */
  predicate Interleaves(rs: seq<Response>, a: seq<Response>, b: seq<Response>) {
    rs == a + b || rs == b + a
  }

  predicate SkippedOK(cfg: Config, want: Want, why: Why) {
    && (why.Cancelled? <==> want.cancel)
    && (!why.Cancelled? ==> want.cid !in cfg.blacklist)
    && (why.Unrecognised? ==> want.kind.WantOther? && cfg.hasRetriever)
    && (why.CheckFailed? ==> !want.kind.WantOther?)
  }

  predicate DirectOK(cfg: Config, want: Want, r: Response) {
    && !want.cancel
    && (Positive(r) ==> want.cid !in cfg.blacklist && !want.kind.WantOther?)
    && (Positive(r) ==> r == Hit(want.kind, if r.SendBlock? then r.size else 0))
    && (want.cid in cfg.blacklist ==> r == SendDontHave(BlacklistedCid))
    && (want.kind.WantOther? ==> want.cid in cfg.blacklist || !cfg.hasRetriever)
  }

  /** Before AwaitBlock is called there is no waiter x, afterwards there is one. */
  predicate HandlingOK(cfg: Config, h: Handling, x: Option<Waiter>) {
    match h.pc
    case Deciding => x.None? && h.retrieval.NotStarted? && h.responses == []
    case NamingRetrieval => x.None? && h.retrieval.NotStarted? && h.responses == [] && Retrievable(cfg, h.want)
    case Awaiting => AwaitedOK(cfg, h, x) && h.retrieval.NotStarted?
    case Finished(Skipped(why)) =>
      x.None? && h.retrieval.NotStarted? && h.responses == [] && SkippedOK(cfg, h.want, why)
    case Finished(Answered) =>
      x.None? && h.retrieval.NotStarted? && |h.responses| == 1 && DirectOK(cfg, h.want, h.responses[0])
    case Finished(NoRetrievalId) => x.None? && h.retrieval.NotStarted? && h.responses == [] && Retrievable(cfg, h.want)
    case Finished(FoundAtOnce) => AwaitedOK(cfg, h, x) && h.retrieval.NotStarted? && x.value.pc == AwaitDone(true)
    case Finished(Launched) => AwaitedOK(cfg, h, x) && !h.retrieval.NotStarted? && x.value.pc == AwaitDone(false)
  }

  predicate AwaitedOK(cfg: Config, h: Handling, x: Option<Waiter>) {
    && x.Some?
    && x.value.cid == h.want.cid
    && Retrievable(cfg, h.want)
    && (h.retrieval.Reported? ==> !h.retrieval.outcome.AlreadyRunning?)
    && Interleaves(h.responses, CallbackPart(h.want, x.value.calls), RetrievalPart(h.retrieval))
  }

  predicate TaskOK(cfg: Config, t: Task) {
    !t.topic.TopicDontHave? ==> t.cid !in cfg.blacklist
  }

  predicate AdditionOK(cfg: Config, a: Addition) {
    !a.AddDontHave? ==> a.cid !in cfg.blacklist
  }

  /** The addition answers the task: for its CID, and positive only in the way asked for. */
  predicate AnswersTask(t: Task, x: Addition) {
    x.cid == t.cid && (x.AddHave? ==> t.topic.TopicHave?) && (x.AddBlock? ==> t.topic.TopicBlock?)
  }

  ghost predicate WorkerOK(cfg: Config, pc: WorkerPc) {
    pc.Working? ==>
      && |pc.msg| <= |pc.tasks|
      && (forall t | t in pc.tasks :: TaskOK(cfg, t) && t.peer == pc.peer)
      && (forall i | 0 <= i < |pc.msg| :: AdditionOK(cfg, pc.msg[i]) && AnswersTask(pc.tasks[i], pc.msg[i]))
  }

  ghost predicate SentOK(cfg: Config, m: Sent) {
    && |m.msg| == |m.tasks|
    && (forall t | t in m.tasks :: t.peer == m.peer)
    && (forall i | 0 <= i < |m.msg| :: AdditionOK(cfg, m.msg[i]) && AnswersTask(m.tasks[i], m.msg[i]))
  }

  ghost predicate QueueInv(p: PState) {
    && (forall t | t in p.queue :: TaskOK(p.cfg, t))
    && (forall k | k in p.workers :: WorkerOK(p.cfg, p.workers[k]))
    && (forall i | 0 <= i < |p.sent| :: SentOK(p.cfg, p.sent[i]))
  }

  ghost predicate WantInv(p: PState) {
    && p.mgr.waiters.Keys <= p.wants.Keys
    && (forall w | w in p.wants :: HandlingOK(p.cfg, p.wants[w], WaiterOf(p.mgr, w)))
  }

  ghost predicate PInv(p: PState) {
    Inv(p.mgr) && WantInv(p) && QueueInv(p)
  }

  lemma FiresOnWaiter(s: State, a: Action)
    requires Inv(s) && Enabled(s, a) && Fires(s, a).Some?
    ensures Fires(s, a).value.w in s.waiters && CallsOf(s, Fires(s, a).value.w) == []
  {
    if a.Poll? {
      HeadWaiters(s.poller.rest);
    } else if a.Sweep? {
      SwapDeleteWaiters(Swept(s), s.sweeper.i);
    }
  }

  /** No HAVE or BLOCK is said about a blacklisted CID. */
  predicate SaidOK(cfg: Config, h: Handling, r: Reaction) {
    r.said.Some? && Positive(r.said.value) ==> h.want.cid !in cfg.blacklist
  }

  /** One want's own step keeps its part of the invariant. */
  lemma ReactOK(cfg: Config, h: Handling, a: WantAction, seen: Lookup, x: Option<Waiter>)
    requires HandlingOK(cfg, h, x)
    requires a.ReceiveWant? || (a.DecideWant? && h.pc.Deciding?)
      || (a.AwaitReturns? && h.pc.Awaiting? && x.value.pc.AwaitDone?)
      || (a == NameRetrieval(true) && h.pc.NamingRetrieval?)
      || (a.RetrievalEnds? && h.retrieval.Retrieving?) || (a.RetrievalCancels? && h.retrieval.Reported?)
    ensures HandlingOK(cfg, After(h, React(cfg, h, a, seen, x)), x)
    ensures SaidOK(cfg, h, React(cfg, h, a, seen, x))
  {
  }

  lemma CallOK(cfg: Config, h: Handling, x: Waiter, y: Waiter, r: Result)
    requires HandlingOK(cfg, h, Some(x)) && x.calls == [] && y.calls == [r] && y.cid == x.cid
    requires x.pc.AwaitDone? ==> y.pc == x.pc
    ensures HandlingOK(cfg, After(h, ReactToCall(h, r)), Some(y))
    ensures SaidOK(cfg, h, ReactToCall(h, r))
  {
  }

  /** Want w moves and no waiter does. */
  lemma OneWantMoves(p: PState, t: PState, w: WantId, h: Handling)
    requires WantInv(p) && t.cfg == p.cfg && t.wants == p.wants[w := h]
    requires t.mgr.waiters == p.mgr.waiters && HandlingOK(t.cfg, h, WaiterOf(p.mgr, w))
    ensures WantInv(t)
  {
    forall v | v in t.wants ensures HandlingOK(t.cfg, t.wants[v], WaiterOf(t.mgr, v)) {
      assert v != w ==> HandlingOK(p.cfg, p.wants[v], WaiterOf(p.mgr, v));
    }
  }

  lemma ServeWants(p: PState, w: WantId, a: WantAction)
    requires WantInv(p) && ServeEnabled(p, w, a) && a != NameRetrieval(false)
    ensures WantInv(ApplyServe(p, w, a))
  {
    var h := if a.ReceiveWant? then Handling(a.want, Deciding, NotStarted, []) else p.wants[w];
    var seen := LookUp(p.mgr.store, h.want.cid, a.DecideWant? && a.fault);
    assert w in p.wants ==> HandlingOK(p.cfg, p.wants[w], WaiterOf(p.mgr, w));
    ReactOK(p.cfg, h, a, seen, WaiterOf(p.mgr, w));
    OneWantMoves(p, ApplyServe(p, w, a), w, After(h, React(p.cfg, h, a, seen, WaiterOf(p.mgr, w))));
  }

  lemma StartWants(p: PState, w: WantId)
    requires WantInv(p) && ServeEnabled(p, w, NameRetrieval(false))
    ensures WantInv(ApplyServe(p, w, NameRetrieval(false)))
  {
    var t := ApplyServe(p, w, NameRetrieval(false));
    forall v | v in t.wants ensures HandlingOK(t.cfg, t.wants[v], WaiterOf(t.mgr, v)) {
      assert HandlingOK(p.cfg, p.wants[v], WaiterOf(p.mgr, v));
    }
  }

  lemma ServingQueue(p: PState, w: WantId, h: Handling, r: Reaction)
    requires QueueInv(p) && SaidOK(p.cfg, h, r)
    ensures QueueInv(Serving(p, w, h, r))
  {
  }

  lemma ServeQueue(p: PState, w: WantId, a: WantAction)
    requires PInv(p) && ServeEnabled(p, w, a)
    ensures QueueInv(ApplyServe(p, w, a))
  {
    var h := if a.ReceiveWant? then Handling(a.want, Deciding, NotStarted, []) else p.wants[w];
    var seen := LookUp(p.mgr.store, h.want.cid, a.DecideWant? && a.fault);
    if a != NameRetrieval(false) {
      ReactOK(p.cfg, h, a, seen, WaiterOf(p.mgr, w));
    }
    ServingQueue(p, w, h, React(p.cfg, h, a, seen, WaiterOf(p.mgr, w)));
  }

  lemma CallKeepsWant(p: PState, b: Action)
    requires WantInv(p) && ManagerEnabled(p, b) && Fires(p.mgr, b).Some?
    requires Fires(p.mgr, b).value.w in p.mgr.waiters && CallsOf(p.mgr, Fires(p.mgr, b).value.w) == []
    ensures var call := Fires(p.mgr, b).value;
      var t := ApplyManager(p, b);
      && HandlingOK(t.cfg, t.wants[call.w], WaiterOf(t.mgr, call.w))
      && SaidOK(p.cfg, p.wants[call.w], ReactToCall(p.wants[call.w], call.r))
  {
    var call := Fires(p.mgr, b).value;
    CallsAreALog(p.mgr, b, call.w);
    assert HandlingOK(p.cfg, p.wants[call.w], WaiterOf(p.mgr, call.w));
    CallOK(p.cfg, p.wants[call.w], p.mgr.waiters[call.w], Apply(p.mgr, b).waiters[call.w], call.r);
  }

  lemma QuietKeepsWant(p: PState, b: Action, w: WantId)
    requires WantInv(p) && ManagerEnabled(p, b) && w in p.wants
    requires Fires(p.mgr, b).Some? ==> Fires(p.mgr, b).value.w != w
    ensures HandlingOK(p.cfg, p.wants[w], WaiterOf(Apply(p.mgr, b), w))
  {
    CallsAreALog(p.mgr, b, w);
    assert HandlingOK(p.cfg, p.wants[w], WaiterOf(p.mgr, w));
  }

  /** Around a manager step, only the want that is called moves. */
  lemma ManagerMoves(p: PState, b: Action)
    requires ManagerEnabled(p, b)
    ensures var t := ApplyManager(p, b);
      && t.cfg == p.cfg && t.wants.Keys == p.wants.Keys && t.mgr.waiters == Apply(p.mgr, b).waiters
      && (forall w | w in p.wants && !(Fires(p.mgr, b).Some? && Fires(p.mgr, b).value.w == w) ::
            t.wants[w] == p.wants[w])
  {
  }

  lemma ManagerWants(p: PState, b: Action)
    requires Inv(p.mgr) && WantInv(p) && ManagerEnabled(p, b)
    ensures WantInv(ApplyManager(p, b))
  {
    var t := ApplyManager(p, b);
    ManagerMoves(p, b);
    forall w | w in t.mgr.waiters ensures w in t.wants {
      CallsAreALog(p.mgr, b, w);
    }
    forall w | w in t.wants ensures HandlingOK(t.cfg, t.wants[w], WaiterOf(t.mgr, w)) {
      if Fires(p.mgr, b).Some? && Fires(p.mgr, b).value.w == w {
        FiresOnWaiter(p.mgr, b);
        CallKeepsWant(p, b);
      } else {
        QuietKeepsWant(p, b, w);
      }
    }
  }

  lemma ManagerQueue(p: PState, b: Action)
    requires PInv(p) && ManagerEnabled(p, b)
    ensures QueueInv(ApplyManager(p, b))
  {
    if Fires(p.mgr, b).Some? {
      var call := Fires(p.mgr, b).value;
      FiresOnWaiter(p.mgr, b);
      CallKeepsWant(p, b);
      ServingQueue(p, call.w, p.wants[call.w], ReactToCall(p.wants[call.w], call.r));
    }
  }

  lemma WorkQueue(p: PState, k: nat, a: WorkerAction)
    requires QueueInv(p) && WorkEnabled(p, k, a)
    ensures QueueInv(ApplyWork(p, k, a))
  {
    if a.PopTasks? {
      forall t | t in a.tasks ensures TaskOK(p.cfg, t) {
        assert t in multiset(a.tasks);
      }
    }
  }

  lemma ManagerStays(p: PState, a: PAction)
    requires PInv(p) && PEnabled(p, a)
    ensures Inv(PApply(p, a).mgr)
  {
    if a.Manager? {
      Step(p.mgr, a.a);
      if Fires(p.mgr, a.a).Some? {
        Step(Apply(p.mgr, a.a), Outside(CancelWaiter(Fires(p.mgr, a.a).value.w)));
      }
    } else if a.Serve? && a.serve == NameRetrieval(false) {
      Step(p.mgr, Await(a.w, StartAwait(p.wants[a.w].want.cid)));
    } else if a.Serve? && a.serve.RetrievalCancels? {
      Step(p.mgr, Outside(CancelWaiter(a.w)));
    }
  }

  lemma PStep(p: PState, a: PAction)
    requires PInv(p) && PEnabled(p, a)
    ensures PInv(PApply(p, a))
  {
    ManagerStays(p, a);
    match a
    case Serve(w, b) =>
      if b == NameRetrieval(false) {
        StartWants(p, w);
      } else {
        ServeWants(p, w, b);
      }
      ServeQueue(p, w, b);
    case Manager(b) =>
      ManagerWants(p, b);
      ManagerQueue(p, b);
    case Work(k, b) =>
      WorkQueue(p, k, b);
  }
}
