/** What the provider does at each of its decisions, written out: which response is
    queued, as which task, and where the want goes next. */
module ProviderOutcomes {
  import opened Common
  import opened WaitProtocol
  import opened Wants
  import opened ProviderProtocol
  import opened ProviderInvariants
  import opened ProviderTheorems

  /** Between p and t want w was given exactly these responses, as tasks with this topic. */
  predicate Responds(p: PState, t: PState, w: WantId, r: Response, topic: Topic) {
    && w in p.wants && w in t.wants
    && t.wants[w].responses == p.wants[w].responses + [r]
    && t.queue == p.queue + multiset{Task(p.wants[w].want.peer, topic, p.wants[w].want.cid)}
  }

  predicate SaysNothing(p: PState, t: PState, w: WantId) {
    w in p.wants && w in t.wants && t.wants[w].responses == p.wants[w].responses && t.queue == p.queue
  }

  /** Every decision of ReceiveMessage about an entry, in every run and as the store is at
      that moment. A cancel entry, a failed check and an unknown type that the retriever
      cannot serve get nothing; a blacklisted CID gets DONT_HAVE; a stored block gets
      HAVE, or BLOCK with its size, as asked; and a missing one gets DONT_HAVE without a
      retriever, and goes on to a retrieval with one. */
  lemma EntriesAreDecided(cfg: Config, timeout: nat, store: map<Cid, nat>, trace: seq<PAction>, w: WantId, fault: bool)
    requires PRun(PInit(cfg, timeout, store), trace).Some?
    requires ServeEnabled(PRun(PInit(cfg, timeout, store), trace).value, w, DecideWant(fault))
    ensures var p := PRun(PInit(cfg, timeout, store), trace).value;
      var t := ApplyServe(p, w, DecideWant(fault));
      var want := p.wants[w].want;
      var known := want.kind.WantHave? || want.kind.WantBlock?;
      && p.wants[w].responses == [] && t.mgr == p.mgr && t.wants[w].want == want
      && (t.wants[w].pc.Finished? || t.wants[w].pc == NamingRetrieval)
      && (t.wants[w].pc == NamingRetrieval <==>
            && !want.cancel && want.cid !in cfg.blacklist && known && !fault
            && want.cid !in p.mgr.store && cfg.hasRetriever)
      && if want.cancel then SaysNothing(p, t, w)
         else if want.cid in cfg.blacklist then Responds(p, t, w, SendDontHave(BlacklistedCid), TopicDontHave)
         else if known && fault then SaysNothing(p, t, w)
         else if known && want.cid in p.mgr.store then
           if want.kind.WantBlock? then Responds(p, t, w, SendBlock(p.mgr.store[want.cid]), TopicBlock)
           else Responds(p, t, w, SendHave, TopicHave)
         else if cfg.hasRetriever then SaysNothing(p, t, w)
         else Responds(p, t, w, SendDontHave(DisabledRetriever), TopicDontHave)
  {
    NothingSaidYet(cfg, timeout, store, trace, w);
    var p := PRun(PInit(cfg, timeout, store), trace).value;
    assert p.queue + multiset{} == p.queue;
  }

  lemma NothingSaidYet(cfg: Config, timeout: nat, store: map<Cid, nat>, trace: seq<PAction>, w: WantId)
    requires PRun(PInit(cfg, timeout, store), trace).Some?
    ensures var p := PRun(PInit(cfg, timeout, store), trace).value;
      p.cfg == cfg && (w in p.wants && p.wants[w].pc.Deciding? ==> p.wants[w].responses == [])
  {
    PReachableInv(cfg, timeout, store, trace);
    var p := PRun(PInit(cfg, timeout, store), trace).value;
    assert w in p.wants ==> HandlingOK(p.cfg, p.wants[w], WaiterOf(p.mgr, w));
  }

  /** Every call of a waiter's callback, in every run: its block gets HAVE, or BLOCK with
      the size it was announced with, as asked; a timeout or load error gets DONT_HAVE. */
  lemma CallbacksRespond(cfg: Config, timeout: nat, store: map<Cid, nat>, trace: seq<PAction>, b: Action)
    requires PRun(PInit(cfg, timeout, store), trace).Some?
    requires var p := PRun(PInit(cfg, timeout, store), trace).value; ManagerEnabled(p, b) && Fires(p.mgr, b).Some?
    ensures var p := PRun(PInit(cfg, timeout, store), trace).value;
      var t := ApplyManager(p, b);
      var call := Fires(p.mgr, b).value;
      && call.w in p.wants
      && if !call.r.Arrived? then Responds(p, t, call.w, SendDontHave(FailedBlockLoad), TopicDontHave)
         else if p.wants[call.w].want.kind.WantBlock? then Responds(p, t, call.w, SendBlock(call.r.block.size),
                 TopicBlock)
         else p.wants[call.w].want.kind.WantHave? && Responds(p, t, call.w, SendHave, TopicHave)
  {
    PReachableInv(cfg, timeout, store, trace);
    var p := PRun(PInit(cfg, timeout, store), trace).value;
    AwaitedWant(p, b);
    CallQueues(p, b);
  }

  /** The want of a called waiter is one that a retrieval may answer. */
  lemma AwaitedWant(p: PState, b: Action)
    requires PInv(p) && ManagerEnabled(p, b) && Fires(p.mgr, b).Some?
    ensures var w := Fires(p.mgr, b).value.w; w in p.wants && !p.wants[w].want.kind.WantOther?
  {
    FiresOnWaiter(p.mgr, b);
    var w := Fires(p.mgr, b).value.w;
    assert HandlingOK(p.cfg, p.wants[w], WaiterOf(p.mgr, w));
  }

  lemma CallQueues(p: PState, b: Action)
    requires ManagerEnabled(p, b) && Fires(p.mgr, b).Some?
    ensures var call := Fires(p.mgr, b).value;
      call.w in p.wants ==>
        var want := p.wants[call.w].want;
        var r := OnBlock(want, call.r);
        Responds(p, ApplyManager(p, b), call.w, r, TaskFor(want, r).topic)
  {
  }

  /** Every end of a retrieval: no candidates and a failure get DONT_HAVE and then cancel
      the wait, a success only cancels it, and another one running leaves it alone. */
  lemma RetrievalsRespond(p: PState, w: WantId, o: Outcome)
    requires ServeEnabled(p, w, RetrievalEnds(o))
    ensures var t := ApplyServe(p, w, RetrievalEnds(o));
      && t.mgr == p.mgr && t.wants[w].pc == p.wants[w].pc
      && t.wants[w].retrieval == (if o == AlreadyRunning then Ended(AlreadyRunning) else Reported(o))
      && (ServeEnabled(t, w, RetrievalCancels) <==> o != AlreadyRunning)
      && match o
         case NoCandidates => Responds(p, t, w, SendDontHave(NoCandidatesFound), TopicDontHave)
         case Failed => Responds(p, t, w, SendDontHave(RetrievalFailed), TopicDontHave)
         case _ => SaysNothing(p, t, w)
  {
    assert p.wants[w].responses + [] == p.wants[w].responses && p.queue + multiset{} == p.queue;
  }
}
