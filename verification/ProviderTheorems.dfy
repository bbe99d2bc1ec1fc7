/** Whole-run properties of the provider: how often a want is answered, exactly
    when it is answered with silence, and that nothing positive is ever said
    about a blacklisted CID. */
module ProviderTheorems {
  import opened Common
  import opened WaitList
  import opened WaitProtocol
  import opened WaitInvariants
  import opened WaitTheorems
  import opened Wants
  import opened ProviderProtocol
  import opened ProviderInvariants

  lemma {:induction false} PReachableInv(cfg: Config, timeout: nat, store: map<Cid, nat>, trace: seq<PAction>)
    requires PRun(PInit(cfg, timeout, store), trace).Some?
    ensures PInv(PRun(PInit(cfg, timeout, store), trace).value)
    ensures PRun(PInit(cfg, timeout, store), trace).value.cfg == cfg
  {
    if trace == [] {
      InitInv(timeout, store);
    } else {
      var prefix := trace[..|trace| - 1];
      PReachableInv(cfg, timeout, store, prefix);
      PStep(PRun(PInit(cfg, timeout, store), prefix).value, trace[|trace| - 1]);
    }
  }

  /** Take one more step. */
  lemma PExtend(p0: PState, trace: seq<PAction>, a: PAction) returns (longer: seq<PAction>)
    requires PRun(p0, trace).Some? && PEnabled(PRun(p0, trace).value, a)
    ensures longer == trace + [a] && PRun(p0, longer) == Some(PApply(PRun(p0, trace).value, a))
  {
    longer := trace + [a];
    assert longer[..|trace|] == trace;
  }

  /** Every want's record, and its waiter's, is consistent; a waiter that is
      neither listed nor captured is not waiting. */
  lemma WantFacts(cfg: Config, timeout: nat, store: map<Cid, nat>, trace: seq<PAction>, w: WantId)
    requires PRun(PInit(cfg, timeout, store), trace).Some?
    requires w in PRun(PInit(cfg, timeout, store), trace).value.wants
    ensures var p := PRun(PInit(cfg, timeout, store), trace).value;
      && HandlingOK(cfg, p.wants[w], WaiterOf(p.mgr, w))
      && (w in p.mgr.waiters ==> WaiterOK(p.mgr.waiters[w], w in p.mgr.cancelled))
      && (w in p.mgr.waiters && Waiting(p.mgr.waiters[w]) ==> Listed(p.mgr, w) || w in Captured(p.mgr))
  {
    PReachableInv(cfg, timeout, store, trace);
  }

  /** At most two responses and at most one positive one, of the kind asked for;
      exactly one if answered from the store or by AwaitBlock returning true. */
  ghost predicate WellAnswered(h: Handling) {
    && |h.responses| <= 2
    && (forall i, j | 0 <= i < j < |h.responses| :: !(Positive(h.responses[i]) && Positive(h.responses[j])))
    && (forall r | r in h.responses ::
          (r.SendBlock? ==> h.want.kind.WantBlock?) && (r.SendHave? ==> h.want.kind.WantHave?))
    && (h.pc == Finished(Answered) || h.pc == Finished(FoundAtOnce) ==> |h.responses| == 1)
    && (h.pc == Finished(FoundAtOnce) ==> Positive(h.responses[0]))
    && (h.want.cancel ==> h.responses == [])
  }

  lemma HandlingIsWellAnswered(cfg: Config, h: Handling, x: Option<Waiter>, cancelled: bool)
    requires HandlingOK(cfg, h, x) && (x.Some? ==> WaiterOK(x.value, cancelled))
    ensures WellAnswered(h)
  {
    if h.pc.Awaiting? || h.pc == Finished(FoundAtOnce) || h.pc == Finished(Launched) {
      var called, reported := CallbackPart(h.want, x.value.calls), RetrievalPart(h.retrieval);
      assert |called| <= 1 && |reported| <= 1 && forall r | r in reported :: !Positive(r);
      assert h.responses == called + reported || h.responses == reported + called;
    }
  }

  /** Over every run, every want is well answered. */
  lemma AtMostTwoResponses(cfg: Config, timeout: nat, store: map<Cid, nat>, trace: seq<PAction>, w: WantId)
    requires PRun(PInit(cfg, timeout, store), trace).Some?
    ensures var p := PRun(PInit(cfg, timeout, store), trace).value;
      w in p.wants ==> WellAnswered(p.wants[w])
  {
    var p := PRun(PInit(cfg, timeout, store), trace).value;
    if w in p.wants {
      WantFacts(cfg, timeout, store, trace, w);
      HandlingIsWellAnswered(cfg, p.wants[w], WaiterOf(p.mgr, w), w in p.mgr.cancelled);
    }
  }

  /** The goroutines serving the want are done. */
  predicate GoroutinesDone(h: Handling) {
    h.pc.Finished? && !h.retrieval.Retrieving? && !h.retrieval.Reported?
  }

  // ----- who cancels a wait -----

  /** Somewhere in the run the environment cancelled the context of this want's wait. */
  predicate CancelledIn(trace: seq<PAction>, w: WantId) {
    Manager(Outside(CancelWaiter(w))) in trace
  }

  /** The want's callback has run, or its retrieval goroutine has ended other than by
      finding that another retrieval was running. */
  ghost predicate CancelsItself(p: PState, w: WantId) {
    || CallsOf(p.mgr, w) != []
    || (w in p.wants && p.wants[w].retrieval.Ended? && !p.wants[w].retrieval.outcome.AlreadyRunning?)
  }

  lemma ServeCancels(p: PState, v: WantId, a: WantAction, w: WantId)
    requires WantInv(p) && ServeEnabled(p, v, a)
    ensures var t := ApplyServe(p, v, a);
      && (CancelsItself(t, w) <==> CancelsItself(p, w) || (a.RetrievalCancels? && v == w))
      && (w in t.mgr.cancelled <==> w in p.mgr.cancelled || (a.RetrievalCancels? && v == w))
  {
    assert v in p.wants ==> HandlingOK(p.cfg, p.wants[v], WaiterOf(p.mgr, v));
  }

  lemma ManagerCancels(p: PState, b: Action, w: WantId)
    requires ManagerEnabled(p, b)
    ensures var t := ApplyManager(p, b);
      var called := Fires(p.mgr, b).Some? && Fires(p.mgr, b).value.w == w;
      && (CancelsItself(t, w) <==> CancelsItself(p, w) || called)
      && (w in t.mgr.cancelled <==> w in p.mgr.cancelled || called || b == Outside(CancelWaiter(w)))
  {
    CallsAreALog(p.mgr, b, w);
    TimeGoesOn(p.mgr, b);
    CancelKeepsCalls(p, b, w);
  }

  /** Calling back keeps the retrievals and the records of calls. */
  lemma CancelKeepsCalls(p: PState, b: Action, w: WantId)
    requires ManagerEnabled(p, b)
    ensures var t := ApplyManager(p, b);
      && CallsOf(t.mgr, w) == CallsOf(Apply(p.mgr, b), w)
      && (w in t.wants <==> w in p.wants) && (w in p.wants ==> t.wants[w].retrieval == p.wants[w].retrieval)
  {
  }

  lemma CancelStep(p: PState, a: PAction, w: WantId, outside: bool)
    requires WantInv(p) && PEnabled(p, a) && (w in p.mgr.cancelled <==> outside || CancelsItself(p, w))
    ensures var t := PApply(p, a);
      w in t.mgr.cancelled <==> outside || a == Manager(Outside(CancelWaiter(w))) || CancelsItself(t, w)
  {
    if a.Serve? {
      ServeCancels(p, a.w, a.serve, w);
    } else if a.Manager? {
      ManagerCancels(p, a.a, w);
    }
  }

  lemma OneMoreCancel(trace: seq<PAction>, w: WantId)
    requires trace != []
    ensures CancelledIn(trace, w) <==>
      CancelledIn(trace[..|trace| - 1], w) || trace[|trace| - 1] == Manager(Outside(CancelWaiter(w)))
  {
    assert trace == trace[..|trace| - 1] + [trace[|trace| - 1]];
  }

  lemma {:induction false} RunsCancel(cfg: Config, timeout: nat, store: map<Cid, nat>, trace: seq<PAction>, w: WantId)
    requires PRun(PInit(cfg, timeout, store), trace).Some?
    ensures var p := PRun(PInit(cfg, timeout, store), trace).value;
      w in p.mgr.cancelled <==> CancelledIn(trace, w) || CancelsItself(p, w)
  {
    if trace != [] {
      var n := |trace| - 1;
      RunsCancel(cfg, timeout, store, trace[..n], w);
      PReachableInv(cfg, timeout, store, trace[..n]);
      OneMoreCancel(trace, w);
      CancelStep(PRun(PInit(cfg, timeout, store), trace[..n]).value, trace[n], w, CancelledIn(trace[..n], w));
    }
  }

  /** Who cancels a wait, exactly: over every run the context of a want's wait is
      cancelled if and only if the environment cancelled it, its callback has run, or
      its retrieval goroutine has ended other than by finding another one running. */
  lemma WaitIsCancelledExactly(cfg: Config, timeout: nat, store: map<Cid, nat>, trace: seq<PAction>, w: WantId)
    requires PRun(PInit(cfg, timeout, store), trace).Some?
    ensures var p := PRun(PInit(cfg, timeout, store), trace).value;
      w in p.mgr.cancelled <==>
        || CancelledIn(trace, w)
        || CallsOf(p.mgr, w) != []
        || (w in p.wants && p.wants[w].retrieval.Ended? && !p.wants[w].retrieval.outcome.AlreadyRunning?)
  {
    RunsCancel(cfg, timeout, store, trace, w);
  }

  /** A wait whose retrieval was already running elsewhere is left alone: the sweep drops
      it only if the environment cancelled it. */
  lemma RunningWaitsAreKept(cfg: Config, timeout: nat, store: map<Cid, nat>, trace: seq<PAction>, w: WantId)
    requires PRun(PInit(cfg, timeout, store), trace).Some?
    ensures var p := PRun(PInit(cfg, timeout, store), trace).value;
      && w in p.wants && p.wants[w].retrieval == Ended(AlreadyRunning)
      && w in p.mgr.waiters && p.mgr.waiters[w].dropped ==>
        CancelledIn(trace, w)
  {
    WaitIsCancelledExactly(cfg, timeout, store, trace, w);
    PReachableInv(cfg, timeout, store, trace);
    var p := PRun(PInit(cfg, timeout, store), trace).value;
    assert w in p.mgr.waiters ==> WaiterOK(p.mgr.waiters[w], w in p.mgr.cancelled);
  }

  // ----- silent wants -----

  /** Somewhere in the run the store check of this want failed. */
  predicate CheckFailedIn(trace: seq<PAction>, w: WantId) {
    Serve(w, DecideWant(true)) in trace
  }

  /** Somewhere in the run no retrieval ID could be made for this want. */
  predicate NoIdIn(trace: seq<PAction>, w: WantId) {
    Serve(w, NameRetrieval(true)) in trace
  }

  /** Where the want stands tells whether those things happened. */
  predicate PathTells(cfg: Config, trace: seq<PAction>, w: WantId, h: Handling) {
    && (h.pc.Deciding? ==> !CheckFailedIn(trace, w))
    && (h.pc.Deciding? || h.pc.NamingRetrieval? ==> !NoIdIn(trace, w))
    && (h.pc == Finished(Skipped(CheckFailed)) <==>
          CheckFailedIn(trace, w) && !h.want.cancel && h.want.cid !in cfg.blacklist && !h.want.kind.WantOther?)
    && (h.pc == Finished(NoRetrievalId) <==> NoIdIn(trace, w))
  }

  /** What want w does in its own step. */
  function OwnStep(p: PState, w: WantId, a: WantAction): Reaction
    requires w in p.wants
  {
    React(p.cfg, p.wants[w], a, LookUp(p.mgr.store, p.wants[w].want.cid, a.DecideWant? && a.fault), WaiterOf(p.mgr, w))
  }

  /** How one step moves a want. */
  lemma WantSteps(p: PState, a: PAction, w: WantId)
    requires PEnabled(p, a)
    ensures var t := PApply(p, a);
      && (w in t.wants && w !in p.wants ==> a.Serve? && a.serve.ReceiveWant? && t.wants[w].pc.Deciding?)
      && (w in p.wants ==> w in t.wants && t.wants[w].want == p.wants[w].want)
      && (w in p.wants && !(a.Serve? && a.w == w) ==> t.wants[w].pc == p.wants[w].pc)
      && (w in p.wants && a.Serve? && a.w == w ==> !a.serve.ReceiveWant? && t.wants[w].pc == OwnStep(p, w, a.serve).pc)
  {
  }

  lemma OneMoreAction(trace: seq<PAction>, w: WantId)
    requires trace != []
    ensures var a := trace[|trace| - 1];
      && (CheckFailedIn(trace, w) <==> CheckFailedIn(trace[..|trace| - 1], w) || a == Serve(w, DecideWant(true)))
      && (NoIdIn(trace, w) <==> NoIdIn(trace[..|trace| - 1], w) || a == Serve(w, NameRetrieval(true)))
  {
    assert trace == trace[..|trace| - 1] + [trace[|trace| - 1]];
  }

  /** One step of the want itself: only a failing check or a failing name leads there. */
  lemma ReactTells(cfg: Config, h: Handling, a: WantAction, seen: Lookup, x: Option<Waiter>)
    requires a.DecideWant? ==> h.pc.Deciding? && (seen.Fault? <==> a.fault)
    requires (a.NameRetrieval? ==> h.pc.NamingRetrieval?) && (a.AwaitReturns? ==> h.pc.Awaiting?)
    ensures var pc := React(cfg, h, a, seen, x).pc;
      && (pc == Finished(Skipped(CheckFailed)) <==>
            h.pc == Finished(Skipped(CheckFailed))
            || (a == DecideWant(true) && !h.want.cancel && h.want.cid !in cfg.blacklist && !h.want.kind.WantOther?))
      && (pc == Finished(NoRetrievalId) <==> h.pc == Finished(NoRetrievalId) || a == NameRetrieval(true))
      && (pc.Deciding? ==> h.pc.Deciding? && !a.DecideWant?)
      && (pc.NamingRetrieval? ==> (h.pc.Deciding? || h.pc.NamingRetrieval?) && !a.NameRetrieval?)
  {
  }

  lemma {:induction false} PathsTell(cfg: Config, timeout: nat, store: map<Cid, nat>, trace: seq<PAction>, w: WantId)
    requires PRun(PInit(cfg, timeout, store), trace).Some?
    ensures var p := PRun(PInit(cfg, timeout, store), trace).value;
      if w in p.wants then PathTells(cfg, trace, w, p.wants[w]) else !CheckFailedIn(trace, w) && !NoIdIn(trace, w)
  {
    if trace != [] {
      var n := |trace| - 1;
      PathsTell(cfg, timeout, store, trace[..n], w);
      PReachableInv(cfg, timeout, store, trace[..n]);
      var p := PRun(PInit(cfg, timeout, store), trace[..n]).value;
      PathTellsStep(p, trace, w);
    }
  }

  lemma PathTellsStep(p: PState, trace: seq<PAction>, w: WantId)
    requires trace != [] && PEnabled(p, trace[|trace| - 1])
    requires var before := trace[..|trace| - 1];
      if w in p.wants then PathTells(p.cfg, before, w, p.wants[w]) else !CheckFailedIn(before, w) && !NoIdIn(before, w)
    ensures var t := PApply(p, trace[|trace| - 1]);
      if w in t.wants then PathTells(p.cfg, trace, w, t.wants[w]) else !CheckFailedIn(trace, w) && !NoIdIn(trace, w)
  {
    var a := trace[|trace| - 1];
    WantSteps(p, a, w);
    OneMoreAction(trace, w);
    if w in p.wants && a.Serve? && a.w == w {
      var h := p.wants[w];
      ReactTells(p.cfg, h, a.serve, LookUp(p.mgr.store, h.want.cid, a.serve.DecideWant? && a.serve.fault),
                 WaiterOf(p.mgr, w));
    }
  }

  /** A cancel entry; an unknown want type that no other answer settles; a failed store
      check; no retrieval ID; or a wait that the sweep dropped while the retrieval said
      nothing: it succeeded, or another one was running and the environment cancelled
      the wait. */
  predicate SilentCause(cfg: Config, trace: seq<PAction>, w: WantId, h: Handling, x: Option<Waiter>) {
    || h.want.cancel
    || (h.want.kind.WantOther? && h.want.cid !in cfg.blacklist && cfg.hasRetriever)
    || (CheckFailedIn(trace, w) && h.want.cid !in cfg.blacklist && !h.want.kind.WantOther?)
    || NoIdIn(trace, w)
    || (x.Some? && x.value.dropped
        && (h.retrieval == Ended(Succeeded) || (h.retrieval == Ended(AlreadyRunning) && CancelledIn(trace, w))))
  }

  lemma SilentHandling(cfg: Config, trace: seq<PAction>, w: WantId, h: Handling, x: Option<Waiter>, cancelled: bool)
    requires HandlingOK(cfg, h, x) && GoroutinesDone(h) && PathTells(cfg, trace, w, h)
    requires x.Some? ==> WaiterOK(x.value, cancelled) && !Waiting(x.value)
    requires x.Some? && x.value.dropped && h.retrieval == Ended(AlreadyRunning) ==> CancelledIn(trace, w)
    ensures h.responses == [] <==> SilentCause(cfg, trace, w, h, x)
    ensures x.Some? && x.value.dropped ==> cancelled
  {
  }

  /** Silent wants, exactly: once a want's goroutines are done and its waiter has
      left the list, it got no response if and only if there is a silent cause;
      and a wait is dropped only with its context cancelled. */
  lemma SilentWants(cfg: Config, timeout: nat, store: map<Cid, nat>, trace: seq<PAction>, w: WantId)
    requires PRun(PInit(cfg, timeout, store), trace).Some?
    ensures var p := PRun(PInit(cfg, timeout, store), trace).value;
      w in p.wants && GoroutinesDone(p.wants[w]) && !Listed(p.mgr, w) && w !in Captured(p.mgr) ==>
        && (p.wants[w].responses == [] <==> SilentCause(cfg, trace, w, p.wants[w], WaiterOf(p.mgr, w)))
        && (w in p.mgr.waiters && p.mgr.waiters[w].dropped ==> w in p.mgr.cancelled)
  {
    var p := PRun(PInit(cfg, timeout, store), trace).value;
    if w in p.wants && GoroutinesDone(p.wants[w]) && !Listed(p.mgr, w) && w !in Captured(p.mgr) {
      WantFacts(cfg, timeout, store, trace, w);
      PathsTell(cfg, timeout, store, trace, w);
      RunningWaitsAreKept(cfg, timeout, store, trace, w);
      SilentHandling(cfg, trace, w, p.wants[w], WaiterOf(p.mgr, w), w in p.mgr.cancelled);
    }
  }

  lemma BlacklistedHandling(cfg: Config, h: Handling, x: Option<Waiter>)
    requires HandlingOK(cfg, h, x) && h.want.cid in cfg.blacklist
    ensures x.None? && forall r | r in h.responses :: !Positive(r)
  {
  }

  /** No want for a blacklisted CID is ever waited for or answered positively. */
  lemma BlacklistedWants(cfg: Config, timeout: nat, store: map<Cid, nat>, trace: seq<PAction>, w: WantId)
    requires PRun(PInit(cfg, timeout, store), trace).Some?
    ensures var p := PRun(PInit(cfg, timeout, store), trace).value;
      w in p.wants && p.wants[w].want.cid in cfg.blacklist ==>
        w !in p.mgr.waiters && forall r | r in p.wants[w].responses :: !Positive(r)
  {
    var p := PRun(PInit(cfg, timeout, store), trace).value;
    if w in p.wants && p.wants[w].want.cid in cfg.blacklist {
      WantFacts(cfg, timeout, store, trace, w);
      BlacklistedHandling(cfg, p.wants[w], WaiterOf(p.mgr, w));
    }
  }

  /** Nothing positive about a blacklisted CID is ever queued, held by a worker or sent. */
  lemma BlacklistedTasks(cfg: Config, timeout: nat, store: map<Cid, nat>, trace: seq<PAction>)
    requires PRun(PInit(cfg, timeout, store), trace).Some?
    ensures var p := PRun(PInit(cfg, timeout, store), trace).value;
      && (forall t | t in p.queue && t.cid in cfg.blacklist :: t.topic.TopicDontHave?)
      && (forall k | k in p.workers && p.workers[k].Working? ::
            forall i | 0 <= i < |p.workers[k].msg| && p.workers[k].msg[i].cid in cfg.blacklist ::
              p.workers[k].msg[i].AddDontHave?)
      && (forall m | m in p.sent :: forall x | x in m.msg && x.cid in cfg.blacklist :: x.AddDontHave?)
  {
    PReachableInv(cfg, timeout, store, trace);
    var p := PRun(PInit(cfg, timeout, store), trace).value;
    assert QueueInv(p);
  }

  /** Over every run, every message sent has one addition for each task it answers, in
      order, for that task's CID, all for one peer, and HAVE or BLOCK only where the
      task asks for that. */
  lemma MessagesAreComplete(cfg: Config, timeout: nat, store: map<Cid, nat>, trace: seq<PAction>, n: nat)
    requires PRun(PInit(cfg, timeout, store), trace).Some?
    ensures var p := PRun(PInit(cfg, timeout, store), trace).value;
      n < |p.sent| ==>
        var m := p.sent[n];
        && |m.msg| == |m.tasks|
        && forall i | 0 <= i < |m.msg| :: m.tasks[i].peer == m.peer && AnswersTask(m.tasks[i], m.msg[i])
  {
    PReachableInv(cfg, timeout, store, trace);
    var p := PRun(PInit(cfg, timeout, store), trace).value;
    assert n < |p.sent| ==> SentOK(cfg, p.sent[n]);
  }

  /** No worker ever moves but the maxWorkers that were started. */
  lemma {:induction false} WorkersAreBounded(cfg: Config, timeout: nat, store: map<Cid, nat>, trace: seq<PAction>,
          k: nat)
    requires PRun(PInit(cfg, timeout, store), trace).Some?
    ensures k in PRun(PInit(cfg, timeout, store), trace).value.workers ==> k < cfg.maxWorkers
  {
    if trace != [] {
      var n := |trace| - 1;
      PReachableInv(cfg, timeout, store, trace[..n]);
      WorkersAreBounded(cfg, timeout, store, trace[..n], k);
      WorkersJoin(PRun(PInit(cfg, timeout, store), trace[..n]).value, trace[n], k);
    }
  }

  lemma WorkersJoin(p: PState, a: PAction, k: nat)
    requires PEnabled(p, a)
    ensures k in PApply(p, a).workers ==> k in p.workers || k < p.cfg.maxWorkers
  {
  }

  // ----- the provider only drives the manager through its own steps -----

  /** The manager's steps inside one provider step. */
  ghost function Inside(p: PState, a: PAction): seq<Action>
    requires PEnabled(p, a)
  {
    match a
    case Serve(w, NameRetrieval(false)) => [Await(w, StartAwait(p.wants[w].want.cid))]
    case Serve(w, RetrievalCancels) => [Outside(CancelWaiter(w))]
    case Manager(b) => [b] + (if Fires(p.mgr, b).Some? then [Outside(CancelWaiter(Fires(p.mgr, b).value.w))] else [])
    case _ => []
  }

  ghost function Project(p: PState, trace: seq<PAction>): seq<Action>
    requires PRun(p, trace).Some?
  {
    if trace == [] then []
    else
      var n := |trace| - 1;
      Project(p, trace[..n]) + Inside(PRun(p, trace[..n]).value, trace[n])
  }

  lemma RunExtends(s: State, trace: seq<Action>, a: Action)
    requires Run(s, trace).Some? && Enabled(Run(s, trace).value, a)
    ensures Run(s, trace + [a]) == Some(Apply(Run(s, trace).value, a))
  {
    assert (trace + [a])[..|trace|] == trace;
  }

  lemma InsideRuns(s0: State, done: seq<Action>, p: PState, a: PAction)
    requires PEnabled(p, a) && Run(s0, done) == Some(p.mgr)
    ensures Run(s0, done + Inside(p, a)) == Some(PApply(p, a).mgr)
  {
    var steps := Inside(p, a);
    if steps == [] {
      assert done + steps == done;
    } else {
      RunExtends(s0, done, steps[0]);
      if |steps| == 2 {
        RunExtends(s0, done + [steps[0]], steps[1]);
        assert done + steps == done + [steps[0]] + [steps[1]];
      } else {
        assert steps == [steps[0]];
      }
    }
  }

  /** Every provider run contains a manager run, so all of the manager's theorems
      hold inside the provider. */
  lemma {:induction false} ProviderRefinesManager(cfg: Config, timeout: nat, store: map<Cid, nat>, trace: seq<PAction>)
    requires PRun(PInit(cfg, timeout, store), trace).Some?
    ensures var p0 := PInit(cfg, timeout, store);
      Run(Init(timeout, store), Project(p0, trace)) == Some(PRun(p0, trace).value.mgr)
  {
    var p0 := PInit(cfg, timeout, store);
    if trace != [] {
      var n := |trace| - 1;
      ProviderRefinesManager(cfg, timeout, store, trace[..n]);
      InsideRuns(Init(timeout, store), Project(p0, trace[..n]), PRun(p0, trace[..n]).value, trace[n]);
    }
  }

  /** In every provider run, a block that a want waits for and that is stored is
      still to be announced, unless an announcement was skipped for that want. */
  lemma WantsAreWoken(cfg: Config, timeout: nat, store: map<Cid, nat>, trace: seq<PAction>, w: WantId)
    requires PRun(PInit(cfg, timeout, store), trace).Some?
    ensures var p0 := PInit(cfg, timeout, store);
      var s := PRun(p0, trace).value.mgr;
      Listed(s, w) && s.waiters[w].cid in s.store && !SkippedFor(Init(timeout, store), Project(p0, trace), w)
      ==> Pending(s, s.waiters[w].cid)
  {
    ProviderRefinesManager(cfg, timeout, store, trace);
    NoLostWakeup(timeout, store, Project(PInit(cfg, timeout, store), trace), w);
  }

  // ----- nobody but Manager.Put wakes a waiter -----

  ghost predicate NothingAnnounced(s: State) {
    && s.putters == map[]
    && s.ready == []
    && s.poller.PollIdle?
    && (forall w | w in s.waiters && s.waiters[w].registered :: forall r | r in s.waiters[w].calls :: r.TimedOut?)
  }

  predicate StartsPut(a: PAction) {
    a.Manager? && a.a.Put?
  }

  lemma NothingAnnouncedAwait(s: State, w: WaiterId, a: AwaitAction)
    requires WaiterInv(s) && NothingAnnounced(s) && AwaitEnabled(s, w, a)
    ensures NothingAnnounced(ApplyAwait(s, w, a))
  {
    assert w in s.waiters ==> WaiterOK(s.waiters[w], w in s.cancelled);
  }

  lemma NothingAnnouncedSweep(s: State, a: SweepAction)
    requires NothingAnnounced(s) && SweepEnabled(s, a)
    ensures NothingAnnounced(ApplySweep(s, a))
  {
  }

  lemma NothingAnnouncedManager(s: State, a: Action)
    requires WaiterInv(s) && NothingAnnounced(s) && Enabled(s, a) && !a.Put?
    ensures NothingAnnounced(Apply(s, a))
  {
    if a.Await? {
      NothingAnnouncedAwait(s, a.w, a.await);
    } else if a.Sweep? {
      NothingAnnouncedSweep(s, a.sweep);
    }
  }

  lemma NothingAnnouncedStep(p: PState, a: PAction)
    requires PInv(p) && PEnabled(p, a) && !StartsPut(a) && NothingAnnounced(p.mgr)
    ensures NothingAnnounced(PApply(p, a).mgr)
  {
    if a.Manager? {
      NothingAnnouncedManager(p.mgr, a.a);
    } else if a.Serve? && a.serve == NameRetrieval(false) {
      NothingAnnouncedAwait(p.mgr, a.w, StartAwait(p.wants[a.w].want.cid));
    }
  }

  /** If no caller uses Manager.Put or PutMany, no registered wait is ever answered
      with its block: it times out, is dropped, or stays listed. Blocks written
      through the inner store, as the retriever's link system does, wake nobody. */
  lemma {:induction false} OnlyPutWakes(cfg: Config, timeout: nat, store: map<Cid, nat>, trace: seq<PAction>)
    requires PRun(PInit(cfg, timeout, store), trace).Some?
    requires forall a | a in trace :: !StartsPut(a)
    ensures NothingAnnounced(PRun(PInit(cfg, timeout, store), trace).value.mgr)
  {
    if trace != [] {
      var n := |trace| - 1;
      assert forall a | a in trace[..n] :: a in trace;
      OnlyPutWakes(cfg, timeout, store, trace[..n]);
      PReachableInv(cfg, timeout, store, trace[..n]);
      assert trace[n] in trace;
      NothingAnnouncedStep(PRun(PInit(cfg, timeout, store), trace[..n]).value, trace[n]);
    }
  }

  lemma TimedOutHandling(cfg: Config, h: Handling, x: Waiter)
    requires HandlingOK(cfg, h, Some(x)) && x.registered && forall r | r in x.calls :: r.TimedOut?
    requires |x.calls| <= 1
    ensures forall r | r in h.responses :: !Positive(r)
    ensures (h.retrieval == Ended(Succeeded) || h.retrieval == Ended(AlreadyRunning)) ==>
      h.responses == if x.calls == [] then [] else [SendDontHave(FailedBlockLoad)]
  {
    var called, reported := CallbackPart(h.want, x.calls), RetrievalPart(h.retrieval);
    assert called == if x.calls == [] then [] else [SendDontHave(FailedBlockLoad)] by {
      assert x.calls != [] ==> x.calls[0] in x.calls;
    }
    assert forall r | r in reported :: !Positive(r);
    assert called + [] == called && [] + called == called;
    assert h.responses == called + reported || h.responses == reported + called;
  }

  /** As the server is wired, with nobody calling Manager.Put or PutMany: a want that had
      to wait never gets a positive response in any run. If its retrieval succeeded, or
      another one for the CID was running, then once its goroutines are done and its
      waiter is off the list it got no response exactly if the sweep found its context
      cancelled and dropped it, and one DONT_HAVE for the failed load otherwise. While
      the other retrieval runs, only the environment can have cancelled it. */
  lemma RetrievedWantsGetNothing(cfg: Config, timeout: nat, store: map<Cid, nat>, trace: seq<PAction>, w: WantId)
    requires PRun(PInit(cfg, timeout, store), trace).Some?
    requires forall a | a in trace :: !StartsPut(a)
    ensures var p := PRun(PInit(cfg, timeout, store), trace).value;
      w in p.wants && w in p.mgr.waiters && p.mgr.waiters[w].registered ==>
        var h := p.wants[w];
        && (forall r | r in h.responses :: !Positive(r))
        && (GoroutinesDone(h) && !Listed(p.mgr, w)
            && (h.retrieval == Ended(Succeeded) || h.retrieval == Ended(AlreadyRunning)) ==>
              h.responses == if p.mgr.waiters[w].dropped then [] else [SendDontHave(FailedBlockLoad)])
        && (h.retrieval == Ended(AlreadyRunning) && p.mgr.waiters[w].dropped ==> CancelledIn(trace, w))
  {
    OnlyPutWakes(cfg, timeout, store, trace);
    var p := PRun(PInit(cfg, timeout, store), trace).value;
    if w in p.wants && w in p.mgr.waiters && p.mgr.waiters[w].registered {
      WantFacts(cfg, timeout, store, trace, w);
      TimedOutHandling(cfg, p.wants[w], p.mgr.waiters[w]);
      RunningWaitsAreKept(cfg, timeout, store, trace, w);
    }
  }
}
