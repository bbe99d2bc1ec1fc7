/** The bitswap provider on top of the block manager: wants, retrieval goroutines
    and workers interleave with every goroutine of the manager. A want's id is
    also the id of its AwaitBlock call. */
module ProviderProtocol {
  import opened Common
  import opened WaitList
  import opened WaitProtocol
  import opened Wants

  type WantId = WaiterId

  /** How ReceiveMessage and retrieveForPeer left this entry behind. */
  datatype Path = Skipped(why: Why) | Answered | NoRetrievalId | FoundAtOnce | Launched

  datatype WantPc = Deciding | NamingRetrieval | Awaiting | Finished(path: Path)

  /** What Retrieve returned. */
  datatype Outcome = Succeeded | AlreadyRunning | NoCandidates | Failed

  /** The retrieval goroutine; Reported is the point before blockCancel. */
  datatype RetrievalPc = NotStarted | Retrieving | Reported(outcome: Outcome) | Ended(outcome: Outcome)

  /** `responses` lists this want's calls of queueHave, queueBlock and queueDontHave. */
  datatype Handling = Handling(want: Want, pc: WantPc, retrieval: RetrievalPc, responses: seq<Response>)

  datatype WorkerPc = WorkerIdle | Working(peer: Peer, tasks: seq<Task>, msg: seq<Addition>)

  /** A message that was sent, and the tasks it answers. */
  datatype Sent = Sent(peer: Peer, tasks: seq<Task>, msg: seq<Addition>)

  datatype PState = PState(
    cfg: Config,
    mgr: State,
    wants: map<WantId, Handling>,
    queue: multiset<Task>,
    workers: map<nat, WorkerPc>,
    sent: seq<Sent>)

  /** Steps of the goroutines that serve want w. */
  datatype WantAction =
    | ReceiveWant(want: Want)
    | DecideWant(fault: bool)
    | NameRetrieval(fails: bool)
    | AwaitReturns
    | RetrievalEnds(outcome: Outcome)
    | RetrievalCancels

  /** Steps of worker k, one of the maxWorkers that were started. */
  datatype WorkerAction = PopTasks(peer: Peer, tasks: seq<Task>) | AnswerTask(fault: bool) | SendMessage

  datatype PAction = Serve(w: WantId, serve: WantAction) | Manager(a: Action) | Work(k: nat, work: WorkerAction)

  function PInit(cfg: Config, timeout: nat, store: map<Cid, nat>): PState {
    PState(cfg, Init(timeout, store), map[], multiset{}, map[], [])
  }

  function WaiterOf(s: State, w: WaiterId): Option<Waiter> {
    if w in s.waiters then Some(s.waiters[w]) else None
  }

  predicate ServeEnabled(p: PState, w: WantId, a: WantAction) {
    match a
    case ReceiveWant(_) => w !in p.wants && w !in p.mgr.waiters
    case DecideWant(_) => w in p.wants && p.wants[w].pc.Deciding?
    case NameRetrieval(_) => w in p.wants && p.wants[w].pc.NamingRetrieval? && w !in p.mgr.waiters
    case AwaitReturns => w in p.wants && p.wants[w].pc.Awaiting? && w in p.mgr.waiters && p.mgr.waiters[w].pc.AwaitDone?
    case RetrievalEnds(_) => w in p.wants && p.wants[w].retrieval.Retrieving?
    case RetrievalCancels => w in p.wants && p.wants[w].retrieval.Reported?
  }

  predicate ManagerEnabled(p: PState, b: Action) {
    && Enabled(p.mgr, b)
    && !(b.Await? && b.await.StartAwait?)
    && (Fires(p.mgr, b).Some? ==> Fires(p.mgr, b).value.w in p.wants)
  }

  predicate WorkEnabled(p: PState, k: nat, a: WorkerAction) {
    match a
    case PopTasks(peer, tasks) =>
      && k < p.cfg.maxWorkers && (k in p.workers ==> p.workers[k].WorkerIdle?)
      && tasks != [] && multiset(tasks) <= p.queue && (forall t | t in tasks :: t.peer == peer)
    case AnswerTask(_) => k in p.workers && p.workers[k].Working? && |p.workers[k].msg| < |p.workers[k].tasks|
    case SendMessage => k in p.workers && p.workers[k].Working? && |p.workers[k].msg| == |p.workers[k].tasks|
  }

  predicate PEnabled(p: PState, a: PAction) {
    match a
    case Serve(w, b) => ServeEnabled(p, w, b)
    case Manager(b) => ManagerEnabled(p, b)
    case Work(k, b) => WorkEnabled(p, k, b)
  }

  /** What a goroutine serving a want does in one step: where it and the
      retrieval go next, and the queue function it calls, if any. */
  datatype Reaction = Reaction(pc: WantPc, retrieval: RetrievalPc, said: Option<Response>)

  /** What the retrieval goroutine queues before it cancels the wait. */
  function RetrievalReport(o: Outcome): Option<Response> {
    match o
    case NoCandidates => Some(SendDontHave(NoCandidatesFound))
    case Failed => Some(SendDontHave(RetrievalFailed))
    case _ => None
  }

  /** `seen` is the store lookup of this step, x the want's AwaitBlock call. */
  function React(cfg: Config, h: Handling, a: WantAction, seen: Lookup, x: Option<Waiter>): Reaction {
    match a
    case ReceiveWant(_) => Reaction(h.pc, h.retrieval, None)
    case DecideWant(_) =>
      (match Decide(cfg, h.want, seen)
       case Silent(why) => Reaction(Finished(Skipped(why)), h.retrieval, None)
       case Reply(r) => Reaction(Finished(Answered), h.retrieval, Some(r))
       case Retrieve => Reaction(NamingRetrieval, h.retrieval, None))
    case NameRetrieval(fails) => Reaction(if fails then Finished(NoRetrievalId) else Awaiting, h.retrieval, None)
    case AwaitReturns =>
      if x.Some? && x.value.pc == AwaitDone(true) then Reaction(Finished(FoundAtOnce), h.retrieval, None)
      else Reaction(Finished(Launched), Retrieving, None)
    case RetrievalEnds(o) => Reaction(h.pc, if o.AlreadyRunning? then Ended(o) else Reported(o), RetrievalReport(o))
    case RetrievalCancels =>
      Reaction(h.pc, if h.retrieval.Reported? then Ended(h.retrieval.outcome) else h.retrieval, None)
  }

  /** The AwaitBlock callback: it queues one response. */
  function ReactToCall(h: Handling, r: Result): Reaction {
    Reaction(h.pc, h.retrieval, Some(OnBlock(h.want, r)))
  }

  function AsSeq<T>(o: Option<T>): seq<T> {
    if o.Some? then [o.value] else []
  }

  function After(h: Handling, r: Reaction): Handling {
    Handling(h.want, r.pc, r.retrieval, h.responses + AsSeq(r.said))
  }

  /** Move want w and push the task of the response, if there is one. */
  function Serving(p: PState, w: WantId, h: Handling, r: Reaction): PState {
    var pushed := if r.said.Some? then multiset{TaskFor(h.want, r.said.value)} else multiset{};
    p.(wants := p.wants[w := After(h, r)], queue := p.queue + pushed)
  }

  ghost function ApplyServe(p: PState, w: WantId, a: WantAction): PState
    requires ServeEnabled(p, w, a)
  {
    var h := if a.ReceiveWant? then Handling(a.want, Deciding, NotStarted, []) else p.wants[w];
    var seen := LookUp(p.mgr.store, h.want.cid, a.DecideWant? && a.fault);
    var t := Serving(p, w, h, React(p.cfg, h, a, seen, WaiterOf(p.mgr, w)));
    if a == NameRetrieval(false) then t.(mgr := ApplyAwait(p.mgr, w, StartAwait(h.want.cid)))
    else if a.RetrievalCancels? then t.(mgr := ApplyOutside(p.mgr, CancelWaiter(w)))
    else t
  }

  /** Apply a step of the manager; a callback queues its response and cancels the
      want's own wait context. */
  ghost function ApplyManager(p: PState, b: Action): PState
    requires ManagerEnabled(p, b)
  {
    var t := p.(mgr := Apply(p.mgr, b));
    match Fires(p.mgr, b)
    case None => t
    case Some(call) =>
      Serving(t, call.w, t.wants[call.w], ReactToCall(t.wants[call.w], call.r))
        .(mgr := ApplyOutside(t.mgr, CancelWaiter(call.w)))
  }

  function ApplyWork(p: PState, k: nat, a: WorkerAction): PState
    requires WorkEnabled(p, k, a)
  {
    match a
    case PopTasks(peer, tasks) =>
      p.(queue := p.queue - multiset(tasks), workers := p.workers[k := Working(peer, tasks, [])])
    case AnswerTask(fault) =>
      var Working(peer, tasks, msg) := p.workers[k];
      var task := tasks[|msg|];
      p.(workers := p.workers[k := Working(peer, tasks, msg + [Answer(task, LookUp(p.mgr.store, task.cid, fault))])])
    case SendMessage =>
      var Working(peer, tasks, msg) := p.workers[k];
      p.(sent := p.sent + [Sent(peer, tasks, msg)], workers := p.workers[k := WorkerIdle])
  }

  ghost function PApply(p: PState, a: PAction): PState
    requires PEnabled(p, a)
  {
    match a
    case Serve(w, b) => ApplyServe(p, w, b)
    case Manager(b) => ApplyManager(p, b)
    case Work(k, b) => ApplyWork(p, k, b)
  }

  ghost function PRun(p: PState, trace: seq<PAction>): Option<PState> {
    if trace == [] then Some(p)
    else
      var prefix := PRun(p, trace[..|trace| - 1]);
      var a := trace[|trace| - 1];
      if prefix.Some? && PEnabled(prefix.value, a) then Some(PApply(prefix.value, a)) else None
  }
}
