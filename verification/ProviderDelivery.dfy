/** From queued response to sent message: no task is lost, invented or answered twice,
    and every HAVE and BLOCK that goes out was confirmed by a lookup. */
module ProviderDelivery {
  import opened Common
  import opened WaitProtocol
  import opened Wants
  import opened ProviderProtocol
  import opened ProviderTheorems
  import opened ProviderProgress

  // ----- conservation of tasks -----

  function TasksOf(h: Handling): seq<Task> {
    seq(|h.responses|, i requires 0 <= i < |h.responses| => TaskFor(h.want, h.responses[i]))
  }

  function TasksHeld(pc: WorkerPc): multiset<Task> {
    if pc.Working? then multiset(pc.tasks) else multiset{}
  }

  ghost function QueuedFor(wants: map<WantId, Handling>): map<WantId, multiset<Task>> {
    map w | w in wants :: multiset(TasksOf(wants[w]))
  }

  ghost function HeldIn(workers: map<nat, WorkerPc>): map<nat, multiset<Task>> {
    map k | k in workers :: TasksHeld(workers[k])
  }

  /** The tasks of all responses ever queued, for all wants. */
  ghost function EverQueued(p: PState): multiset<Task> {
    Union(QueuedFor(p.wants))
  }

  /** The tasks that workers have popped and not yet answered to their peer. */
  ghost function Held(p: PState): multiset<Task> {
    Union(HeldIn(p.workers))
  }

  /** The tasks behind the messages sent. */
  function Delivered(sent: seq<Sent>): multiset<Task> {
    if sent == [] then multiset{} else Delivered(sent[..|sent| - 1]) + multiset(sent[|sent| - 1].tasks)
  }

  ghost predicate Conserved(p: PState) {
    EverQueued(p) == p.queue + Held(p) + Delivered(p.sent)
  }

  lemma OneMoreTask(h: Handling, r: Reaction)
    ensures multiset(TasksOf(After(h, r)))
         == multiset(TasksOf(h)) + if r.said.Some? then multiset{TaskFor(h.want, r.said.value)} else multiset{}
  {
    var g := After(h, r);
    if r.said.Some? {
      assert TasksOf(g) == TasksOf(h) + [TaskFor(h.want, r.said.value)];
    } else {
      assert TasksOf(g) == TasksOf(h);
    }
  }

  /** Balances of multisets: one part grows or shrinks by `moved`, and so does the whole
      or another part. */
  lemma BothGrow<T>(whole: multiset<T>, whole': multiset<T>, part: multiset<T>, rest: multiset<T>, was: multiset<T>,
          moved: multiset<T>)
    requires whole == part + rest && whole' + was == whole + (was + moved)
    ensures whole' == (part + moved) + rest
  {
    forall t ensures whole'[t] == ((part + moved) + rest)[t] {
      assert (whole' + was)[t] == (whole + (was + moved))[t];
    }
  }

  lemma MovesOver<T>(part: multiset<T>, other: multiset<T>, other': multiset<T>, was: multiset<T>, moved: multiset<T>)
    requires moved <= part && was == multiset{} && other' + was == other + moved
    ensures part + other == (part - moved) + other'
  {
    forall t ensures (part + other)[t] == ((part - moved) + other')[t] {
      assert (other' + was)[t] == (other + moved)[t] && moved[t] <= part[t];
    }
  }

  lemma MovesOut<T>(held: multiset<T>, held': multiset<T>, moved: multiset<T>, sent: multiset<T>)
    requires held' + moved == held + multiset{}
    ensures held + sent == held' + (sent + moved)
  {
    forall t ensures (held + sent)[t] == (held' + (sent + moved))[t] {
      assert (held' + moved)[t] == (held + multiset{})[t];
    }
  }

  lemma Unmoved<T>(held: multiset<T>, held': multiset<T>, part: multiset<T>)
    requires held' + part == held + part
    ensures held' == held
  {
    forall t ensures held'[t] == held[t] {
      assert (held' + part)[t] == (held + part)[t];
    }
  }

  lemma ServingConserves(p: PState, w: WantId, h: Handling, r: Reaction)
    requires Conserved(p) && (if w in p.wants then h == p.wants[w] else h.responses == [])
    ensures Conserved(Serving(p, w, h, r))
  {
    var g, t := After(h, r), Serving(p, w, h, r);
    var said := if r.said.Some? then multiset{TaskFor(h.want, r.said.value)} else multiset{};
    var was := if w in p.wants then multiset(TasksOf(p.wants[w])) else multiset{};
    OneMoreTask(h, r);
    assert w !in p.wants ==> TasksOf(h) == [];
    QueuedUpdate(p.wants, w, g);
    assert t.queue == p.queue + said && Held(t) == Held(p);
    Assoc3(p.queue, Held(p), Delivered(p.sent));
    Assoc3(t.queue, Held(t), Delivered(t.sent));
    BothGrow(EverQueued(p), EverQueued(t), p.queue, Held(p) + Delivered(p.sent), was, said);
  }

  lemma Assoc3<T>(a: multiset<T>, b: multiset<T>, c: multiset<T>)
    ensures a + b + c == a + (b + c)
  {
  }

  lemma QueuedUpdate(wants: map<WantId, Handling>, w: WantId, g: Handling)
    ensures Union(QueuedFor(wants[w := g])) + (if w in wants then multiset(TasksOf(wants[w])) else multiset{})
         == Union(QueuedFor(wants)) + multiset(TasksOf(g))
  {
    UnionUpdate(QueuedFor(wants), w, multiset(TasksOf(g)));
    assert QueuedFor(wants[w := g]) == QueuedFor(wants)[w := multiset(TasksOf(g))];
  }

  lemma WorkerUpdate(workers: map<nat, WorkerPc>, k: nat, pc: WorkerPc)
    ensures Union(HeldIn(workers[k := pc])) + (if k in workers then TasksHeld(workers[k]) else multiset{})
         == Union(HeldIn(workers)) + TasksHeld(pc)
  {
    UnionUpdate(HeldIn(workers), k, TasksHeld(pc));
    assert HeldIn(workers[k := pc]) == HeldIn(workers)[k := TasksHeld(pc)];
  }

  lemma PopConserves(p: PState, k: nat, peer: Peer, tasks: seq<Task>)
    requires Conserved(p) && WorkEnabled(p, k, PopTasks(peer, tasks))
    ensures Conserved(ApplyWork(p, k, PopTasks(peer, tasks)))
  {
    var t := ApplyWork(p, k, PopTasks(peer, tasks));
    WorkerUpdate(p.workers, k, t.workers[k]);
    MovesOver(p.queue, Held(p), Held(t), multiset{}, multiset(tasks));
  }

  lemma AnswerConserves(p: PState, k: nat, fault: bool)
    requires Conserved(p) && WorkEnabled(p, k, AnswerTask(fault))
    ensures Conserved(ApplyWork(p, k, AnswerTask(fault)))
  {
    var t := ApplyWork(p, k, AnswerTask(fault));
    WorkerUpdate(p.workers, k, t.workers[k]);
    Unmoved(Held(p), Held(t), TasksHeld(p.workers[k]));
  }

  lemma SendConserves(p: PState, k: nat)
    requires Conserved(p) && WorkEnabled(p, k, SendMessage)
    ensures Conserved(ApplyWork(p, k, SendMessage))
  {
    var t := ApplyWork(p, k, SendMessage);
    var tasks := multiset(p.workers[k].tasks);
    WorkerUpdate(p.workers, k, WorkerIdle);
    assert t.sent[..|t.sent| - 1] == p.sent;
    MovesOut(Held(p), Held(t), tasks, Delivered(p.sent));
    Assoc3(p.queue, Held(p), Delivered(p.sent));
    Assoc3(t.queue, Held(t), Delivered(t.sent));
  }

  /** The want before its step: a new one has said nothing. */
  function Before(p: PState, w: WantId, a: WantAction): Handling
    requires a.ReceiveWant? || w in p.wants
  {
    if a.ReceiveWant? then Handling(a.want, Deciding, NotStarted, []) else p.wants[w]
  }

  /** Besides the manager, a want's step is one move of that want. */
  lemma ServeIsServing(p: PState, w: WantId, a: WantAction) returns (r: Reaction)
    requires ServeEnabled(p, w, a)
    ensures var t := ApplyServe(p, w, a); t == Serving(p, w, Before(p, w, a), r).(mgr := t.mgr)
    ensures w !in p.wants ==> Before(p, w, a).responses == []
    ensures w in p.wants ==> Before(p, w, a) == p.wants[w]
  {
    var h := Before(p, w, a);
    r := React(p.cfg, h, a, LookUp(p.mgr.store, h.want.cid, a.DecideWant? && a.fault), WaiterOf(p.mgr, w));
  }

  lemma ServeConserves(p: PState, w: WantId, a: WantAction)
    requires Conserved(p) && ServeEnabled(p, w, a)
    ensures Conserved(ApplyServe(p, w, a))
  {
    var r := ServeIsServing(p, w, a);
    ServingConserves(p, w, Before(p, w, a), r);
    OnlyManagerMoves(Serving(p, w, Before(p, w, a), r), ApplyServe(p, w, a));
  }

  lemma OnlyManagerMoves(p: PState, t: PState)
    requires Conserved(p) && t == p.(mgr := t.mgr)
    ensures Conserved(t)
  {
  }

  lemma ManagerConserves(p: PState, b: Action)
    requires Conserved(p) && ManagerEnabled(p, b)
    ensures Conserved(ApplyManager(p, b))
  {
    if Fires(p.mgr, b).Some? {
      var call := Fires(p.mgr, b).value;
      ServingConserves(p, call.w, p.wants[call.w], ReactToCall(p.wants[call.w], call.r));
    }
  }

  lemma ConservedStep(p: PState, a: PAction)
    requires Conserved(p) && PEnabled(p, a)
    ensures Conserved(PApply(p, a))
  {
    match a
    case Serve(w, b) => ServeConserves(p, w, b);
    case Manager(b) => ManagerConserves(p, b);
    case Work(k, b) =>
      match b {
        case PopTasks(peer, tasks) => PopConserves(p, k, peer, tasks);
        case AnswerTask(fault) => AnswerConserves(p, k, fault);
        case SendMessage => SendConserves(p, k);
      }
  }

  /** Conservation of tasks: over every run, the tasks of all responses ever queued are
      exactly those still queued, those held by workers and those behind the messages
      sent. */
  lemma {:induction false} TasksAreConserved(cfg: Config, timeout: nat, store: map<Cid, nat>, trace: seq<PAction>)
    requires PRun(PInit(cfg, timeout, store), trace).Some?
    ensures Conserved(PRun(PInit(cfg, timeout, store), trace).value)
  {
    if trace != [] {
      var n := |trace| - 1;
      TasksAreConserved(cfg, timeout, store, trace[..n]);
      ConservedStep(PRun(PInit(cfg, timeout, store), trace[..n]).value, trace[n]);
    }
  }

  /** When nothing is left to do and there are workers, every response that was ever
      queued was handed to SendMessage, behind exactly one message. */
  lemma EveryResponseIsDelivered(cfg: Config, timeout: nat, store: map<Cid, nat>, trace: seq<PAction>)
    requires PRun(PInit(cfg, timeout, store), trace).Some? && cfg.maxWorkers > 0
    requires !PUnfinished(PRun(PInit(cfg, timeout, store), trace).value)
    ensures var p := PRun(PInit(cfg, timeout, store), trace).value;
      Delivered(p.sent) == EverQueued(p)
  {
    TasksAreConserved(cfg, timeout, store, trace);
    PReachableInv(cfg, timeout, store, trace);
    UnionOfNothing(HeldIn(PRun(PInit(cfg, timeout, store), trace).value.workers));
  }

  // ----- from a want to a message -----

  /** Task t is answered by message m. */
  predicate Answers(sent: seq<Sent>, m: nat, t: Task) {
    m < |sent| && t in sent[m].tasks
  }

  lemma {:induction false} DeliveredIsSent(sent: seq<Sent>, t: Task) returns (m: nat)
    requires t in Delivered(sent)
    ensures Answers(sent, m, t)
  {
    var n := |sent| - 1;
    if t in sent[n].tasks {
      m := n;
    } else {
      m := DeliveredIsSent(sent[..n], t);
    }
  }

  lemma QueuedByWant(wants: map<WantId, Handling>, w: WantId, t: Task)
    requires w in wants && t in TasksOf(wants[w])
    ensures t in Union(QueuedFor(wants))
  {
    UnionRemove(QueuedFor(wants), w);
    assert t in multiset(TasksOf(wants[w]));
  }

  /** End to end: when nothing is left to do, there are workers, and a want's waiter is
      off the list, then either there is a silent cause, or every response to the want,
      and there is one, was handed to SendMessage for its peer and CID; not both. */
  lemma WantsAreAnsweredOrSilent(cfg: Config, timeout: nat, store: map<Cid, nat>, trace: seq<PAction>, w: WantId)
    requires PRun(PInit(cfg, timeout, store), trace).Some? && cfg.maxWorkers > 0
    requires var p := PRun(PInit(cfg, timeout, store), trace).value;
      !PUnfinished(p) && w in p.wants && !Listed(p.mgr, w)
    ensures var p := PRun(PInit(cfg, timeout, store), trace).value;
      var h := p.wants[w];
      && (SilentCause(cfg, trace, w, h, WaiterOf(p.mgr, w)) <==> h.responses == [])
      && (forall r | r in h.responses :: exists m :: Answers(p.sent, m, TaskFor(h.want, r)))
  {
    SilentWants(cfg, timeout, store, trace, w);
    EveryResponseIsDelivered(cfg, timeout, store, trace);
    var p := PRun(PInit(cfg, timeout, store), trace).value;
    var h := p.wants[w];
    forall r | r in h.responses ensures exists m :: Answers(p.sent, m, TaskFor(h.want, r)) {
      var i :| 0 <= i < |h.responses| && h.responses[i] == r;
      assert TasksOf(h)[i] == TaskFor(h.want, r);
      QueuedByWant(p.wants, w, TaskFor(h.want, r));
      var m := DeliveredIsSent(p.sent, TaskFor(h.want, r));
    }
  }

  // ----- every addition comes from a lookup of its own -----

  /** Action n of the trace is worker k answering task i of the tasks it holds for this
      peer: x is HAVE or BLOCK exactly if the task asks for that and the store, at that
      moment, answers that it has the block, and DONT_HAVE otherwise. */
  ghost predicate AnsweredAt(p0: PState, trace: seq<PAction>, n: nat, k: nat, peer: Peer, tasks: seq<Task>, i: nat,
          x: Addition)
    requires n < |trace|
  {
    var p := PRun(p0, trace[..n]);
    && p.Some? && trace[n].Work? && trace[n].k == k && trace[n].work.AnswerTask?
    && k in p.value.workers && p.value.workers[k].Working?
    && p.value.workers[k].peer == peer && p.value.workers[k].tasks == tasks
    && |p.value.workers[k].msg| == i < |tasks|
    && var there := !trace[n].work.fault && tasks[i].cid in p.value.mgr.store;
       && x.cid == tasks[i].cid
       && (x.AddHave? <==> tasks[i].topic.TopicHave? && there)
       && (x.AddBlock? <==> tasks[i].topic.TopicBlock? && there)
  }

  /** Worker k sent nothing between actions n and s. */
  predicate SameRound(trace: seq<PAction>, n: nat, s: nat, k: nat)
    requires s <= |trace|
  {
    forall j | n < j < s :: trace[j] != Work(k, SendMessage)
  }

  /** Behind every addition of msg stands its own lookup by worker k, made before s in
      the round that s ends. */
  ghost predicate Round(p0: PState, trace: seq<PAction>, s: nat, k: nat, peer: Peer, tasks: seq<Task>,
          msg: seq<Addition>)
    requires s <= |trace|
  {
    forall i | 0 <= i < |msg| :: LookedUp(p0, trace, s, k, peer, tasks, i, msg[i])
  }

  ghost predicate LookedUp(p0: PState, trace: seq<PAction>, s: nat, k: nat, peer: Peer, tasks: seq<Task>, i: nat,
          x: Addition)
    requires s <= |trace|
  {
    exists n | 0 <= n < s :: AnsweredAt(p0, trace, n, k, peer, tasks, i, x) && SameRound(trace, n, s, k)
  }

  /** Action s is worker k sending message number m, at the end of its round. */
  ghost predicate SentAt(p0: PState, trace: seq<PAction>, s: nat, k: nat, m: nat, sent: Sent)
    requires s < |trace|
  {
    && trace[s] == Work(k, SendMessage)
    && PRun(p0, trace[..s]).Some? && |PRun(p0, trace[..s]).value.sent| == m
    && Round(p0, trace, s, k, sent.peer, sent.tasks, sent.msg)
  }

  ghost predicate SentIn(p0: PState, trace: seq<PAction>, m: nat, sent: Sent) {
    exists s, k | 0 <= s < |trace| :: SentAt(p0, trace, s, k, m, sent)
  }

  lemma AnsweredStays(p0: PState, trace: seq<PAction>, n: nat, k: nat, peer: Peer, tasks: seq<Task>, i: nat,
          x: Addition)
    requires n + 1 < |trace| && AnsweredAt(p0, trace[..|trace| - 1], n, k, peer, tasks, i, x)
    ensures AnsweredAt(p0, trace, n, k, peer, tasks, i, x)
  {
    assert trace[..|trace| - 1][..n] == trace[..n];
  }

  lemma SameRoundStays(trace: seq<PAction>, n: nat, s: nat, k: nat)
    requires s < |trace| && SameRound(trace[..|trace| - 1], n, s, k)
    ensures SameRound(trace, n, s, k)
  {
    assert forall j | n < j < s :: trace[..|trace| - 1][j] == trace[j];
  }

  lemma LookedUpStays(p0: PState, trace: seq<PAction>, s: nat, k: nat, peer: Peer, tasks: seq<Task>, i: nat,
          x: Addition)
    requires trace != [] && s < |trace| && LookedUp(p0, trace[..|trace| - 1], s, k, peer, tasks, i, x)
    ensures LookedUp(p0, trace, s, k, peer, tasks, i, x)
  {
    var prefix := trace[..|trace| - 1];
    var n :| 0 <= n < s && AnsweredAt(p0, prefix, n, k, peer, tasks, i, x) && SameRound(prefix, n, s, k);
    AnsweredStays(p0, trace, n, k, peer, tasks, i, x);
    SameRoundStays(trace, n, s, k);
  }

  lemma RoundStays(p0: PState, trace: seq<PAction>, s: nat, k: nat, peer: Peer, tasks: seq<Task>, msg: seq<Addition>)
    requires trace != [] && s < |trace| && Round(p0, trace[..|trace| - 1], s, k, peer, tasks, msg)
    ensures Round(p0, trace, s, k, peer, tasks, msg)
  {
    forall i | 0 <= i < |msg| ensures LookedUp(p0, trace, s, k, peer, tasks, i, msg[i]) {
      assert LookedUp(p0, trace[..|trace| - 1], s, k, peer, tasks, i, msg[i]);
      LookedUpStays(p0, trace, s, k, peer, tasks, i, msg[i]);
    }
  }

  /** The round goes on while worker k does not send. */
  lemma RoundGoesOn(p0: PState, trace: seq<PAction>, s: nat, k: nat, peer: Peer, tasks: seq<Task>, msg: seq<Addition>)
    requires s < |trace| && Round(p0, trace, s, k, peer, tasks, msg) && trace[s] != Work(k, SendMessage)
    ensures Round(p0, trace, s + 1, k, peer, tasks, msg)
  {
    forall i | 0 <= i < |msg| ensures LookedUp(p0, trace, s + 1, k, peer, tasks, i, msg[i]) {
      assert LookedUp(p0, trace, s, k, peer, tasks, i, msg[i]);
      var n :| 0 <= n < s && AnsweredAt(p0, trace, n, k, peer, tasks, i, msg[i]) && SameRound(trace, n, s, k);
      assert SameRound(trace, n, s + 1, k);
    }
  }

  lemma SentStays(p0: PState, trace: seq<PAction>, m: nat, sent: Sent)
    requires trace != [] && SentIn(p0, trace[..|trace| - 1], m, sent)
    ensures SentIn(p0, trace, m, sent)
  {
    var prefix := trace[..|trace| - 1];
    var s, k :| 0 <= s < |prefix| && SentAt(p0, prefix, s, k, m, sent);
    assert prefix[..s] == trace[..s];
    RoundStays(p0, trace, s, k, sent.peer, sent.tasks, sent.msg);
    assert SentAt(p0, trace, s, k, m, sent);
  }

  ghost predicate RoundOf(p0: PState, trace: seq<PAction>, k: nat, pc: WorkerPc) {
    pc.Working? ==> Round(p0, trace, |trace|, k, pc.peer, pc.tasks, pc.msg)
  }

  /** What workers hold and what was sent was looked up, addition by addition. */
  ghost predicate LookedUpSoFar(p0: PState, trace: seq<PAction>, p: PState) {
    && (forall k | k in p.workers :: RoundOf(p0, trace, k, p.workers[k]))
    && (forall m | 0 <= m < |p.sent| :: SentIn(p0, trace, m, p.sent[m]))
  }

  /** A worker that does not move stays in its round. */
  lemma IdleStep(p0: PState, trace: seq<PAction>, k: nat, pc: WorkerPc)
    requires trace != [] && RoundOf(p0, trace[..|trace| - 1], k, pc) && trace[|trace| - 1] != Work(k, SendMessage)
    ensures RoundOf(p0, trace, k, pc)
  {
    if pc.Working? {
      RoundStays(p0, trace, |trace| - 1, k, pc.peer, pc.tasks, pc.msg);
      RoundGoesOn(p0, trace, |trace| - 1, k, pc.peer, pc.tasks, pc.msg);
    }
  }

  lemma AnswerStep(p0: PState, trace: seq<PAction>, p: PState, k: nat, fault: bool)
    requires trace != [] && PRun(p0, trace[..|trace| - 1]) == Some(p)
    requires trace[|trace| - 1] == Work(k, AnswerTask(fault)) && WorkEnabled(p, k, AnswerTask(fault))
    requires RoundOf(p0, trace[..|trace| - 1], k, p.workers[k])
    ensures RoundOf(p0, trace, k, ApplyWork(p, k, AnswerTask(fault)).workers[k])
  {
    var n := |trace| - 1;
    var pc, next := p.workers[k], ApplyWork(p, k, AnswerTask(fault)).workers[k];
    IdleStep(p0, trace, k, pc);
    assert AnsweredAt(p0, trace, n, k, pc.peer, pc.tasks, |pc.msg|, next.msg[|pc.msg|]);
    assert SameRound(trace, n, |trace|, k);
    forall i | 0 <= i < |next.msg| ensures LookedUp(p0, trace, |trace|, k, pc.peer, pc.tasks, i, next.msg[i]) {
      assert i < |pc.msg| ==> LookedUp(p0, trace, |trace|, k, pc.peer, pc.tasks, i, pc.msg[i]);
    }
  }

  lemma SendStep(p0: PState, trace: seq<PAction>, p: PState, k: nat)
    requires trace != [] && PRun(p0, trace[..|trace| - 1]) == Some(p)
    requires trace[|trace| - 1] == Work(k, SendMessage) && WorkEnabled(p, k, SendMessage)
    requires RoundOf(p0, trace[..|trace| - 1], k, p.workers[k])
    ensures SentIn(p0, trace, |p.sent|, ApplyWork(p, k, SendMessage).sent[|p.sent|])
  {
    var pc := p.workers[k];
    RoundStays(p0, trace, |trace| - 1, k, pc.peer, pc.tasks, pc.msg);
    assert SentAt(p0, trace, |trace| - 1, k, |p.sent|, Sent(pc.peer, pc.tasks, pc.msg));
  }

  /** What one step does to workers and messages. */
  lemma MessageSteps(p: PState, a: PAction)
    requires PEnabled(p, a)
    ensures var t := PApply(p, a);
      && (!a.Work? ==> t.workers == p.workers && t.sent == p.sent)
      && (a.Work? ==> a.k in t.workers && t.workers == p.workers[a.k := t.workers[a.k]])
      && (a.Work? && a.work.SendMessage? ==>
            t.workers[a.k].WorkerIdle? && |t.sent| == |p.sent| + 1 && t.sent[..|p.sent|] == p.sent)
      && (a.Work? && a.work.PopTasks? ==> t.workers[a.k] == Working(a.work.peer, a.work.tasks, []))
      && (a.Work? && !a.work.SendMessage? ==> t.sent == p.sent)
  {
  }

  lemma WorkersStep(p0: PState, trace: seq<PAction>, p: PState, k: nat)
    requires trace != [] && PRun(p0, trace[..|trace| - 1]) == Some(p) && PEnabled(p, trace[|trace| - 1])
    requires LookedUpSoFar(p0, trace[..|trace| - 1], p) && k in PApply(p, trace[|trace| - 1]).workers
    ensures RoundOf(p0, trace, k, PApply(p, trace[|trace| - 1]).workers[k])
  {
    var a := trace[|trace| - 1];
    MessageSteps(p, a);
    if !a.Work? || a.k != k {
      IdleStep(p0, trace, k, p.workers[k]);
    } else if a.work.AnswerTask? {
      AnswerStep(p0, trace, p, k, a.work.fault);
    }
  }

  lemma SentStep(p0: PState, trace: seq<PAction>, p: PState, m: nat)
    requires trace != [] && PRun(p0, trace[..|trace| - 1]) == Some(p) && PEnabled(p, trace[|trace| - 1])
    requires LookedUpSoFar(p0, trace[..|trace| - 1], p) && m < |PApply(p, trace[|trace| - 1]).sent|
    ensures SentIn(p0, trace, m, PApply(p, trace[|trace| - 1]).sent[m])
  {
    var a := trace[|trace| - 1];
    SentGrows(p, a);
    if m < |p.sent| {
      SentStays(p0, trace, m, p.sent[m]);
    } else {
      SendStep(p0, trace, p, a.k);
    }
  }

  /** Messages are only added, one at a time and by SendMessage. */
  lemma SentGrows(p: PState, a: PAction)
    requires PEnabled(p, a)
    ensures var t := PApply(p, a);
      && |p.sent| <= |t.sent| && (forall m | 0 <= m < |p.sent| :: t.sent[m] == p.sent[m])
      && (|t.sent| > |p.sent| ==> a.Work? && a.work.SendMessage? && |t.sent| == |p.sent| + 1)
  {
    MessageSteps(p, a);
  }

  lemma {:induction false} RunsLookUp(cfg: Config, timeout: nat, store: map<Cid, nat>, trace: seq<PAction>)
    requires PRun(PInit(cfg, timeout, store), trace).Some?
    ensures LookedUpSoFar(PInit(cfg, timeout, store), trace, PRun(PInit(cfg, timeout, store), trace).value)
  {
    if trace != [] {
      var n := |trace| - 1;
      var p0 := PInit(cfg, timeout, store);
      var p := PRun(p0, trace[..n]).value;
      var t := PApply(p, trace[n]);
      RunsLookUp(cfg, timeout, store, trace[..n]);
      forall k | k in t.workers ensures RoundOf(p0, trace, k, t.workers[k]) {
        WorkersStep(p0, trace, p, k);
      }
      forall m | 0 <= m < |t.sent| ensures SentIn(p0, trace, m, t.sent[m]) {
        SentStep(p0, trace, p, m);
      }
    }
  }

  /** Over every run, each addition of each message sent was made by a lookup of its own:
      by the worker that sent the message, in the round that ended with it, while it
      stood at that very task; and it is what the store said at that moment: HAVE or
      BLOCK exactly if the task asks for that and the block was there, DONT_HAVE
      otherwise. */
  lemma SentIsConfirmed(cfg: Config, timeout: nat, store: map<Cid, nat>, trace: seq<PAction>, m: nat)
    requires PRun(PInit(cfg, timeout, store), trace).Some?
    requires m < |PRun(PInit(cfg, timeout, store), trace).value.sent|
    ensures var p0 := PInit(cfg, timeout, store);
      var sent := PRun(p0, trace).value.sent[m];
      exists s, k | 0 <= s < |trace| :: SentAt(p0, trace, s, k, m, sent)
  {
    RunsLookUp(cfg, timeout, store, trace);
    var p0 := PInit(cfg, timeout, store);
    assert SentIn(p0, trace, m, PRun(p0, trace).value.sent[m]);
  }
}
