/** The provider's own loops as the code runs them: over the entries of an incoming
    message, and over the tasks a worker popped. What the store, the libraries and
    the clock answer on the way is a parameter; the AwaitBlock callback and the
    decisions are the ones the interleaving model steps through. */
module BitswapProvider {
  import opened Common
  import opened WaitList
  import opened WaitProtocol
  import opened Wants
  import opened ProviderProtocol
  import opened BlockManager

  datatype WantEntry = WantEntry(cid: Cid, kind: WantType, cancel: bool)

  /** What one entry meets: the provider's own lookup, NewRetrievalID, and AwaitBlock's
      lookup, time and slice growth for the waiter with this id. */
  datatype Answers = Answers(first: Lookup, idFails: bool, second: Lookup, waiter: WaiterId, now: nat, spare: nat)

  /** What handling one entry does at once: the responses it queues, whether it leaves
      a waiter in the list, and whether it starts a retrieval goroutine. */
  datatype Effect = Effect(queued: seq<Response>, waits: bool, retrieves: bool)

  function AwaitEffect(want: Want, seen: Lookup): Effect {
    match seen
    case Absent => Effect([], true, true)
    case Present(size) => Effect([Hit(want.kind, size)], false, false)
    case Fault => Effect([SendDontHave(FailedBlockLoad)], false, true)
  }

  function Handle(cfg: Config, want: Want, a: Answers): Effect {
    match Decide(cfg, want, a.first)
    case Silent(_) => Effect([], false, false)
    case Reply(r) => Effect([r], false, false)
    case Retrieve => if a.idFails then Effect([], false, false) else AwaitEffect(want, a.second)
  }

  /** The provider's state as a value. */
  datatype Value = Value(queue: multiset<Task>, retrieving: seq<Want>, waitList: Buckets)

  function Tasks(want: Want, rs: seq<Response>): multiset<Task> {
    if rs == [] then multiset{} else multiset{TaskFor(want, rs[0])} + Tasks(want, rs[1..])
  }

  function Perform(v: Value, want: Want, a: Answers, e: Effect): Value {
    Value(v.queue + Tasks(want, e.queued),
          if e.retrieves then v.retrieving + [want] else v.retrieving,
          if e.waits then WaitList.Append(v.waitList, want.cid, Entry(a.waiter, a.now)) else v.waitList)
  }

  function WantOf(sender: Peer, e: WantEntry): Want {
    Want(sender, e.cid, e.kind, e.cancel)
  }

  /** The state after these entries of a message from sender. */
  function Received(cfg: Config, v: Value, sender: Peer, entries: seq<WantEntry>, answers: nat -> Answers): Value {
    if entries == [] then v
    else
      var n := |entries| - 1;
      var want := WantOf(sender, entries[n]);
      Perform(Received(cfg, v, sender, entries[..n], answers), want, answers(n), Handle(cfg, want, answers(n)))
  }

  lemma TasksOfOne(want: Want, r: Response)
    ensures Tasks(want, [r]) == multiset{TaskFor(want, r)}
  {
    assert [r][1..] == [];
  }

  lemma NothingQueued(queue: multiset<Task>)
    ensures queue + multiset{} == queue
  {
  }

  lemma NothingPerformed(v: Value, want: Want, a: Answers)
    ensures Perform(v, want, a, Effect([], false, false)) == v
  {
    NothingQueued(v.queue);
  }

  /** From v to u one task for the want is queued, with this topic, and nothing else. */
  predicate Queues(v: Value, u: Value, want: Want, topic: Topic) {
    u == v.(queue := v.queue + multiset{Task(want.peer, topic, want.cid)})
  }

  /** The topic of a positive answer. */
  function Asked(want: Want): Topic {
    if want.kind.WantBlock? then TopicBlock else TopicHave
  }

  /** What handling one entry does, written out case by case, in the order of the code. */
  predicate HandledAs(cfg: Config, want: Want, a: Answers, v: Value, u: Value) {
    var known := want.kind.WantHave? || want.kind.WantBlock?;
    if want.cancel then u == v
    else if want.cid in cfg.blacklist then Queues(v, u, want, TopicDontHave)
    else if known && a.first.Fault? then u == v
    else if known && a.first.Present? then Queues(v, u, want, Asked(want))
    else if !cfg.hasRetriever then Queues(v, u, want, TopicDontHave)
    else if !known || a.idFails then u == v
    else
      match a.second
      case Absent =>
        u == Value(v.queue, v.retrieving + [want], WaitList.Append(v.waitList, want.cid, Entry(a.waiter, a.now)))
      case Present(_) => Queues(v, u, want, Asked(want))
      case Fault => Queues(v.(retrieving := v.retrieving + [want]), u, want, TopicDontHave)
  }

  /** The effect decided for an entry is that one. */
  lemma HandleMeans(cfg: Config, v: Value, want: Want, a: Answers)
    ensures HandledAs(cfg, want, a, v, Perform(v, want, a, Handle(cfg, want, a)))
  {
    var e := Handle(cfg, want, a);
    NothingQueued(v.queue);
    if e.queued != [] {
      assert e.queued == [e.queued[0]];
      TasksOfOne(want, e.queued[0]);
    }
  }

  /** Every entry of a message is handled, once and in order: between the states before
      and after entry i lies exactly what HandledAs says of it. */
  lemma EveryEntryIsHandled(cfg: Config, v: Value, sender: Peer, entries: seq<WantEntry>, answers: nat -> Answers,
          i: nat)
    requires i < |entries|
    ensures Received(cfg, v, sender, entries[..0], answers) == v
    ensures HandledAs(cfg, Want(sender, entries[i].cid, entries[i].kind, entries[i].cancel), answers(i),
                      Received(cfg, v, sender, entries[..i], answers),
                      Received(cfg, v, sender, entries[..i + 1], answers))
  {
    ReceivedOneMore(cfg, v, sender, entries, answers, i);
    HandleMeans(cfg, Received(cfg, v, sender, entries[..i], answers), WantOf(sender, entries[i]), answers(i));
  }

  lemma ReceivedOneMore(cfg: Config, v: Value, sender: Peer, entries: seq<WantEntry>, answers: nat -> Answers, i: nat)
    requires i < |entries|
    ensures var want := WantOf(sender, entries[i]);
      Received(cfg, v, sender, entries[..i + 1], answers)
      == Perform(Received(cfg, v, sender, entries[..i], answers), want, answers(i), Handle(cfg, want, answers(i)))
  {
    assert entries[..i + 1][..i] == entries[..i];
  }

  class Provider {
    const cfg: Config
    const blockManager: Manager
    var queue: multiset<Task>
    var retrieving: seq<Want>
    var sent: seq<Sent>

    ghost predicate Valid()
      reads this, blockManager, blockManager.Arrays()
    {
      blockManager.Valid()
    }

    ghost function State(): Value
      reads this, blockManager
    {
      Value(queue, retrieving, blockManager.Contents)
    }

    constructor (cfg: Config, blockManager: Manager)
      requires blockManager.Valid()
      ensures Valid() && this.cfg == cfg && this.blockManager == blockManager
      ensures State() == Value(multiset{}, [], blockManager.Contents) && sent == []
    {
      this.cfg, this.blockManager := cfg, blockManager;
      queue, retrieving, sent := multiset{}, [], [];
    }

    method QueueBlock(want: Want, size: nat)
      modifies this`queue
      ensures queue == old(queue) + Tasks(want, [SendBlock(size)])
    {
      TasksOfOne(want, SendBlock(size));
      queue := queue + multiset{Task(want.peer, TopicBlock, want.cid)};
    }

    method QueueHave(want: Want)
      modifies this`queue
      ensures queue == old(queue) + Tasks(want, [SendHave])
    {
      TasksOfOne(want, SendHave);
      queue := queue + multiset{Task(want.peer, TopicHave, want.cid)};
    }

    method QueueDontHave(want: Want, reason: Reason)
      modifies this`queue
      ensures queue == old(queue) + Tasks(want, [SendDontHave(reason)])
    {
      TasksOfOne(want, SendDontHave(reason));
      queue := queue + multiset{Task(want.peer, TopicDontHave, want.cid)};
    }

    /** The callback handed to AwaitBlock. */
    method OnAwaited(want: Want, sendBlock: bool, r: Result)
      requires sendBlock <==> want.kind.WantBlock?
      modifies this`queue
      ensures queue == old(queue) + Tasks(want, [OnBlock(want, r)])
    {
      if !r.Arrived? {
        QueueDontHave(want, FailedBlockLoad);
      } else if sendBlock {
        QueueBlock(want, r.block.size);
      } else {
        QueueHave(want);
      }
    }

    /** Call AwaitBlock; if it calls back at once, that callback queues its response. */
    method AwaitAndReport(want: Want, sendBlock: bool, a: Answers) returns (found: bool)
      requires Valid() && (sendBlock <==> want.kind.WantBlock?)
      modifies this`queue, blockManager, blockManager.Arrays()
      ensures Valid() && fresh(blockManager.Arrays() - old(blockManager.Arrays()))
      ensures found <==> a.second.Present?
      ensures queue == old(queue) + Tasks(want, AwaitEffect(want, a.second).queued)
      ensures blockManager.Contents == Perform(old(State()), want, a, AwaitEffect(want, a.second)).waitList
    {
      var before := |blockManager.calls|;
      found := blockManager.AwaitBlock(a.waiter, want.cid, a.second, a.now, a.spare);
      if before < |blockManager.calls| {
        OnAwaited(want, sendBlock, blockManager.calls[before].r);
      }
    }

    /** retrieveForPeer up to the start of the retrieval goroutine. */
    method RetrieveForPeer(want: Want, sendBlock: bool, a: Answers)
      requires Valid() && (sendBlock <==> want.kind.WantBlock?)
      modifies this`queue, this`retrieving, blockManager, blockManager.Arrays()
      ensures Valid() && fresh(blockManager.Arrays() - old(blockManager.Arrays()))
      ensures State() == if a.idFails then old(State()) else Perform(old(State()), want, a, AwaitEffect(want, a.second))
    {
      if a.idFails {
        return;
      }
      var found := AwaitAndReport(want, sendBlock, a);
      if found {
        return;
      }
      retrieving := retrieving + [want];
    }

    /** The verdict on a want that the store did not settle. */
    function Late(want: Want): Verdict {
      if !cfg.hasRetriever then Reply(SendDontHave(DisabledRetriever))
      else if want.kind.WantOther? then Silent(Unrecognised)
      else Retrieve
    }

    /** The first half of the loop body: cancels, the blacklist and the store. */
    method AnsweredEarly(want: Want, a: Answers) returns (handled: bool)
      modifies this`queue
      ensures handled ==> !Decide(cfg, want, a.first).Retrieve?
      ensures handled ==> queue == old(queue) + Tasks(want, Handle(cfg, want, a).queued)
      ensures !handled ==> queue == old(queue) && Decide(cfg, want, a.first) == Late(want)
    {
      NothingQueued(queue);
      if want.cancel {
        return true;
      }
      if want.cid in cfg.blacklist {
        QueueDontHave(want, BlacklistedCid);
        return true;
      }
      if want.kind.WantHave? {
        if a.first.Fault? {
          return true;
        }
        if a.first.Present? {
          QueueHave(want);
          return true;
        }
      } else if want.kind.WantBlock? {
        if a.first.Fault? {
          return true;
        }
        if !a.first.Absent? {
          QueueBlock(want, a.first.size);
          return true;
        }
      }
      return false;
    }

    /** The second half: the store did not settle it, so try to retrieve. */
    method RetrieveIfEnabled(want: Want, a: Answers)
      requires Valid() && Decide(cfg, want, a.first) == Late(want)
      modifies this`queue, this`retrieving, blockManager, blockManager.Arrays()
      ensures Valid() && fresh(blockManager.Arrays() - old(blockManager.Arrays()))
      ensures State() == Perform(old(State()), want, a, Handle(cfg, want, a))
    {
      ghost var e := Handle(cfg, want, a);
      NothingPerformed(State(), want, a);
      if !cfg.hasRetriever {
        assert e == Effect([SendDontHave(DisabledRetriever)], false, false);
        QueueDontHave(want, DisabledRetriever);
        return;
      }
      assert want.kind.WantOther? || a.idFails ==> e == Effect([], false, false);
      if want.kind.WantHave? {
        RetrieveForPeer(want, false, a);
      } else if want.kind.WantBlock? {
        RetrieveForPeer(want, true, a);
      }
    }

    /** The loop body of ReceiveMessage. */
    method HandleEntry(want: Want, a: Answers)
      requires Valid()
      modifies this`queue, this`retrieving, blockManager, blockManager.Arrays()
      ensures Valid() && fresh(blockManager.Arrays() - old(blockManager.Arrays()))
      ensures State() == Perform(old(State()), want, a, Handle(cfg, want, a))
      ensures HandledAs(cfg, want, a, old(State()), State())
    {
      ghost var before := State();
      var handled := AnsweredEarly(want, a);
      if !handled {
        RetrieveIfEnabled(want, a);
      }
      assert State() == Perform(before, want, a, Handle(cfg, want, a));
      HandleMeans(cfg, before, want, a);
    }

    method ReceiveMessage(sender: Peer, entries: seq<WantEntry>, answers: nat -> Answers)
      requires Valid()
      modifies this`queue, this`retrieving, blockManager, blockManager.Arrays()
      ensures Valid()
      ensures State() == Received(cfg, old(State()), sender, entries, answers)
      ensures forall i | 0 <= i < |entries| ::
                HandledAs(cfg, Want(sender, entries[i].cid, entries[i].kind, entries[i].cancel), answers(i),
                          Received(cfg, old(State()), sender, entries[..i], answers),
                          Received(cfg, old(State()), sender, entries[..i + 1], answers))
    {
      for i := 0 to |entries|
        invariant Valid() && fresh(blockManager.Arrays() - old(blockManager.Arrays()))
        invariant State() == Received(cfg, old(State()), sender, entries[..i], answers)
      {
        ReceivedOneMore(cfg, old(State()), sender, entries, answers, i);
        HandleEntry(WantOf(sender, entries[i]), answers(i));
      }
      assert entries[..|entries|] == entries;
      forall i | 0 <= i < |entries|
        ensures HandledAs(cfg, WantOf(sender, entries[i]), answers(i),
                          Received(cfg, old(State()), sender, entries[..i], answers),
                          Received(cfg, old(State()), sender, entries[..i + 1], answers))
      {
        EveryEntryIsHandled(cfg, old(State()), sender, entries, answers, i);
      }
    }

    /** The worker's loop over the tasks it popped; seen(i) is what the store answers
        for task i. One addition per task, in order. */
    method BuildMessage(tasks: seq<Task>, seen: nat -> Lookup) returns (msg: seq<Addition>)
      ensures |msg| == |tasks| && forall i | 0 <= i < |tasks| ::
                && msg[i].cid == tasks[i].cid
                && (msg[i].AddHave? <==> tasks[i].topic.TopicHave? && seen(i).Present?)
                && (msg[i].AddBlock? <==> tasks[i].topic.TopicBlock? && seen(i).Present?)
      ensures forall i | 0 <= i < |tasks| :: msg[i] == Answer(tasks[i], seen(i))
    {
      msg := [];
      for i := 0 to |tasks|
        invariant |msg| == i && forall j | 0 <= j < i :: msg[j] == Answer(tasks[j], seen(j))
      {
        var c := tasks[i].cid;
        match tasks[i].topic
        case TopicHave =>
          var have := seen(i);
          if have.Fault? {
            msg := msg + [AddDontHave(c)];
          } else if have.Absent? {
            msg := msg + [AddDontHave(c)];
          } else {
            msg := msg + [AddHave(c)];
          }
        case TopicDontHave =>
          msg := msg + [AddDontHave(c)];
        case TopicBlock =>
          if !seen(i).Present? {
            msg := msg + [AddDontHave(c)];
          } else {
            msg := msg + [AddBlock(c)];
          }
      }
    }

    /** One round of a worker: pop tasks of one peer, answer them, send the message. */
    method WorkOnce(peer: Peer, tasks: seq<Task>, seen: nat -> Lookup) returns (msg: seq<Addition>)
      requires multiset(tasks) <= queue && forall t | t in tasks :: t.peer == peer
      modifies this`queue, this`sent
      ensures queue == old(queue) - multiset(tasks)
      ensures |msg| == |tasks| && forall i | 0 <= i < |tasks| :: msg[i] == Answer(tasks[i], seen(i))
      ensures sent == old(sent) + if tasks == [] then [] else [Sent(peer, tasks, msg)]
    {
      queue := queue - multiset(tasks);
      if |tasks| == 0 {
        return [];
      }
      msg := BuildMessage(tasks, seen);
      sent := sent + [Sent(peer, tasks, msg)];
    }
  }

  // ----- what a whole message does -----

  /** Nothing positive is queued, and nothing retrieved, for a blacklisted CID. */
  ghost predicate RespectsBlacklist(cfg: Config, v: Value) {
    && (forall t | t in v.queue && t.cid in cfg.blacklist :: t.topic.TopicDontHave?)
    && (forall w | w in v.retrieving :: w.cid !in cfg.blacklist)
  }

  lemma EntryIsSafe(cfg: Config, v: Value, want: Want, a: Answers)
    requires RespectsBlacklist(cfg, v)
    ensures var e := Handle(cfg, want, a);
      var r := Perform(v, want, a, e);
      && RespectsBlacklist(cfg, r)
      && |r.queue| == |v.queue| + |e.queued| <= |v.queue| + 1
      && (forall c :: Bucket(r.waitList, c) != Bucket(v.waitList, c) ==> c == want.cid && c !in cfg.blacklist)
  {
    var e := Handle(cfg, want, a);
    if e.queued == [] {
      NothingQueued(v.queue);
    } else {
      assert e.queued == [e.queued[0]];
      TasksOfOne(want, e.queued[0]);
    }
  }

  /** A whole message queues at most one task per entry at once; and it keeps every
      blacklisted CID out of the positive tasks, the retrievals and the wait list. */
  lemma {:induction false} MessageIsSafe(cfg: Config, v: Value, sender: Peer, entries: seq<WantEntry>,
          answers: nat -> Answers)
    requires RespectsBlacklist(cfg, v)
    ensures var r := Received(cfg, v, sender, entries, answers);
      && RespectsBlacklist(cfg, r)
      && |r.queue| <= |v.queue| + |entries|
      && (forall c | c in cfg.blacklist :: Bucket(r.waitList, c) == Bucket(v.waitList, c))
  {
    if entries != [] {
      var n := |entries| - 1;
      MessageIsSafe(cfg, v, sender, entries[..n], answers);
      EntryIsSafe(cfg, Received(cfg, v, sender, entries[..n], answers), WantOf(sender, entries[n]), answers(n));
    }
  }
}
