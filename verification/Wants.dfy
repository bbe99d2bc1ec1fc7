/** What the bitswap provider decides about one wantlist entry, what a waiter
    callback queues, and how the worker answers one task. */
module Wants {
  import opened Common
  import opened WaitProtocol

  type Peer = nat

  /** The protobuf enum has two values; the code lets any other fall through. */
  datatype WantType = WantHave | WantBlock | WantOther(code: int)

  datatype Want = Want(peer: Peer, cid: Cid, kind: WantType, cancel: bool)

  datatype Config = Config(blacklist: set<Cid>, hasRetriever: bool, maxWorkers: nat)

  datatype Reason = BlacklistedCid | DisabledRetriever | FailedBlockLoad | NoCandidatesFound | RetrievalFailed

  /** One call of queueHave, queueBlock or queueDontHave. */
  datatype Response = SendHave | SendBlock(size: nat) | SendDontHave(reason: Reason)

  predicate Positive(r: Response) {
    !r.SendDontHave?
  }

  datatype Why = Cancelled | CheckFailed | Unrecognised

  datatype Verdict = Silent(why: Why) | Reply(response: Response) | Retrieve

  /** Queue the positive answer the want asked for. */
  function Hit(kind: WantType, size: nat): Response {
    if kind.WantBlock? then SendBlock(size) else SendHave
  }

  /** One iteration of the loop of ReceiveMessage up to retrieveForPeer; `seen` is
      what Has or GetSize answered. */
  function Decide(cfg: Config, want: Want, seen: Lookup): Verdict {
    if want.cancel then Silent(Cancelled)
    else if want.cid in cfg.blacklist then Reply(SendDontHave(BlacklistedCid))
    else if !want.kind.WantOther? && seen.Fault? then Silent(CheckFailed)
    else if !want.kind.WantOther? && seen.Present? then Reply(Hit(want.kind, seen.size))
    else if !cfg.hasRetriever then Reply(SendDontHave(DisabledRetriever))
    else if want.kind.WantOther? then Silent(Unrecognised)
    else Retrieve
  }

  /** The callback that retrieveForPeer hands to AwaitBlock. */
  function OnBlock(want: Want, r: Result): Response {
    if r.Arrived? then Hit(want.kind, r.block.size) else SendDontHave(FailedBlockLoad)
  }

  datatype Topic = TopicHave | TopicDontHave | TopicBlock

  datatype Task = Task(peer: Peer, topic: Topic, cid: Cid)

  function TaskFor(want: Want, r: Response): Task {
    match r
    case SendHave => Task(want.peer, TopicHave, want.cid)
    case SendBlock(_) => Task(want.peer, TopicBlock, want.cid)
    case SendDontHave(_) => Task(want.peer, TopicDontHave, want.cid)
  }

  /** One AddHave, AddDontHave or AddBlock call on the outgoing message. */
  datatype Addition = AddHave(cid: Cid) | AddDontHave(cid: Cid) | AddBlock(cid: Cid)

  /** The worker looks every positive task up again before answering it. */
  function Answer(task: Task, seen: Lookup): Addition {
    match task.topic
    case TopicHave => if seen.Present? then AddHave(task.cid) else AddDontHave(task.cid)
    case TopicBlock => if seen.Present? then AddBlock(task.cid) else AddDontHave(task.cid)
    case TopicDontHave => AddDontHave(task.cid)
  }
}
