/** The block manager as an interleaving transition system.

    Every goroutine is a small program counter: callers of `AwaitBlock`, callers
    of `Put`/`PutMany`, the one poller of the `readyBlocks` channel and the one
    cleanup sweep. An action is one atomic step of one of them, or of the
    environment (clock, context cancellation, writes and deletions that bypass
    the manager). Nothing but `lock` is mutually exclusive: in particular a store
    write may land between an `AwaitBlock`'s lookup and its registration. */
module WaitProtocol {
  import opened Common
  import opened WaitList

  type PutId = nat

  const CHANNEL_CAPACITY: nat := 10

  /** What a waiter's callback is invoked with. */
  datatype Result = Arrived(block: Block) | LoadError | TimedOut

  /** One invocation of a waiter's callback. */
  datatype Call = Call(w: WaiterId, r: Result)

  /** Where one `AwaitBlock` call is. */
  datatype AwaitPc =
    | AwaitLock                // wants waitListLk
    | AwaitCheck               // holds it, GetSize not yet called
    | AwaitMissing             // holds it, GetSize said not found
    | AwaitErred               // holds it, GetSize failed otherwise
    | AwaitPresent(size: nat)  // holds it, GetSize found the block
    | AwaitAppended            // holds it, entry appended
    | AwaitFail                // released, must report the lookup error
    | AwaitHit(size: nat)      // released, must report the block
    | AwaitDone(found: bool)   // returned

  /** One `AwaitBlock` call. `calls` lists the invocations of its callback;
      `dropped` says that the sweep removed it without a call. */
  datatype Waiter = Waiter(cid: Cid, pc: AwaitPc, registered: bool, calls: seq<Result>, dropped: bool)

  /** Where one `Put`/`PutMany` call is; n counts written or announced blocks. */
  datatype PutPc =
    | Writing(blocks: seq<Block>, n: nat)
    | Announcing(blocks: seq<Block>, n: nat)
    | PutDone(ok: bool)

  datatype PollerPc =
    | PollIdle
    | PollLock(block: Block)                       // received, wants the lock
    | PollTake(block: Block)                       // holds the lock
    | PollTook(block: Block, rest: seq<Entry>)     // holds it, bucket removed
    | PollCalling(block: Block, rest: seq<Entry>)  // released, calling back

  datatype SweeperPc =
    | SweepIdle
    | SweepLock
    | SweepRange(todo: set<Cid>)                      // between two buckets
    | SweepAt(todo: set<Cid>, cid: Cid, i: nat)       // loop head for entry i
    | SweepDoomed(todo: set<Cid>, cid: Cid, i: nat)   // entry i failed the first check

  datatype Holder = Free | HeldBy(w: WaiterId) | HeldByPoller | HeldBySweeper

  /** `missed` is history: the waiters that, after their own lookup, had an
      announcement of their CID skipped for good. */
  datatype State = State(
    timeout: nat,
    store: map<Cid, nat>,
    lock: Holder,
    waitList: Buckets,
    ready: seq<Block>,
    clock: nat,
    cancelled: set<WaiterId>,
    waiters: map<WaiterId, Waiter>,
    putters: map<PutId, PutPc>,
    putCancelled: set<PutId>,
    poller: PollerPc,
    sweeper: SweeperPc,
    missed: set<WaiterId>)

  /** Steps of the goroutine inside `AwaitBlock` call w. */
  datatype AwaitAction =
    | StartAwait(cid: Cid)
    | LockWaiter
    | CheckStore(fault: bool)
    | Register
    | UnlockWaiter
    | CallWaiter

  /** Steps of `Put`/`PutMany` call p. */
  datatype PutAction =
    | StartPut(blocks: seq<Block>)
    | Write
    | WriteFails
    | WritesDone
    | Announce
    | GiveUp
    | PutReturns

  /** Steps of `startPollReadyBlocks` and `notifyWaitCallbacks`. */
  datatype PollAction = Receive | LockPoller | TakeBucket | UnlockPoller | CallNext | PollDone

  /** Steps of `startPollCleanup`. */
  datatype SweepAction =
    | SweepTick
    | LockSweeper
    | PickBucket(cid: Cid)
    | CheckEntry
    | EvictEntry
    | CloseBucket
    | UnlockSweeper

  /** Everything that is not the manager's own code. */
  datatype OutsideAction =
    | SilentWrite(block: Block)  // through the inner store, as the link system does
    | DeleteStored(cid: Cid)
    | CancelWaiter(w: WaiterId)
    | CancelPut(p: PutId)
    | Advance(d: nat)

  datatype Action =
    | Await(w: WaiterId, await: AwaitAction)
    | Put(p: PutId, put: PutAction)
    | Poll(poll: PollAction)
    | Sweep(sweep: SweepAction)
    | Outside(outside: OutsideAction)

  function Init(timeout: nat, store: map<Cid, nat>): State {
    State(timeout, store, Free, map[], [], 0, {}, map[], map[], {}, PollIdle, SweepIdle, {})
  }

  predicate HoldsLock(pc: AwaitPc) {
    pc.AwaitCheck? || pc.AwaitMissing? || pc.AwaitErred? || pc.AwaitPresent? || pc.AwaitAppended?
  }

  /** Registered, not called back and not dropped. */
  predicate Waiting(x: Waiter) {
    x.registered && x.calls == [] && !x.dropped
  }

  ghost predicate Listed(s: State, w: WaiterId) {
    w in s.waiters && w in WaitersOf(Bucket(s.waitList, s.waiters[w].cid))
  }

  /** Taken out of the list by the notifier and not yet called. */
  ghost function Captured(s: State): set<WaiterId> {
    match s.poller
    case PollTook(_, rest) => WaitersOf(rest)
    case PollCalling(_, rest) => WaitersOf(rest)
    case _ => {}
  }

  /** The waiter relies on a future announcement: it saw not-found, or it is listed. */
  ghost predicate Exposed(s: State, w: WaiterId) {
    w in s.waiters && (s.waiters[w].pc.AwaitMissing? || Listed(s, w))
  }

  ghost function CidsOf(bs: seq<Block>): set<Cid> {
    set b | b in bs :: b.cid
  }

  /** CIDs a Put has stored but not yet announced. */
  ghost function Owed(pc: PutPc): set<Cid> {
    match pc
    case Writing(bs, n) => if n <= |bs| then CidsOf(bs[..n]) else {}
    case Announcing(bs, n) => if n <= |bs| then CidsOf(bs[n..]) else {}
    case PutDone(_) => {}
  }

  ghost predicate PollerHolds(s: State, c: Cid) {
    (s.poller.PollLock? || s.poller.PollTake?) && s.poller.block.cid == c
  }

  /** An announcement of c is still on its way to the notifier's lock section. */
  ghost predicate Pending(s: State, c: Cid) {
    || (exists p | p in s.putters :: c in Owed(s.putters[p]))
    || c in CidsOf(s.ready)
    || PollerHolds(s, c)
  }

  predicate Expired(s: State, e: Entry) {
    s.clock - e.registeredAt > s.timeout
  }

  predicate AwaitEnabled(s: State, w: WaiterId, a: AwaitAction) {
    match a
    case StartAwait(_) => w !in s.waiters
    case LockWaiter => w in s.waiters && s.waiters[w].pc.AwaitLock? && s.lock.Free?
    case CheckStore(_) => w in s.waiters && s.waiters[w].pc.AwaitCheck?
    case Register => w in s.waiters && s.waiters[w].pc.AwaitMissing?
    case UnlockWaiter => w in s.waiters &&
      (s.waiters[w].pc.AwaitErred? || s.waiters[w].pc.AwaitPresent? || s.waiters[w].pc.AwaitAppended?)
    case CallWaiter => w in s.waiters && (s.waiters[w].pc.AwaitFail? || s.waiters[w].pc.AwaitHit?)
  }

  predicate PutEnabled(s: State, p: PutId, a: PutAction) {
    match a
    case StartPut(_) => p !in s.putters
    case Write => p in s.putters && s.putters[p].Writing? && s.putters[p].n < |s.putters[p].blocks|
    case WriteFails => p in s.putters && s.putters[p].Writing?
    case WritesDone => p in s.putters && s.putters[p].Writing? && s.putters[p].n == |s.putters[p].blocks|
    case Announce => p in s.putters && s.putters[p].Announcing? && s.putters[p].n < |s.putters[p].blocks|
      && |s.ready| < CHANNEL_CAPACITY
    case GiveUp => p in s.putters && s.putters[p].Announcing? && s.putters[p].n < |s.putters[p].blocks|
      && p in s.putCancelled
    case PutReturns => p in s.putters && s.putters[p].Announcing? && s.putters[p].n == |s.putters[p].blocks|
  }

  predicate PollEnabled(s: State, a: PollAction) {
    match a
    case Receive => s.poller.PollIdle? && s.ready != []
    case LockPoller => s.poller.PollLock? && s.lock.Free?
    case TakeBucket => s.poller.PollTake?
    case UnlockPoller => s.poller.PollTook?
    case CallNext => s.poller.PollCalling? && s.poller.rest != [] && s.poller.rest[0].waiter in s.waiters
    case PollDone => s.poller.PollCalling? && s.poller.rest == []
  }

  /** The bucket the sweep stands in. */
  function Swept(s: State): seq<Entry>
    requires s.sweeper.SweepAt? || s.sweeper.SweepDoomed?
  {
    Bucket(s.waitList, s.sweeper.cid)
  }

  predicate SweepEnabled(s: State, a: SweepAction) {
    match a
    case SweepTick => s.sweeper.SweepIdle? && s.timeout != 0
    case LockSweeper => s.sweeper.SweepLock? && s.lock.Free?
    case PickBucket(c) => s.sweeper.SweepRange? && c in s.sweeper.todo
    case CheckEntry => s.sweeper.SweepAt? && s.sweeper.i < |Swept(s)|
    case EvictEntry => s.sweeper.SweepDoomed? && s.sweeper.i < |Swept(s)| && Swept(s)[s.sweeper.i].waiter in s.waiters
    case CloseBucket => s.sweeper.SweepAt? && s.sweeper.i >= |Swept(s)|
    case UnlockSweeper => s.sweeper.SweepRange? && s.sweeper.todo == {}
  }

  predicate Enabled(s: State, a: Action) {
    match a
    case Await(w, b) => AwaitEnabled(s, w, b)
    case Put(p, b) => PutEnabled(s, p, b)
    case Poll(b) => PollEnabled(s, b)
    case Sweep(b) => SweepEnabled(s, b)
    case Outside(_) => true
  }

  function WithPc(s: State, w: WaiterId, pc: AwaitPc): State
    requires w in s.waiters
  {
    s.(waiters := s.waiters[w := s.waiters[w].(pc := pc)])
  }

  /** Invoke the callback of w. */
  function Called(s: State, w: WaiterId, r: Result): State
    requires w in s.waiters
  {
    s.(waiters := s.waiters[w := s.waiters[w].(calls := s.waiters[w].calls + [r])])
  }

  /** The CIDs in k will never be announced for the write that just happened. */
  ghost function Skip(s: State, k: set<Cid>): State {
    s.(missed := s.missed + set w | w in s.waiters && Exposed(s, w) && s.waiters[w].cid in k)
  }

  ghost function ApplyAwait(s: State, w: WaiterId, a: AwaitAction): State
    requires AwaitEnabled(s, w, a)
  {
    match a
    case StartAwait(c) => s.(waiters := s.waiters[w := Waiter(c, AwaitLock, false, [], false)])
    case LockWaiter => WithPc(s, w, AwaitCheck).(lock := HeldBy(w))
    case CheckStore(fault) =>
      (match LookUp(s.store, s.waiters[w].cid, fault)
       case Absent => WithPc(s, w, AwaitMissing)
       case Present(size) => WithPc(s, w, AwaitPresent(size))
       case Fault => WithPc(s, w, AwaitErred))
    case Register =>
      var x := s.waiters[w].(pc := AwaitAppended, registered := true);
      s.(waiters := s.waiters[w := x], waitList := Append(s.waitList, x.cid, Entry(w, s.clock)))
    case UnlockWaiter =>
      var pc := match s.waiters[w].pc
        case AwaitPresent(size) => AwaitHit(size)
        case AwaitErred => AwaitFail
        case _ => AwaitDone(false);
      WithPc(s, w, pc).(lock := Free)
    case CallWaiter =>
      var x := s.waiters[w];
      var r := if x.pc.AwaitHit? then Arrived(Block(x.cid, x.pc.size)) else LoadError;
      s.(waiters := s.waiters[w := x.(pc := AwaitDone(x.pc.AwaitHit?), calls := x.calls + [r])])
  }

  function WithPut(s: State, p: PutId, pc: PutPc): State {
    s.(putters := s.putters[p := pc])
  }

  ghost function ApplyPut(s: State, p: PutId, a: PutAction): State
    requires PutEnabled(s, p, a)
  {
    match a
    case StartPut(bs) => WithPut(s, p, Writing(bs, 0))
    case Write =>
      var Writing(bs, n) := s.putters[p];
      WithPut(s, p, Writing(bs, n + 1)).(store := s.store[bs[n].cid := bs[n].size])
    case WriteFails => WithPut(Skip(s, Owed(s.putters[p])), p, PutDone(false))
    case WritesDone => WithPut(s, p, Announcing(s.putters[p].blocks, 0))
    case Announce =>
      var Announcing(bs, n) := s.putters[p];
      WithPut(s, p, Announcing(bs, n + 1)).(ready := s.ready + [bs[n]])
    case GiveUp => WithPut(Skip(s, Owed(s.putters[p])), p, PutDone(false))
    case PutReturns => WithPut(s, p, PutDone(true))
  }

  function ApplyPoll(s: State, a: PollAction): State
    requires PollEnabled(s, a)
  {
    match a
    case Receive => s.(poller := PollLock(s.ready[0]), ready := s.ready[1..])
    case LockPoller => s.(poller := PollTake(s.poller.block), lock := HeldByPoller)
    case TakeBucket =>
      var b := s.poller.block;
      s.(poller := PollTook(b, Bucket(s.waitList, b.cid)), waitList := Without(s.waitList, b.cid))
    case UnlockPoller => s.(poller := PollCalling(s.poller.block, s.poller.rest), lock := Free)
    case CallNext =>
      var b, rest := s.poller.block, s.poller.rest;
      Called(s, rest[0].waiter, Arrived(b)).(poller := PollCalling(b, rest[1..]))
    case PollDone => s.(poller := PollIdle)
  }

  function ApplySweep(s: State, a: SweepAction): State
    requires SweepEnabled(s, a)
  {
    match a
    case SweepTick => s.(sweeper := SweepLock)
    case LockSweeper => s.(sweeper := SweepRange(s.waitList.Keys), lock := HeldBySweeper)
    case PickBucket(c) => s.(sweeper := SweepAt(s.sweeper.todo - {c}, c, 0))
    case CheckEntry =>
      var SweepAt(todo, c, i) := s.sweeper;
      var e := Swept(s)[i];
      var stale := e.waiter in s.cancelled || Expired(s, e);
      s.(sweeper := if stale then SweepDoomed(todo, c, i) else SweepAt(todo, c, i + 1))
    case EvictEntry =>
      var SweepDoomed(todo, c, i) := s.sweeper;
      var w := Swept(s)[i].waiter;
      var x := s.waiters[w];
      var y := if w in s.cancelled then x.(dropped := true) else x.(calls := x.calls + [TimedOut]);
      s.(waiters := s.waiters[w := y], waitList := s.waitList[c := SwapDelete(Swept(s), i)],
         sweeper := SweepAt(todo, c, i))
    case CloseBucket =>
      var SweepAt(todo, c, _) := s.sweeper;
      var wl := if Swept(s) == [] then Without(s.waitList, c) else s.waitList;
      s.(waitList := wl, sweeper := SweepRange(todo))
    case UnlockSweeper => s.(sweeper := SweepIdle, lock := Free)
  }

  ghost function ApplyOutside(s: State, a: OutsideAction): State {
    match a
    case SilentWrite(b) => Skip(s, {b.cid}).(store := s.store[b.cid := b.size])
    case DeleteStored(c) => s.(store := s.store - {c})
    case CancelWaiter(w) => s.(cancelled := s.cancelled + {w})
    case CancelPut(p) => s.(putCancelled := s.putCancelled + {p})
    case Advance(d) => s.(clock := s.clock + d)
  }

  ghost function Apply(s: State, a: Action): State
    requires Enabled(s, a)
  {
    match a
    case Await(w, b) => ApplyAwait(s, w, b)
    case Put(p, b) => ApplyPut(s, p, b)
    case Poll(b) => ApplyPoll(s, b)
    case Sweep(b) => ApplySweep(s, b)
    case Outside(b) => ApplyOutside(s, b)
  }

  /** The callback invocation a step performs, if any. */
  function Fires(s: State, a: Action): Option<Call>
    requires Enabled(s, a)
  {
    match a
    case Await(w, CallWaiter) =>
      var x := s.waiters[w];
      Some(Call(w, if x.pc.AwaitHit? then Arrived(Block(x.cid, x.pc.size)) else LoadError))
    case Poll(CallNext) => Some(Call(s.poller.rest[0].waiter, Arrived(s.poller.block)))
    case Sweep(EvictEntry) =>
      var w := Swept(s)[s.sweeper.i].waiter;
      if w in s.cancelled then None else Some(Call(w, TimedOut))
    case _ => None
  }

  /** The state after a run: `Some` exactly when every action was enabled in turn. */
  ghost function Run(s: State, trace: seq<Action>): Option<State> {
    if trace == [] then Some(s)
    else
      var prefix := Run(s, trace[..|trace| - 1]);
      var a := trace[|trace| - 1];
      if prefix.Some? && Enabled(prefix.value, a) then Some(Apply(prefix.value, a)) else None
  }
}
