/** Put and PutMany in the interleaving model: what one call stores and announces when
    only the poller runs beside it, as `PutPath.PutSide` says; and over every run, what
    the channel and each call have done so far. */
module PutSection {
  import opened Common
  import opened WaitList
  import opened WaitProtocol
  import opened WaitInvariants
  import opened WaitTheorems
  import opened Sections

  /** The blocks the poller received in this run, in order. */
  ghost function Received(s: State, trace: seq<Action>): seq<Block> {
    if trace == [] || Run(s, trace).None? then []
    else Received(s, trace[..|trace| - 1]) + Got(trace[|trace| - 1], Run(s, trace).value)
  }

  /** What the poller received in a step that led to t. */
  function Got(a: Action, t: State): seq<Block> {
    if a == Poll(Receive) && t.poller.PollLock? then [t.poller.block] else []
  }

  lemma ReceivedAppend(s: State, trace: seq<Action>, a: Action)
    requires Run(s, trace + [a]).Some?
    ensures Received(s, trace + [a]) == Received(s, trace) + Got(a, Run(s, trace + [a]).value)
  {
    assert (trace + [a])[..|trace|] == trace;
  }

  lemma {:induction false} ReceivedConcat(s: State, first: seq<Action>, second: seq<Action>)
    requires Run(s, first).Some? && Run(Run(s, first).value, second).Some?
    ensures Received(s, first + second) == Received(s, first) + Received(Run(s, first).value, second)
    decreases |second|
  {
    if second == [] {
      assert first + second == first;
    } else {
      var init, a := second[..|second| - 1], second[|second| - 1];
      assert second == init + [a];
      ReceivedConcat(s, first, init);
      RunConcat(s, first, second);
      ConcatStep(s, first, init, a);
    }
  }

  lemma ConcatStep(s: State, first: seq<Action>, init: seq<Action>, a: Action)
    requires Run(s, first).Some? && Run(Run(s, first).value, init + [a]).Some?
    requires Run(s, first + (init + [a])) == Run(Run(s, first).value, init + [a])
    requires Received(s, first + init) == Received(s, first) + Received(Run(s, first).value, init)
    ensures Received(s, first + (init + [a])) == Received(s, first) + Received(Run(s, first).value, init + [a])
  {
    var t := Run(s, first).value;
    Assoc(first, init, [a]);
    ReceivedAppend(s, first + init, a);
    ReceivedAppend(t, init, a);
    Assoc(Received(s, first), Received(t, init), Got(a, Run(t, init + [a]).value));
  }

  lemma {:induction false} NotifyingReceivesNothing(s: State, trace: seq<Action>)
    requires Run(s, trace).Some? && OnlyNotifies(trace)
    ensures Received(s, trace) == []
  {
    if trace != [] {
      var n := |trace| - 1;
      assert forall a | a in trace[..n] :: a in trace;
      assert trace[n] in trace;
      NotifyingReceivesNothing(s, trace[..n]);
    }
  }

  lemma {:induction false} RunKeepsInv(s: State, trace: seq<Action>)
    requires Inv(s) && Run(s, trace).Some?
    ensures Inv(Run(s, trace).value)
  {
    if trace != [] {
      var n := |trace| - 1;
      RunKeepsInv(s, trace[..n]);
      Step(Run(s, trace[..n]).value, trace[n]);
    }
  }

  /** One more step that is not a receive. */
  lemma Silently(s: State, trace: seq<Action>, a: Action) returns (more: seq<Action>)
    requires Run(s, trace).Some? && Enabled(Run(s, trace).value, a) && a != Poll(Receive)
    ensures Run(s, more) == Some(Apply(Run(s, trace).value, a)) && Received(s, more) == Received(s, trace)
  {
    more := trace + [a];
    assert more[..|trace|] == trace;
  }

  // ----- one call beside the poller -----

  /** The first k writes. */
  lemma {:induction false} WritesRun(s: State, p: PutId, bs: seq<Block>, k: nat) returns (trace: seq<Action>)
    requires p in s.putters && s.putters[p] == Writing(bs, 0) && k <= |bs|
    ensures Run(s, trace) == Some(s.(putters := s.putters[p := Writing(bs, k)], store := WriteAll(s.store, bs[..k])))
    ensures Received(s, trace) == []
  {
    if k == 0 {
      trace := [];
      assert s.putters[p := Writing(bs, 0)] == s.putters;
    } else {
      trace := WritesRun(s, p, bs, k - 1);
      trace := Silently(s, trace, Put(p, Write));
      UpdateTwice(s.putters, p, Writing(bs, k - 1), Writing(bs, k));
      assert bs[..k][..k - 1] == bs[..k - 1];
    }
  }

  /** The poller is free to receive. */
  predicate PollerReady(s: State) {
    s.lock.Free? && s.poller.PollIdle?
  }

  /** What putters see is the same. */
  predicate SamePutSide(s: State, t: State) {
    t.store == s.store && t.putters == s.putters && t.putCancelled == s.putCancelled
  }

  lemma ReceiveRuns(s: State, trace: seq<Action>) returns (more: seq<Action>)
    requires Run(s, trace).Some? && Run(s, trace).value.poller.PollIdle? && Run(s, trace).value.ready != []
    ensures var t := Run(s, trace).value;
      && Run(s, more) == Some(t.(poller := PollLock(t.ready[0]), ready := t.ready[1..]))
      && Received(s, more) == Received(s, trace) + [t.ready[0]]
  {
    more := trace + [Poll(Receive)];
    assert more[..|trace|] == trace;
  }

  /** The poller receives one block and notifies. */
  lemma DrainRuns(s: State, trace: seq<Action>) returns (more: seq<Action>)
    requires Inv(s) && Run(s, trace).Some? && PollerReady(Run(s, trace).value) && Run(s, trace).value.ready != []
    ensures Run(s, more).Some?
    ensures var t, u := Run(s, trace).value, Run(s, more).value;
      && PollerReady(u) && SamePutSide(t, u) && u.ready == t.ready[1..]
      && Received(s, more) == Received(s, trace) + [t.ready[0]]
  {
    var received := ReceiveRuns(s, trace);
    RunKeepsInv(s, received);
    var notified := NotifyIsASection(Run(s, received).value);
    NotifyingReceivesNothing(Run(s, received).value, notified);
    RunConcat(s, received, notified);
    ReceivedConcat(s, received, notified);
    more := received + notified;
  }

  /** The poller receives where the channel is full. */
  lemma RoomRuns(s: State, trace: seq<Action>) returns (more: seq<Action>)
    requires Inv(s) && Run(s, trace).Some? && PollerReady(Run(s, trace).value)
    ensures Run(s, more).Some?
    ensures var t, u := Run(s, trace).value, Run(s, more).value;
      && PollerReady(u) && SamePutSide(t, u) && |u.ready| < CHANNEL_CAPACITY
      && Received(s, more) + u.ready == Received(s, trace) + t.ready
  {
    ReadyFits(s, trace);
    var ready := Run(s, trace).value.ready;
    if |ready| < CHANNEL_CAPACITY {
      more := trace;
    } else {
      more := DrainRuns(s, trace);
      FirstMoves(Received(s, trace), ready);
    }
  }

  lemma ReadyFits(s: State, trace: seq<Action>)
    requires Inv(s) && Run(s, trace).Some?
    ensures |Run(s, trace).value.ready| <= CHANNEL_CAPACITY
  {
    RunKeepsInv(s, trace);
  }

  lemma FirstMoves(received: seq<Block>, ready: seq<Block>)
    requires ready != []
    ensures (received + [ready[0]]) + ready[1..] == received + ready
  {
  }

  lemma SendEffect(t: State, p: PutId, bs: seq<Block>, k: nat)
    requires p in t.putters && t.putters[p] == Announcing(bs, k) && k < |bs| && |t.ready| < CHANNEL_CAPACITY
    ensures Enabled(t, Put(p, Announce))
    ensures Apply(t, Put(p, Announce))
         == t.(putters := t.putters[p := Announcing(bs, k + 1)], ready := t.ready + [bs[k]])
  {
  }

  lemma SendRuns(s: State, trace: seq<Action>, p: PutId, bs: seq<Block>, k: nat) returns (more: seq<Action>)
    requires Run(s, trace).Some? && k < |bs| && |Run(s, trace).value.ready| < CHANNEL_CAPACITY
    requires var t := Run(s, trace).value; p in t.putters && t.putters[p] == Announcing(bs, k)
    ensures var t := Run(s, trace).value;
      && Run(s, more) == Some(t.(putters := t.putters[p := Announcing(bs, k + 1)], ready := t.ready + [bs[k]]))
      && Received(s, more) == Received(s, trace)
  {
    SendEffect(Run(s, trace).value, p, bs, k);
    more := Silently(s, trace, Put(p, Announce));
  }

  lemma AnnounceRuns(s: State, trace: seq<Action>, p: PutId, bs: seq<Block>, k: nat) returns (more: seq<Action>)
    requires Inv(s) && Run(s, trace).Some? && PollerReady(Run(s, trace).value) && k < |bs|
    requires var t := Run(s, trace).value; p in t.putters && t.putters[p] == Announcing(bs, k)
    ensures Run(s, more).Some?
    ensures var t, u := Run(s, trace).value, Run(s, more).value;
      && PollerReady(u) && u.store == t.store && u.putters == t.putters[p := Announcing(bs, k + 1)]
      && u.putCancelled == t.putCancelled
      && Received(s, more) + u.ready == Received(s, trace) + t.ready + [bs[k]]
  {
    var room := RoomRuns(s, trace);
    Assoc(Received(s, room), Run(s, room).value.ready, [bs[k]]);
    more := SendRuns(s, room, p, bs, k);
  }

  lemma OneMore(before: seq<Block>, bs: seq<Block>, k: nat)
    requires k < |bs|
    ensures (before + bs[..k]) + [bs[k]] == before + bs[..k + 1]
  {
  }

  /** The first k sends. */
  lemma {:induction false} AnnouncesRun(s: State, trace: seq<Action>, p: PutId, bs: seq<Block>, k: nat)
    returns (more: seq<Action>)
    requires Inv(s) && Run(s, trace).Some? && PollerReady(Run(s, trace).value) && k <= |bs|
    requires var t := Run(s, trace).value; p in t.putters && t.putters[p] == Announcing(bs, 0)
    ensures Run(s, more).Some?
    ensures var t, u := Run(s, trace).value, Run(s, more).value;
      && PollerReady(u) && u.store == t.store && u.putters == t.putters[p := Announcing(bs, k)]
      && u.putCancelled == t.putCancelled
      && Received(s, more) + u.ready == Received(s, trace) + t.ready + bs[..k]
  {
    var t := Run(s, trace).value;
    if k == 0 {
      more := trace;
      assert t.putters[p := Announcing(bs, 0)] == t.putters && bs[..0] == [];
    } else {
      var before := AnnouncesRun(s, trace, p, bs, k - 1);
      more := AnnounceRuns(s, before, p, bs, k - 1);
      UpdateTwice(t.putters, p, Announcing(bs, k - 1), Announcing(bs, k));
      OneMore(Received(s, trace) + t.ready, bs, k - 1);
    }
  }

  /** A call ends: the inner store fails, a select leaves, or all is announced. */
  lemma EndRuns(s: State, trace: seq<Action>, p: PutId, a: PutAction) returns (more: seq<Action>)
    requires Run(s, trace).Some? && PutEnabled(Run(s, trace).value, p, a)
    requires a.WriteFails? || a.GiveUp? || a.PutReturns?
    ensures Run(s, more).Some?
    ensures var t, u := Run(s, trace).value, Run(s, more).value;
      && u.store == t.store && u.ready == t.ready && u.putters == t.putters[p := PutDone(a.PutReturns?)]
      && Received(s, more) == Received(s, trace)
  {
    more := Silently(s, trace, Put(p, a));
  }

  /** After all writes, the first k sends, with the poller receiving where the channel is
      full. */
  lemma WritesThenAnnounces(s: State, p: PutId, bs: seq<Block>, k: nat) returns (trace: seq<Action>)
    requires Inv(s) && PollerReady(s) && p in s.putters && s.putters[p] == Writing(bs, 0) && k <= |bs|
    ensures Run(s, trace).Some?
    ensures var t := Run(s, trace).value;
      && t.store == WriteAll(s.store, bs) && t.putters == s.putters[p := Announcing(bs, k)]
      && t.putCancelled == s.putCancelled
      && Received(s, trace) + t.ready == s.ready + bs[..k]
  {
    trace := WritesRun(s, p, bs, |bs|);
    assert bs[..|bs|] == bs;
    trace := Silently(s, trace, Put(p, WritesDone));
    UpdateTwice(s.putters, p, Writing(bs, |bs|), Announcing(bs, 0));
    assert [] + s.ready == s.ready;
    trace := AnnouncesRun(s, trace, p, bs, k);
    UpdateTwice(s.putters, p, Announcing(bs, 0), Announcing(bs, k));
  }

  /** One call, from its first write to its end; it leaves when its context is cancelled. */
  lemma WholeRuns(s: State, p: PutId, bs: seq<Block>, k: nat, leaves: bool) returns (trace: seq<Action>)
    requires Inv(s) && PollerReady(s) && p in s.putters && s.putters[p] == Writing(bs, 0)
    requires if leaves then k < |bs| else k == |bs|
    ensures Run(s, trace).Some?
    ensures var t := Run(s, trace).value;
      && t.store == WriteAll(s.store, bs) && t.putters == s.putters[p := PutDone(!leaves)]
      && Received(s, trace) + t.ready == s.ready + bs[..k]
  {
    trace := WritesThenAnnounces(s, p, bs, k);
    UpdateTwice(s.putters, p, Announcing(bs, k), PutDone(!leaves));
    if leaves {
      trace := Silently(s, trace, Outside(CancelPut(p)));
    }
    trace := EndRuns(s, trace, p, if leaves then GiveUp else PutReturns);
  }

  /** One call whose writes fail after the k-th. */
  lemma FailureRuns(s: State, p: PutId, bs: seq<Block>, k: nat) returns (trace: seq<Action>)
    requires p in s.putters && s.putters[p] == Writing(bs, 0) && k <= |bs|
    ensures Run(s, trace).Some?
    ensures var t := Run(s, trace).value;
      && t.store == WriteAll(s.store, bs[..k]) && t.putters == s.putters[p := PutDone(false)]
      && Received(s, trace) + t.ready == s.ready
  {
    trace := WritesRun(s, p, bs, k);
    UpdateTwice(s.putters, p, Writing(bs, k), PutDone(false));
    trace := EndRuns(s, trace, p, WriteFails);
    assert [] + s.ready == s.ready;
  }

  /** PutMany of any blocks, with only the poller beside it, does what
      `PutPath.PutSide.PutMany` does. If the inner store fails after some writes, those
      are stored, nothing is announced, and the call fails. Else every block is stored;
      all of them are announced, in order, and the call succeeds; or its context is
      cancelled, after any number of sends, and it leaves and fails. */
  lemma PutIsASection(s: State, p: PutId, bs: seq<Block>, failAfter: Option<nat>, leaveAt: Option<nat>)
    returns (trace: seq<Action>)
    requires Inv(s) && PollerReady(s) && p in s.putters && s.putters[p] == Writing(bs, 0)
    requires failAfter.Some? ==> failAfter.value <= |bs|
    requires leaveAt.Some? ==> leaveAt.value < |bs|
    ensures Run(s, trace).Some?
    ensures var t := Run(s, trace).value;
      var announced := if failAfter.Some? then 0 else if leaveAt.Some? then leaveAt.value else |bs|;
      && Wrote(s.store, t.store, if failAfter.Some? then bs[..failAfter.value] else bs)
      && Received(s, trace) + t.ready == s.ready + bs[..announced]
      && t.putters == s.putters[p := PutDone(failAfter.None? && leaveAt.None?)]
  {
    WriteAllWrites(s.store, if failAfter.Some? then bs[..failAfter.value] else bs);
    if failAfter.Some? {
      trace := FailureRuns(s, p, bs, failAfter.value);
      assert s.ready + bs[..0] == s.ready;
    } else {
      trace := WholeRuns(s, p, bs, if leaveAt.Some? then leaveAt.value else |bs|, leaveAt.Some?);
    }
  }

  // ----- every run -----

  /** The block that action n of the trace put at the end of the channel. */
  ghost function SentIn(s: State, trace: seq<Action>): seq<Block>
    requires Run(s, trace).Some? && trace != []
  {
    var t := Run(s, trace).value;
    var a := trace[|trace| - 1];
    if a.Put? && a.put.Announce? && t.ready != [] then [t.ready[|t.ready| - 1]] else []
  }

  /** All blocks that were sent on the channel in this run, in order. */
  ghost function SentByAll(s: State, trace: seq<Action>): seq<Block>
    requires Run(s, trace).Some?
  {
    if trace == [] then [] else SentByAll(s, trace[..|trace| - 1]) + SentIn(s, trace)
  }

  /** Those that call p sent. */
  ghost function SentBy(s: State, trace: seq<Action>, p: PutId): seq<Block>
    requires Run(s, trace).Some?
  {
    if trace == [] then []
    else
      SentBy(s, trace[..|trace| - 1], p)
      + if trace[|trace| - 1].Put? && trace[|trace| - 1].p == p then SentIn(s, trace) else []
  }

  /** What one step does to the channel. */
  lemma ChannelSteps(s: State, a: Action)
    requires Enabled(s, a)
    ensures var t := Apply(s, a);
      if a.Put? && a.put.Announce? then t.ready != [] && t.ready[..|t.ready| - 1] == s.ready
      else if a == Poll(Receive) then s.ready != [] && t.poller == PollLock(s.ready[0]) && t.ready == s.ready[1..]
      else t.ready == s.ready
  {
  }

  lemma LastJoins(received: seq<Block>, ready: seq<Block>, longer: seq<Block>)
    requires longer != [] && longer[..|longer| - 1] == ready
    ensures received + longer == (received + ready) + [longer[|longer| - 1]]
  {
    assert longer == ready + [longer[|longer| - 1]];
  }

  /** The channel loses, invents and reorders nothing: from an empty one on, what was
      received and what is still queued is what was sent, in the order in which it was sent. */
  lemma {:induction false} ChannelIsFifo(s0: State, trace: seq<Action>)
    requires s0.ready == [] && Run(s0, trace).Some?
    ensures Received(s0, trace) + Run(s0, trace).value.ready == SentByAll(s0, trace)
  {
    if trace != [] {
      var n := |trace| - 1;
      var s, t, received := Run(s0, trace[..n]).value, Run(s0, trace).value, Received(s0, trace[..n]);
      ChannelIsFifo(s0, trace[..n]);
      ChannelSteps(s, trace[n]);
      if trace[n] == Poll(Receive) {
        FirstMoves(received, s.ready);
      } else if trace[n].Put? && trace[n].put.Announce? {
        LastJoins(received, s.ready, t.ready);
      }
    }
  }

  /** In every run the channel holds ten blocks at most, and a call with a block left to
      announce can send it exactly while it holds fewer. */
  lemma ChannelHoldsTen(timeout: nat, store: map<Cid, nat>, trace: seq<Action>, p: PutId)
    requires Run(Init(timeout, store), trace).Some?
    ensures var s := Run(Init(timeout, store), trace).value;
      && |s.ready| <= 10
      && (p in s.putters && s.putters[p].Announcing? && s.putters[p].n < |s.putters[p].blocks| ==>
            (Enabled(s, Put(p, Announce)) <==> |s.ready| < 10))
  {
    ReachableInv(timeout, store, trace);
  }

  /** What the actions of the run have made of c in the store: the last write of it by a
      Put or past the manager, or its deletion, or what was there at first. */
  ghost function StoredBy(s0: State, trace: seq<Action>, c: Cid): Option<nat>
    requires Run(s0, trace).Some?
  {
    if trace == [] then if c in s0.store then Some(s0.store[c]) else None
    else
      var n := |trace| - 1;
      var earlier := StoredBy(s0, trace[..n], c);
      match trace[n]
      case Put(p, Write) =>
        var pc := Run(s0, trace[..n]).value.putters[p];
        if pc.blocks[pc.n].cid == c then Some(pc.blocks[pc.n].size) else earlier
      case Outside(SilentWrite(b)) => if b.cid == c then Some(b.size) else earlier
      case Outside(DeleteStored(d)) => if d == c then None else earlier
      case _ => earlier
  }

  lemma AwaitKeepsPuts(s: State, w: WaiterId, a: AwaitAction)
    requires AwaitEnabled(s, w, a)
    ensures ApplyAwait(s, w, a).store == s.store && ApplyAwait(s, w, a).putCancelled == s.putCancelled
  {
  }

  lemma SweepKeepsPuts(s: State, a: SweepAction)
    requires SweepEnabled(s, a)
    ensures ApplySweep(s, a).store == s.store && ApplySweep(s, a).putCancelled == s.putCancelled
  {
  }

  /** The step writes to the store or deletes from it. */
  predicate TouchesStore(a: Action) {
    (a.Put? && a.put.Write?) || (a.Outside? && (a.outside.SilentWrite? || a.outside.DeleteStored?))
  }

  lemma OthersKeepStore(s: State, a: Action)
    requires Enabled(s, a) && !TouchesStore(a)
    ensures Apply(s, a).store == s.store
  {
    if a.Await? {
      AwaitKeepsPuts(s, a.w, a.await);
    } else if a.Sweep? {
      SweepKeepsPuts(s, a.sweep);
    }
  }

  /** In every run the store holds exactly that. */
  lemma {:induction false} StoreFollows(s0: State, trace: seq<Action>, c: Cid)
    requires Run(s0, trace).Some?
    ensures var store := Run(s0, trace).value.store;
      StoredBy(s0, trace, c) == if c in store then Some(store[c]) else None
  {
    if trace != [] {
      var n := |trace| - 1;
      StoreFollows(s0, trace[..n], c);
      if !TouchesStore(trace[n]) {
        OthersKeepStore(Run(s0, trace[..n]).value, trace[n]);
      }
    }
  }

  /** Action j is call p writing block b, and nothing else, to the store. */
  ghost predicate WritesAt(s0: State, trace: seq<Action>, j: nat, p: PutId, b: Block)
    requires j < |trace|
  {
    && trace[j] == Put(p, Write)
    && Run(s0, trace[..j]).Some? && Run(s0, trace[..j + 1]).Some?
    && Run(s0, trace[..j + 1]).value.store == Run(s0, trace[..j]).value.store[b.cid := b.size]
  }

  ghost predicate WrittenIn(s0: State, trace: seq<Action>, p: PutId, b: Block) {
    exists j | 0 <= j < |trace| :: WritesAt(s0, trace, j, p, b)
  }

  ghost predicate AllWritten(s0: State, trace: seq<Action>, p: PutId, bs: seq<Block>) {
    forall i | 0 <= i < |bs| :: WrittenIn(s0, trace, p, bs[i])
  }

  lemma WrittenStays(s0: State, trace: seq<Action>, p: PutId, bs: seq<Block>)
    requires trace != [] && AllWritten(s0, trace[..|trace| - 1], p, bs)
    ensures AllWritten(s0, trace, p, bs)
  {
    var prefix := trace[..|trace| - 1];
    forall i | 0 <= i < |bs| ensures WrittenIn(s0, trace, p, bs[i]) {
      assert WrittenIn(s0, prefix, p, bs[i]);
      var j :| 0 <= j < |prefix| && WritesAt(s0, prefix, j, p, bs[i]);
      assert prefix[..j] == trace[..j] && prefix[..j + 1] == trace[..j + 1];
      assert WritesAt(s0, trace, j, p, bs[i]);
    }
  }

  /** What a call with blocks bs has sent when it stands at pc. */
  predicate SentSoFar(sent: seq<Block>, bs: seq<Block>, pc: PutPc) {
    match pc
    case Writing(cs, n) => cs == bs && n <= |bs| && sent == []
    case Announcing(cs, n) => cs == bs && n <= |bs| && sent == bs[..n]
    case PutDone(ok) => sent <= bs && (ok ==> sent == bs)
  }

  /** The blocks it is sure to have written by then. */
  function StoredSoFar(sent: seq<Block>, bs: seq<Block>, pc: PutPc): seq<Block>
    requires SentSoFar(sent, bs, pc)
  {
    match pc
    case Writing(_, n) => bs[..n]
    case Announcing(_, _) => bs
    case PutDone(ok) => if ok || sent != [] then bs else []
  }

  /** How far call p with blocks bs has come, and what it has done. */
  ghost predicate PutSoFar(s0: State, trace: seq<Action>, p: PutId, bs: seq<Block>, pc: PutPc)
    requires Run(s0, trace).Some?
  {
    var sent := SentBy(s0, trace, p);
    SentSoFar(sent, bs, pc) && AllWritten(s0, trace, p, StoredSoFar(sent, bs, pc))
  }

  lemma OtherStep(s0: State, trace: seq<Action>, p: PutId, bs: seq<Block>, pc: PutPc)
    requires trace != [] && Run(s0, trace).Some? && !(trace[|trace| - 1].Put? && trace[|trace| - 1].p == p)
    requires PutSoFar(s0, trace[..|trace| - 1], p, bs, pc)
    ensures PutSoFar(s0, trace, p, bs, pc)
  {
    WrittenStays(s0, trace, p, StoredSoFar(SentBy(s0, trace, p), bs, pc));
  }

  lemma OwnWrite(s0: State, trace: seq<Action>, p: PutId, bs: seq<Block>, n: nat)
    requires trace != [] && Run(s0, trace).Some? && trace[|trace| - 1] == Put(p, Write) && n < |bs|
    requires var s := Run(s0, trace[..|trace| - 1]).value; p in s.putters && s.putters[p] == Writing(bs, n)
    requires AllWritten(s0, trace[..|trace| - 1], p, bs[..n])
    ensures AllWritten(s0, trace, p, bs[..n + 1])
  {
    WrittenStays(s0, trace, p, bs[..n]);
    assert trace[..|trace|] == trace;
    assert WritesAt(s0, trace, |trace| - 1, p, bs[n]);
    var next := bs[..n + 1];
    forall i | 0 <= i < |next| ensures WrittenIn(s0, trace, p, next[i]) {
      assert i < n ==> WrittenIn(s0, trace, p, bs[..n][i]);
    }
  }

  /** A step a of a call takes it from pc to next. */
  predicate Advances(pc: PutPc, a: PutAction, next: PutPc) {
    && (a.Write? || a.WriteFails? || a.WritesDone? ==> pc.Writing?)
    && (a.Announce? || a.GiveUp? || a.PutReturns? ==> pc.Announcing?)
    && match a
       case StartPut(_) => false
       case Write => pc.n < |pc.blocks| && next == Writing(pc.blocks, pc.n + 1)
       case WritesDone => pc.n == |pc.blocks| && next == Announcing(pc.blocks, 0)
       case Announce => pc.n < |pc.blocks| && next == Announcing(pc.blocks, pc.n + 1)
       case PutReturns => pc.n == |pc.blocks| && next == PutDone(true)
       case _ => next == PutDone(false)
  }

  /** What a step of call p itself does to it and to the channel. */
  lemma OwnEffect(s: State, p: PutId, a: PutAction)
    requires PutEnabled(s, p, a) && !a.StartPut?
    ensures var t := ApplyPut(s, p, a);
      && p in t.putters && Advances(s.putters[p], a, t.putters[p])
      && (a.Announce? ==> t.ready == s.ready + [s.putters[p].blocks[s.putters[p].n]])
  {
  }

  lemma OwnSent(s0: State, trace: seq<Action>, p: PutId, s: State, a: PutAction)
    requires trace != [] && Run(s0, trace[..|trace| - 1]) == Some(s) && PutInv(s)
    requires trace[|trace| - 1] == Put(p, a) && PutEnabled(s, p, a) && !a.StartPut?
    ensures Run(s0, trace) == Some(ApplyPut(s, p, a))
    ensures SentBy(s0, trace, p) == SentBy(s0, trace[..|trace| - 1], p)
                                    + if a.Announce? then [s.putters[p].blocks[s.putters[p].n]] else []
  {
    OwnEffect(s, p, a);
  }

  /** A step of call p itself. */
  lemma OwnStep(s0: State, trace: seq<Action>, p: PutId, bs: seq<Block>, s: State, a: PutAction)
    requires trace != [] && Run(s0, trace[..|trace| - 1]) == Some(s) && PutInv(s)
    requires trace[|trace| - 1] == Put(p, a) && PutEnabled(s, p, a) && !a.StartPut?
    requires p in s.putters && PutSoFar(s0, trace[..|trace| - 1], p, bs, s.putters[p])
    ensures var t := ApplyPut(s, p, a);
      Run(s0, trace) == Some(t) && p in t.putters && PutSoFar(s0, trace, p, bs, t.putters[p])
  {
    var n := s.putters[p].n;
    OwnEffect(s, p, a);
    OwnSent(s0, trace, p, s, a);
    if a.Write? {
      OwnWrite(s0, trace, p, bs, s.putters[p].n);
    }
    var pc := s.putters[p];
    SentMoves(SentBy(s0, trace[..|trace| - 1], p), bs, pc, a, ApplyPut(s, p, a).putters[p]);
    if !a.Write? {
      WrittenStays(s0, trace, p, if pc.Writing? then bs[..pc.n] else bs);
    }
  }

  /** What a call has sent follows from where it stands, step by step. */
  lemma SentMoves(sent: seq<Block>, bs: seq<Block>, pc: PutPc, a: PutAction, next: PutPc)
    requires SentSoFar(sent, bs, pc) && Advances(pc, a, next)
    ensures var after := sent + if a.Announce? then [pc.blocks[pc.n]] else [];
      && SentSoFar(after, bs, next)
      && (a.Write? ==> StoredSoFar(after, bs, next) == bs[..pc.n + 1])
      && (!a.Write? && pc.Writing? ==> StoredSoFar(after, bs, next) == if a.WritesDone? then bs[..pc.n] else [])
      && (pc.Announcing? ==> StoredSoFar(after, bs, next) == bs || StoredSoFar(after, bs, next) == [])
  {
    if a.Announce? {
      assert bs[..pc.n + 1] == bs[..pc.n] + [bs[pc.n]];
    } else if a.WritesDone? {
      assert bs[..pc.n] == bs && bs[..0] == [];
    } else if a.PutReturns? {
      assert bs[..pc.n] == bs;
    }
  }

  /** Once call p was made with blocks bs, it has come as far as PutSoFar says; before,
      it has sent nothing. */
  lemma {:induction false} RunsPut(timeout: nat, store: map<Cid, nat>, trace: seq<Action>, p: PutId, bs: seq<Block>)
    requires Run(Init(timeout, store), trace).Some?
    ensures var s0 := Init(timeout, store);
      var s := Run(s0, trace).value;
      && (p !in s.putters ==> SentBy(s0, trace, p) == [] && Put(p, StartPut(bs)) !in trace)
      && (Put(p, StartPut(bs)) in trace ==> p in s.putters && PutSoFar(s0, trace, p, bs, s.putters[p]))
  {
    if trace != [] {
      var n := |trace| - 1;
      var s0 := Init(timeout, store);
      var s := Run(s0, trace[..n]).value;
      RunsPut(timeout, store, trace[..n], p, bs);
      assert trace == trace[..n] + [trace[n]];
      PutterSteps(s, trace[n], p);
      if Put(p, StartPut(bs)) in trace[..n] {
        if trace[n].Put? && trace[n].p == p {
          ReachableInv(timeout, store, trace[..n]);
          OwnStep(s0, trace, p, bs, s, trace[n].put);
        } else {
          OtherStep(s0, trace, p, bs, s.putters[p]);
        }
      } else if trace[n] == Put(p, StartPut(bs)) {
        assert bs[..0] == [];
      }
    }
  }

  lemma CancelSteps(s: State, a: Action, p: PutId)
    requires Enabled(s, a)
    ensures p in Apply(s, a).putCancelled <==> p in s.putCancelled || a == Outside(CancelPut(p))
  {
    if a.Await? {
      AwaitKeepsPuts(s, a.w, a.await);
    } else if a.Sweep? {
      SweepKeepsPuts(s, a.sweep);
    }
  }

  lemma FailureSteps(s: State, p: PutId, a: PutAction)
    requires PutEnabled(s, p, a) && !a.WriteFails? && !(a.GiveUp? && p in s.putCancelled)
    ensures p in ApplyPut(s, p, a).putters && ApplyPut(s, p, a).putters[p] != PutDone(false)
  {
  }

  /** A Put or PutMany fails for a cause only: the inner store failed it, or its context
      was cancelled. */
  lemma {:induction false} FailedPutsHaveACause(timeout: nat, store: map<Cid, nat>, trace: seq<Action>, p: PutId)
    requires Run(Init(timeout, store), trace).Some?
    ensures var s := Run(Init(timeout, store), trace).value;
      && (p in s.putCancelled <==> Outside(CancelPut(p)) in trace)
      && (p in s.putters && s.putters[p] == PutDone(false) ==>
            Put(p, WriteFails) in trace || Outside(CancelPut(p)) in trace)
  {
    if trace != [] {
      var n := |trace| - 1;
      FailedPutsHaveACause(timeout, store, trace[..n], p);
      assert trace == trace[..n] + [trace[n]];
      var s, a := Run(Init(timeout, store), trace[..n]).value, trace[n];
      CancelSteps(s, a, p);
      PutterSteps(s, a, p);
      if a.Put? && a.p == p && !a.put.WriteFails? && !(a.put.GiveUp? && p in s.putCancelled) {
        FailureSteps(s, p, a.put);
      }
    }
  }

  lemma PutterSteps(s: State, a: Action, p: PutId)
    requires Enabled(s, a)
    ensures var t := Apply(s, a);
      && (p in s.putters ==> p in t.putters && !(a.Put? && a.p == p && a.put.StartPut?))
      && (!(a.Put? && a.p == p) ==>
            (p in t.putters <==> p in s.putters) && (p in s.putters ==> t.putters[p] == s.putters[p]))
      && (a.Put? && a.p == p ==> p in t.putters && (p in s.putters <==> !a.put.StartPut?))
  {
  }

  /** What every Put and PutMany does, in every run: it has sent a prefix of its blocks,
      in order; all of them, if it succeeded; and it sends nothing, and does not succeed,
      before it has written every one of them to the store. */
  lemma PutStoresThenAnnounces(timeout: nat, store: map<Cid, nat>, trace: seq<Action>, p: PutId, bs: seq<Block>)
    requires Run(Init(timeout, store), trace).Some? && Put(p, StartPut(bs)) in trace
    ensures var s0 := Init(timeout, store);
      var s := Run(s0, trace).value;
      var sent := SentBy(s0, trace, p);
      && p in s.putters
      && sent <= bs && (s.putters[p] == PutDone(true) ==> sent == bs)
      && (sent != [] || s.putters[p] == PutDone(true) ==> AllWritten(s0, trace, p, bs))
  {
    RunsPut(timeout, store, trace, p, bs);
  }
}
