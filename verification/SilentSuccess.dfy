/** A reachable run in which a retrieval succeeds, its block is stored, and the want
    that asked for it never gets a response. */
module SilentSuccess {
  import opened Common
  import opened WaitList
  import opened WaitProtocol
  import opened Wants
  import opened ProviderProtocol
  import opened ProviderInvariants
  import opened ProviderTheorems

  /** A provider that has handled one want, with id 0. */
  function Alone(cfg: Config, h: Handling, mgr: State): PState {
    PState(cfg, mgr, map[0 := h], multiset{}, map[], [])
  }

  /** A manager with one waiter, with id 0. */
  function OneWaiter(timeout: nat, lock: Holder, x: Waiter, wl: Buckets): State {
    Init(timeout, map[]).(lock := lock, waiters := map[0 := x], waitList := wl)
  }

  /** A step of the want that queues nothing. */
  lemma Served(p0: PState, trace: seq<PAction>, cfg: Config, h: Handling, mgr: State, a: WantAction)
    returns (longer: seq<PAction>)
    requires PRun(p0, trace) == Some(Alone(cfg, h, mgr)) && ServeEnabled(Alone(cfg, h, mgr), 0, a) && !a.ReceiveWant?
    requires a.DecideWant? ==> !a.fault && Decide(cfg, h.want, LookUp(mgr.store, h.want.cid, false)).Retrieve?
    requires a.RetrievalEnds? ==> a.outcome.Succeeded?
    ensures var r := React(cfg, h, a, LookUp(mgr.store, h.want.cid, false), WaiterOf(mgr, 0));
      var mgr' := if a == NameRetrieval(false) then ApplyAwait(mgr, 0, StartAwait(h.want.cid))
                  else if a.RetrievalCancels? then ApplyOutside(mgr, CancelWaiter(0)) else mgr;
      PRun(p0, longer) == Some(Alone(cfg, Handling(h.want, r.pc, r.retrieval, h.responses), mgr'))
  {
    longer := PExtend(p0, trace, Serve(0, a));
    var r := React(cfg, h, a, LookUp(mgr.store, h.want.cid, false), WaiterOf(mgr, 0));
    assert h.responses + AsSeq(r.said) == h.responses;
    assert map[0 := h][0 := After(h, r)] == map[0 := Handling(h.want, r.pc, r.retrieval, h.responses)];
    var none: multiset<Task> := multiset{};
    assert none + none == none;
  }

  /** A step of the manager that calls nobody back. */
  lemma Managed(p0: PState, trace: seq<PAction>, cfg: Config, h: Handling, mgr: State, b: Action)
    returns (longer: seq<PAction>)
    requires PRun(p0, trace) == Some(Alone(cfg, h, mgr)) && ManagerEnabled(Alone(cfg, h, mgr), b)
    requires !(b.Await? && b.await.CallWaiter?) && b != Poll(CallNext)
    requires b == Sweep(EvictEntry) ==> Swept(mgr)[mgr.sweeper.i].waiter in mgr.cancelled
    ensures PRun(p0, longer) == Some(Alone(cfg, h, Apply(mgr, b)))
  {
    longer := PExtend(p0, trace, Manager(b));
  }

  lemma Arrives(cfg: Config, timeout: nat, want: Want) returns (trace: seq<PAction>)
    requires Retrievable(cfg, want)
    ensures PRun(PInit(cfg, timeout, map[]), trace) == Some(
      Alone(cfg, Handling(want, Awaiting, NotStarted, []),
            OneWaiter(timeout, Free, Waiter(want.cid, AwaitLock, false, [], false), map[])))
  {
    var p0 := PInit(cfg, timeout, map[]);
    var h := Handling(want, Deciding, NotStarted, []);
    trace := PExtend(p0, [], Serve(0, ReceiveWant(want)));
    assert After(h, Reaction(Deciding, NotStarted, None)) == h;
    trace := Served(p0, trace, cfg, h, p0.mgr, DecideWant(false));
    trace := Served(p0, trace, cfg, h.(pc := NamingRetrieval), p0.mgr, NameRetrieval(false));
  }

  lemma Looks(cfg: Config, timeout: nat, want: Want) returns (trace: seq<PAction>)
    requires Retrievable(cfg, want)
    ensures PRun(PInit(cfg, timeout, map[]), trace) == Some(
      Alone(cfg, Handling(want, Awaiting, NotStarted, []),
            OneWaiter(timeout, HeldBy(0), Waiter(want.cid, AwaitMissing, false, [], false), map[])))
  {
    var p0 := PInit(cfg, timeout, map[]);
    var h := Handling(want, Awaiting, NotStarted, []);
    var x := Waiter(want.cid, AwaitLock, false, [], false);
    trace := Arrives(cfg, timeout, want);
    trace := Managed(p0, trace, cfg, h, OneWaiter(timeout, Free, x, map[]), Await(0, LockWaiter));
    assert map[0 := x][0 := x.(pc := AwaitCheck)] == map[0 := x.(pc := AwaitCheck)];
    var mgr := OneWaiter(timeout, HeldBy(0), x.(pc := AwaitCheck), map[]);
    trace := Managed(p0, trace, cfg, h, mgr, Await(0, CheckStore(false)));
    assert mgr.waiters[0 := x.(pc := AwaitMissing)] == map[0 := x.(pc := AwaitMissing)];
  }

  lemma RegisterEffect(timeout: nat, c: Cid)
    ensures var mgr := OneWaiter(timeout, HeldBy(0), Waiter(c, AwaitMissing, false, [], false), map[]);
      ApplyAwait(mgr, 0, Register)
      == OneWaiter(timeout, HeldBy(0), Waiter(c, AwaitAppended, true, [], false), map[c := [Entry(0, 0)]])
  {
    var x, y := Waiter(c, AwaitMissing, false, [], false), Waiter(c, AwaitAppended, true, [], false);
    assert map[0 := x][0 := y] == map[0 := y];
    assert [] + [Entry(0, 0)] == [Entry(0, 0)];
  }

  lemma UnlockEffect(timeout: nat, c: Cid)
    ensures var mgr := OneWaiter(timeout, HeldBy(0), Waiter(c, AwaitAppended, true, [], false),
                                 map[c := [Entry(0, 0)]]);
      ApplyAwait(mgr, 0, UnlockWaiter) == Listening(timeout, c)
  {
    var x := Waiter(c, AwaitAppended, true, [], false);
    assert map[0 := x][0 := x.(pc := AwaitDone(false))] == map[0 := x.(pc := AwaitDone(false))];
  }

  lemma Registers(cfg: Config, timeout: nat, want: Want) returns (trace: seq<PAction>)
    requires Retrievable(cfg, want)
    ensures PRun(PInit(cfg, timeout, map[]), trace) == Some(
      Alone(cfg, Handling(want, Awaiting, NotStarted, []), Listening(timeout, want.cid)))
  {
    var p0, c := PInit(cfg, timeout, map[]), want.cid;
    var h := Handling(want, Awaiting, NotStarted, []);
    trace := Looks(cfg, timeout, want);
    RegisterEffect(timeout, c);
    trace := Managed(p0, trace, cfg, h,
                     OneWaiter(timeout, HeldBy(0), Waiter(c, AwaitMissing, false, [], false), map[]),
                     Await(0, Register));
    UnlockEffect(timeout, c);
    trace := Managed(p0, trace, cfg, h,
                     OneWaiter(timeout, HeldBy(0), Waiter(c, AwaitAppended, true, [], false), map[c := [Entry(0, 0)]]),
                     Await(0, UnlockWaiter));
  }

  /** The manager while the retrieval runs: waiter 0 registered and listed. */
  function Listening(timeout: nat, c: Cid): State {
    OneWaiter(timeout, Free, Waiter(c, AwaitDone(false), true, [], false), map[c := [Entry(0, 0)]])
  }

  /** The same after the block was written past the manager. */
  function Written(timeout: nat, c: Cid, size: nat): State {
    Listening(timeout, c).(store := map[c := size], missed := {0})
  }

  /** The same with the wait cancelled. */
  function Cut(timeout: nat, c: Cid, size: nat): State {
    Written(timeout, c, size).(cancelled := {0})
  }

  lemma WriteEffect(timeout: nat, c: Cid, size: nat)
    ensures Apply(Listening(timeout, c), Outside(SilentWrite(Block(c, size)))) == Written(timeout, c, size)
  {
    var mgr := Listening(timeout, c);
    assert Listed(mgr, 0) by {
      assert Entry(0, 0) in Bucket(mgr.waitList, c);
    }
  }

  lemma BlockArrivesSilently(cfg: Config, timeout: nat, want: Want, size: nat) returns (trace: seq<PAction>)
    requires Retrievable(cfg, want)
    ensures PRun(PInit(cfg, timeout, map[]), trace) == Some(
      Alone(cfg, Handling(want, Finished(Launched), Retrieving, []), Written(timeout, want.cid, size)))
  {
    var p0 := PInit(cfg, timeout, map[]);
    var h := Handling(want, Finished(Launched), Retrieving, []);
    var mgr := Listening(timeout, want.cid);
    trace := Registers(cfg, timeout, want);
    trace := Served(p0, trace, cfg, h.(pc := Awaiting, retrieval := NotStarted), mgr, AwaitReturns);
    WriteEffect(timeout, want.cid, size);
    trace := Managed(p0, trace, cfg, h, mgr, Outside(SilentWrite(Block(want.cid, size))));
  }

  lemma Succeeds(cfg: Config, timeout: nat, want: Want, size: nat) returns (trace: seq<PAction>)
    requires Retrievable(cfg, want)
    ensures PRun(PInit(cfg, timeout, map[]), trace) == Some(
      Alone(cfg, Handling(want, Finished(Launched), Ended(Succeeded), []), Cut(timeout, want.cid, size)))
  {
    var p0 := PInit(cfg, timeout, map[]);
    var h := Handling(want, Finished(Launched), Retrieving, []);
    var written := Written(timeout, want.cid, size);
    trace := BlockArrivesSilently(cfg, timeout, want, size);
    trace := Served(p0, trace, cfg, h, written, RetrievalEnds(Succeeded));
    trace := Served(p0, trace, cfg, h.(retrieval := Reported(Succeeded)), written, RetrievalCancels);
    assert written.cancelled + {0} == {0};
  }

  /** The sweep standing at the only entry, with program counter pc. */
  function Sweeping(timeout: nat, c: Cid, size: nat, pc: SweeperPc): State {
    Cut(timeout, c, size).(lock := HeldBySweeper, sweeper := pc)
  }

  lemma SweepBegins(cfg: Config, timeout: nat, want: Want, size: nat) returns (trace: seq<PAction>)
    requires Retrievable(cfg, want) && timeout != 0
    ensures PRun(PInit(cfg, timeout, map[]), trace) == Some(
      Alone(cfg, Handling(want, Finished(Launched), Ended(Succeeded), []),
            Sweeping(timeout, want.cid, size, SweepAt({}, want.cid, 0))))
  {
    var p0, c, h := PInit(cfg, timeout, map[]), want.cid, Handling(want, Finished(Launched), Ended(Succeeded), []);
    var m := Cut(timeout, c, size);
    trace := Succeeds(cfg, timeout, want, size);
    trace := Managed(p0, trace, cfg, h, m, Sweep(SweepTick));
    trace := Managed(p0, trace, cfg, h, m.(sweeper := SweepLock), Sweep(LockSweeper));
    assert m.waitList.Keys == {c} && {c} - {c} == {};
    trace := Managed(p0, trace, cfg, h, Sweeping(timeout, c, size, SweepRange({c})), Sweep(PickBucket(c)));
  }

  lemma CheckEffect(timeout: nat, c: Cid, size: nat)
    ensures var mgr := Sweeping(timeout, c, size, SweepAt({}, c, 0));
      SweepEnabled(mgr, CheckEntry) && ApplySweep(mgr, CheckEntry) == Sweeping(timeout, c, size, SweepDoomed({}, c, 0))
  {
  }

  lemma EvictEffect(timeout: nat, c: Cid, size: nat)
    ensures var mgr := Sweeping(timeout, c, size, SweepDoomed({}, c, 0));
      && SweepEnabled(mgr, EvictEntry)
      && Swept(mgr)[0].waiter in mgr.cancelled
      && var next := ApplySweep(mgr, EvictEntry);
         c in next.store && !Listed(next, 0) && Captured(next) == {}
  {
    var mgr := Sweeping(timeout, c, size, SweepDoomed({}, c, 0));
    assert mgr.waitList[c] == [Entry(0, 0)];
    assert ApplySweep(mgr, EvictEntry).waitList[c] == [];
  }

  /** Any want the provider retrieves can be left unanswered although its retrieval
      succeeded and its block is in the store. */
  lemma SuccessCanBeSilent(cfg: Config, timeout: nat, want: Want, size: nat) returns (trace: seq<PAction>)
    requires Retrievable(cfg, want) && timeout != 0
    ensures PRun(PInit(cfg, timeout, map[]), trace).Some?
    ensures var p := PRun(PInit(cfg, timeout, map[]), trace).value;
      && p.wants == map[0 := Handling(want, Finished(Launched), Ended(Succeeded), [])]
      && want.cid in p.mgr.store && !Listed(p.mgr, 0) && Captured(p.mgr) == {}
  {
    var p0, c, h := PInit(cfg, timeout, map[]), want.cid, Handling(want, Finished(Launched), Ended(Succeeded), []);
    trace := SweepBegins(cfg, timeout, want, size);
    CheckEffect(timeout, c, size);
    trace := Managed(p0, trace, cfg, h, Sweeping(timeout, c, size, SweepAt({}, c, 0)), Sweep(CheckEntry));
    EvictEffect(timeout, c, size);
    trace := Managed(p0, trace, cfg, h, Sweeping(timeout, c, size, SweepDoomed({}, c, 0)), Sweep(EvictEntry));
  }
}
