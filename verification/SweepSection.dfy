/** One pass of the cleanup in the interleaving model. While the sweep holds the lock
    the clock advances and contexts are cancelled between its checks, as any monotone
    readings say; it does to the wait list and to the callbacks what
    `BlockManager.Manager.Sweep` does. */
module SweepSection {
  import opened Common
  import opened WaitList
  import opened WaitProtocol
  import opened WaitInvariants
  import opened SweepSpec
  import opened Sections

  /** A step of the sweep, of the clock or of a context. */
  predicate SweepOrTime(a: Action) {
    a.Sweep? || (a.Outside? && (a.outside.Advance? || a.outside.CancelWaiter?))
  }

  ghost predicate OnlySweepAndTime(trace: seq<Action>) {
    forall a | a in trace :: SweepOrTime(a)
  }

  lemma SweepExtend(s: State, trace: seq<Action>, a: Action) returns (more: seq<Action>)
    requires Run(s, trace).Some? && Enabled(Run(s, trace).value, a) && SweepOrTime(a) && OnlySweepAndTime(trace)
    ensures var t := Run(s, trace).value;
      && Run(s, more) == Some(Apply(t, a))
      && Log(s, more) == Log(s, trace) + Performed(Fires(t, a))
      && OnlySweepAndTime(more)
  {
    more := Extend(s, trace, a);
  }

  /** Nothing but the wait list, the waiters, the sweeper and the time differs. */
  predicate SameWorld(s: State, t: State) {
    && t.timeout == s.timeout && t.store == s.store && t.lock == s.lock && t.waiters.Keys == s.waiters.Keys
    && t.ready == s.ready && t.putters == s.putters && t.poller == s.poller && t.missed == s.missed
  }

  /** The time in t has not passed reading k. */
  ghost predicate NotPast(t: State, env: Readings, k: nat) {
    t.clock <= env.clock(k) && forall w | w in t.cancelled :: env.done(k, w)
  }

  lemma LaterNotPast(t: State, env: Readings, k: nat, l: nat)
    requires Monotone(env) && NotPast(t, env, k) && k <= l
    ensures NotPast(t, env, l)
  {
  }

  /** The state t at reading k, as far as the clock and the context of w go. */
  function AtReading(t: State, env: Readings, k: nat, w: WaiterId): State {
    t.(clock := env.clock(k), cancelled := if env.done(k, w) then t.cancelled + {w} else t.cancelled)
  }

  lemma ClockRuns(s: State, trace: seq<Action>, now: nat) returns (more: seq<Action>)
    requires Run(s, trace).Some? && OnlySweepAndTime(trace) && Run(s, trace).value.clock <= now
    ensures Run(s, more) == Some(Run(s, trace).value.(clock := now))
    ensures Log(s, more) == Log(s, trace) && OnlySweepAndTime(more)
  {
    var t := Run(s, trace).value;
    var tick := Outside(Advance(now - t.clock));
    assert Apply(t, tick) == t.(clock := now) && Fires(t, tick) == None;
    more := SweepExtend(s, trace, tick);
  }

  lemma ContextEnds(s: State, trace: seq<Action>, w: WaiterId) returns (more: seq<Action>)
    requires Run(s, trace).Some? && OnlySweepAndTime(trace)
    ensures var t := Run(s, trace).value;
      && Run(s, more) == Some(t.(cancelled := t.cancelled + {w}))
      && Log(s, more) == Log(s, trace) && OnlySweepAndTime(more)
  {
    more := SweepExtend(s, trace, Outside(CancelWaiter(w)));
  }

  /** Let the time pass until the reading. */
  lemma TimePasses(s: State, trace: seq<Action>, env: Readings, k: nat, w: WaiterId) returns (more: seq<Action>)
    requires Run(s, trace).Some? && OnlySweepAndTime(trace) && NotPast(Run(s, trace).value, env, k)
    ensures var t := Run(s, trace).value;
      && Run(s, more) == Some(AtReading(t, env, k, w))
      && NotPast(AtReading(t, env, k, w), env, k)
      && Log(s, more) == Log(s, trace) && OnlySweepAndTime(more)
  {
    more := ClockRuns(s, trace, env.clock(k));
    if env.done(k, w) {
      more := ContextEnds(s, more, w);
    }
  }

  // ----- one pass of the cleanup -----

  /** The sweeper stands before entry i of bucket c. */
  predicate StandsAt(s: State, todo: set<Cid>, c: Cid, es: seq<Entry>, i: nat) {
    s.sweeper == SweepAt(todo, c, i) && c in s.waitList && s.waitList[c] == es && Known(s, es)
  }

  lemma CheckDoes(t: State, env: Readings, todo: set<Cid>, c: Cid, es: seq<Entry>, i: nat, k: nat)
    requires StandsAt(t, todo, c, es, i) && i < |es| && NotPast(t, env, k)
    ensures var now := AtReading(t, env, k, es[i].waiter);
      var fate := Judge(env, t.timeout, es[i], k);
      && Enabled(now, Sweep(CheckEntry)) && Fires(now, Sweep(CheckEntry)) == None
      && Apply(now, Sweep(CheckEntry))
         == now.(sweeper := if fate.Kept? then SweepAt(todo, c, i + 1) else SweepDoomed(todo, c, i))
  {
  }

  lemma EvictDoes(t: State, todo: set<Cid>, c: Cid, es: seq<Entry>, i: nat)
    requires t.sweeper == SweepDoomed(todo, c, i) && c in t.waitList && t.waitList[c] == es && i < |es| && Known(t, es)
    ensures Enabled(t, Sweep(EvictEntry))
    ensures var u := Apply(t, Sweep(EvictEntry));
      && SameWorld(t, u) && u.sweeper == SweepAt(todo, c, i)
      && u.waitList == t.waitList[c := SwapDelete(es, i)]
      && Performed(Fires(t, Sweep(EvictEntry)))
         == if es[i].waiter in t.cancelled then [] else [Call(es[i].waiter, TimedOut)]
  {
  }

  /** Whatever the first check found, at its reading. */
  lemma CheckRuns(s: State, trace: seq<Action>, env: Readings, todo: set<Cid>, c: Cid, es: seq<Entry>, i: nat, k: nat)
    returns (more: seq<Action>)
    requires Run(s, trace).Some? && OnlySweepAndTime(trace)
    requires StandsAt(Run(s, trace).value, todo, c, es, i) && i < |es| && NotPast(Run(s, trace).value, env, k)
    ensures var t := Run(s, trace).value;
      var fate := Judge(env, t.timeout, es[i], k);
      && Run(s, more) == Some(AtReading(t, env, k, es[i].waiter).(
           sweeper := if fate.Kept? then SweepAt(todo, c, i + 1) else SweepDoomed(todo, c, i)))
      && NotPast(Run(s, more).value, env, k)
      && Log(s, more) == Log(s, trace) && OnlySweepAndTime(more)
  {
    var t := Run(s, trace).value;
    CheckDoes(t, env, todo, c, es, i, k);
    more := TimePasses(s, trace, env, k, es[i].waiter);
    more := SweepExtend(s, more, Sweep(CheckEntry));
  }

  /** The second check and the swap-delete, at the next reading. */
  lemma EvictRuns(s: State, trace: seq<Action>, env: Readings, todo: set<Cid>, c: Cid, es: seq<Entry>, i: nat, k: nat)
    returns (more: seq<Action>)
    requires Run(s, trace).Some? && OnlySweepAndTime(trace) && NotPast(Run(s, trace).value, env, k)
    requires var d := Run(s, trace).value;
      d.sweeper == SweepDoomed(todo, c, i) && c in d.waitList && d.waitList[c] == es && i < |es| && Known(d, es)
    ensures Run(s, more).Some? && OnlySweepAndTime(more)
    ensures var d, u := Run(s, trace).value, Run(s, more).value;
      && SameWorld(d, u) && NotPast(u, env, k)
      && StandsAt(u, todo, c, SwapDelete(es, i), i) && u.waitList == d.waitList[c := SwapDelete(es, i)]
      && Log(s, more) == Log(s, trace) + if env.done(k, es[i].waiter) then [] else [Call(es[i].waiter, TimedOut)]
  {
    var now := AtReading(Run(s, trace).value, env, k, es[i].waiter);
    more := TimePasses(s, trace, env, k, es[i].waiter);
    EvictDoes(now, todo, c, es, i);
    more := SweepExtend(s, more, Sweep(EvictEntry));
  }

  /** The reading after an entry was judged. */
  function Next(k: nat, fate: Fate): nat {
    if fate.Kept? then k + 1 else k + 2
  }

  /** The loop body for one entry. */
  lemma EntryRuns(s: State, trace: seq<Action>, env: Readings, todo: set<Cid>, c: Cid, es: seq<Entry>, i: nat, k: nat)
    returns (more: seq<Action>)
    requires Monotone(env) && Run(s, trace).Some? && OnlySweepAndTime(trace)
    requires StandsAt(Run(s, trace).value, todo, c, es, i) && i < |es| && NotPast(Run(s, trace).value, env, k)
    ensures Run(s, more).Some? && OnlySweepAndTime(more)
    ensures var t, u := Run(s, trace).value, Run(s, more).value;
      var fate := Judge(env, t.timeout, es[i], k);
      && SameWorld(t, u) && NotPast(u, env, Next(k, fate))
      && Log(s, more) == Log(s, trace) + Timeouts([Verdict(es[i], k, fate)])
      && (if fate.Kept? then StandsAt(u, todo, c, es, i + 1) && u.waitList == t.waitList
          else StandsAt(u, todo, c, SwapDelete(es, i), i) && u.waitList == t.waitList[c := SwapDelete(es, i)])
  {
    var fate := Judge(env, Run(s, trace).value.timeout, es[i], k);
    assert [Verdict(es[i], k, fate)][1..] == [];
    more := CheckRuns(s, trace, env, todo, c, es, i, k);
    LaterNotPast(Run(s, more).value, env, k, k + 1);
    if !fate.Kept? {
      more := EvictRuns(s, more, env, todo, c, es, i, k + 1);
      LaterNotPast(Run(s, more).value, env, k + 1, k + 2);
    }
  }

  /** Where the inner loop over bucket c is: the run so far, what was judged, what the
      bucket holds, the index and the reading. */
  datatype Place = Place(trace: seq<Action>, seen: seq<Verdict>, es: seq<Entry>, i: nat, k: nat)

  /** The loop, entered in state t with the calls of base made, has come to p. */
  ghost predicate Midway(s: State, t: State, env: Readings, base: seq<Call>, todo: set<Cid>, c: Cid,
          whole: BucketSweep, p: Place) {
    && Run(s, p.trace).Some? && OnlySweepAndTime(p.trace)
    && SameWorld(t, Run(s, p.trace).value) && StandsAt(Run(s, p.trace).value, todo, c, p.es, p.i)
    && NotPast(Run(s, p.trace).value, env, p.k)
    && p.i <= |p.es| && Run(s, p.trace).value.waitList == t.waitList[c := p.es]
    && Cursor(env, t.timeout, whole, p.seen, p.es, p.i, p.k)
    && Log(s, p.trace) == base + Timeouts(p.seen)
  }

  lemma MidwayMoves(s: State, t: State, env: Readings, base: seq<Call>, todo: set<Cid>, c: Cid, whole: BucketSweep,
          p: Place)
    returns (q: Place)
    requires Monotone(env) && Midway(s, t, env, base, todo, c, whole, p) && p.i < |p.es|
    ensures Midway(s, t, env, base, todo, c, whole, q) && |q.es| - q.i < |p.es| - p.i
  {
    CursorMoves(env, t.timeout, whole, p.seen, p.es, p.i, p.k);
    var v := Verdict(p.es[p.i], p.k, Judge(env, t.timeout, p.es[p.i], p.k));
    var more := EntryRuns(s, p.trace, env, todo, c, p.es, p.i, p.k);
    TimeoutsAppend(p.seen, v);
    Assoc(base, Timeouts(p.seen), Timeouts([v]));
    if v.fate.Kept? {
      q := Place(more, p.seen + [v], p.es, p.i + 1, p.k + 1);
    } else {
      UpdateTwice(t.waitList, c, p.es, SwapDelete(p.es, p.i));
      q := Place(more, p.seen + [v], SwapDelete(p.es, p.i), p.i, p.k + 2);
    }
  }

  /** The inner loop. */
  lemma BucketRuns(s: State, trace: seq<Action>, env: Readings, todo: set<Cid>, c: Cid, k: nat)
    returns (more: seq<Action>)
    requires Monotone(env) && Run(s, trace).Some? && OnlySweepAndTime(trace) && NotPast(Run(s, trace).value, env, k)
    requires var t := Run(s, trace).value; c in t.waitList && StandsAt(t, todo, c, t.waitList[c], 0)
    ensures Run(s, more).Some? && OnlySweepAndTime(more)
    ensures var t, u := Run(s, trace).value, Run(s, more).value;
      var b := SweepFrom(env, t.timeout, t.waitList[c], 0, k);
      && SameWorld(t, u) && NotPast(u, env, b.k)
      && StandsAt(u, todo, c, b.left, |b.left|) && u.waitList == t.waitList[c := b.left]
      && Log(s, more) == Log(s, trace) + Timeouts(b.verdicts)
  {
    var t := Run(s, trace).value;
    var whole := SweepFrom(env, t.timeout, t.waitList[c], 0, k);
    var p := Place(trace, [], t.waitList[c], 0, k);
    assert Log(s, trace) + [] == Log(s, trace);
    while p.i < |p.es|
      invariant Midway(s, t, env, Log(s, trace), todo, c, whole, p)
      decreases |p.es| - p.i
    {
      p := MidwayMoves(s, t, env, Log(s, trace), todo, c, whole, p);
    }
    CursorEnds(env, t.timeout, whole, p.seen, p.es, p.i, p.k);
    more := p.trace;
  }

  /** The sweeper is between two buckets, with these still to visit. */
  ghost predicate Between(s: State, todo: set<Cid>) {
    s.sweeper == SweepRange(todo) && todo <= s.waitList.Keys && AllKnown(s)
  }

  lemma PickDoes(t: State, todo: set<Cid>, c: Cid)
    requires Between(t, todo) && c in todo
    ensures Enabled(t, Sweep(PickBucket(c)))
    ensures Apply(t, Sweep(PickBucket(c))) == t.(sweeper := SweepAt(todo - {c}, c, 0))
    ensures Fires(t, Sweep(PickBucket(c))) == None
  {
  }

  lemma CloseDoes(t: State, u: State, todo: set<Cid>, c: Cid, left: seq<Entry>)
    requires SameWorld(t, u) && StandsAt(u, todo, c, left, |left|) && u.waitList == t.waitList[c := left]
    requires AllKnown(t) && todo <= t.waitList.Keys - {c}
    ensures Enabled(u, Sweep(CloseBucket)) && Fires(u, Sweep(CloseBucket)) == None
    ensures var v := Apply(u, Sweep(CloseBucket));
      SameWorld(t, v) && Between(v, todo) && v.waitList == PutBack(t.waitList, c, left)
  {
    WithoutUpdated(t.waitList, c, left);
    var v := Apply(u, Sweep(CloseBucket));
    forall d | d in v.waitList ensures Known(v, v.waitList[d]) {
      assert d != c ==> Known(t, t.waitList[d]);
    }
  }

  /** A round of the outer loop up to its end. */
  lemma VisitRuns(s: State, trace: seq<Action>, env: Readings, todo: set<Cid>, c: Cid, k: nat)
    returns (more: seq<Action>)
    requires Monotone(env) && Run(s, trace).Some? && OnlySweepAndTime(trace) && NotPast(Run(s, trace).value, env, k)
    requires Between(Run(s, trace).value, todo) && c in todo
    ensures Run(s, more).Some? && OnlySweepAndTime(more)
    ensures var t, u := Run(s, trace).value, Run(s, more).value;
      var b := SweepFrom(env, t.timeout, t.waitList[c], 0, k);
      && SameWorld(t, u) && NotPast(u, env, b.k) && StandsAt(u, todo - {c}, c, b.left, |b.left|)
      && u.waitList == t.waitList[c := b.left]
      && Log(s, more) == Log(s, trace) + Timeouts(b.verdicts)
  {
    var t := Run(s, trace).value;
    PickDoes(t, todo, c);
    var next := SweepExtend(s, trace, Sweep(PickBucket(c)));
    assert Log(s, next) == Log(s, trace);
    assert Known(t, t.waitList[c]);
    more := BucketRuns(s, next, env, todo - {c}, c, k);
  }

  /** One round of the outer loop. */
  lemma RoundRuns(s: State, trace: seq<Action>, env: Readings, todo: set<Cid>, c: Cid, k: nat)
    returns (more: seq<Action>)
    requires Monotone(env) && Run(s, trace).Some? && OnlySweepAndTime(trace) && NotPast(Run(s, trace).value, env, k)
    requires Between(Run(s, trace).value, todo) && c in todo
    ensures Run(s, more).Some? && OnlySweepAndTime(more)
    ensures var t, u := Run(s, trace).value, Run(s, more).value;
      var b := SweepFrom(env, t.timeout, t.waitList[c], 0, k);
      && SameWorld(t, u) && NotPast(u, env, b.k) && Between(u, todo - {c})
      && u.waitList == PutBack(t.waitList, c, b.left)
      && Log(s, more) == Log(s, trace) + Timeouts(b.verdicts)
  {
    var t := Run(s, trace).value;
    var visited := VisitRuns(s, trace, env, todo, c, k);
    CloseDoes(t, Run(s, visited).value, todo - {c}, c, SweepFrom(env, t.timeout, t.waitList[c], 0, k).left);
    more := SweepExtend(s, visited, Sweep(CloseBucket));
    assert Log(s, more) == Log(s, visited);
  }

  function Visited(order: seq<Cid>): set<Cid> {
    set c | c in order
  }

  lemma LastVisited(order: seq<Cid>, todo: set<Cid>)
    requires order != [] && NoRepeats(order) && forall c | c in order :: c in todo
    ensures var n := |order| - 1;
      && order[n] in todo - Visited(order[..n])
      && todo - Visited(order[..n]) - {order[n]} == todo - Visited(order)
      && NoRepeats(order[..n]) && forall c | c in order[..n] :: c in todo
  {
    var n := |order| - 1;
    assert forall d :: d in order <==> d in order[..n] || d == order[n];
  }

  /** The outer loop over the buckets in this order. */
  lemma {:induction false} RoundsRun(s: State, trace: seq<Action>, env: Readings, order: seq<Cid>, todo: set<Cid>)
    returns (more: seq<Action>)
    requires Monotone(env) && Run(s, trace).Some? && OnlySweepAndTime(trace) && NotPast(Run(s, trace).value, env, 0)
    requires Between(Run(s, trace).value, todo)
    requires NoRepeats(order) && forall c | c in order :: c in todo
    ensures Run(s, more).Some? && OnlySweepAndTime(more)
    ensures var t, u := Run(s, trace).value, Run(s, more).value;
      var r := SweepAll(env, t.timeout, t.waitList, order, 0);
      && SameWorld(t, u) && NotPast(u, env, r.k) && Between(u, todo - Visited(order))
      && u.waitList == r.left && Log(s, more) == Log(s, trace) + r.calls
  {
    var t := Run(s, trace).value;
    if order == [] {
      more := trace;
      assert todo - Visited(order) == todo && Log(s, trace) + [] == Log(s, trace);
    } else {
      var n := |order| - 1;
      var c := order[n];
      LastVisited(order, todo);
      more := RoundsRun(s, trace, env, order[..n], todo);
      var prior := SweepAll(env, t.timeout, t.waitList, order[..n], 0);
      more := RoundRuns(s, more, env, todo - Visited(order[..n]), c, prior.k);
      Assoc(Log(s, trace), prior.calls,
            Timeouts(SweepFrom(env, t.timeout, Bucket(prior.left, c), 0, prior.k).verdicts));
    }
  }

  lemma SweepBegins(s: State, env: Readings) returns (trace: seq<Action>)
    requires ListInv(s) && s.sweeper.SweepLock? && s.lock.Free? && NotPast(s, env, 0)
    ensures Run(s, trace) == Some(s.(sweeper := SweepRange(s.waitList.Keys), lock := HeldBySweeper))
    ensures OnlySweepAndTime(trace) && Log(s, trace) == []
    ensures Between(Run(s, trace).value, s.waitList.Keys) && NotPast(Run(s, trace).value, env, 0)
  {
    EntriesAreKnown(s);
    trace := SweepExtend(s, [], Sweep(LockSweeper));
    var t := s.(sweeper := SweepRange(s.waitList.Keys), lock := HeldBySweeper);
    forall c | c in t.waitList ensures Known(t, t.waitList[c]) {
      assert Known(s, s.waitList[c]);
    }
  }

  lemma SweepEnds(s: State, trace: seq<Action>) returns (more: seq<Action>)
    requires Run(s, trace).Some? && OnlySweepAndTime(trace) && Run(s, trace).value.sweeper == SweepRange({})
    ensures Run(s, more) == Some(Run(s, trace).value.(sweeper := SweepIdle, lock := Free))
    ensures OnlySweepAndTime(more) && Log(s, more) == Log(s, trace)
  {
    more := SweepExtend(s, trace, Sweep(UnlockSweeper));
  }

  /** For every visiting order and all monotone readings that do not start in the past,
      the interleaving model has a run of nothing but the sweep, the clock and
      cancellations that leaves the wait list and makes the calls that
      `BlockManager.Manager.Sweep` does. */
  lemma SweepIsASection(s: State, env: Readings, order: seq<Cid>) returns (trace: seq<Action>)
    requires Inv(s) && s.sweeper.SweepLock? && s.lock.Free? && Visits(order, s.waitList.Keys)
    requires Monotone(env) && NotPast(s, env, 0)
    ensures Run(s, trace).Some? && OnlySweepAndTime(trace)
    ensures var t := Run(s, trace).value;
      var r := SweepAll(env, s.timeout, s.waitList, order, 0);
      && SameWorld(s, t) && NotPast(t, env, r.k)
      && t.sweeper.SweepIdle? && t.waitList == r.left && Log(s, trace) == r.calls
  {
    var begun := SweepBegins(s, env);
    var swept := RoundsRun(s, begun, env, order, s.waitList.Keys);
    assert s.waitList.Keys - Visited(order) == {};
    var calls := SweepAll(env, s.timeout, s.waitList, order, 0).calls;
    assert [] + calls == calls;
    trace := SweepEnds(s, swept);
  }
}
