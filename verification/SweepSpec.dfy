/** One pass of the cleanup over the wait list, as a function. While the sweep
    holds the lock, the clock and the waiters' contexts go on changing, so every
    check of an entry is a fresh reading of both. */
module SweepSpec {
  import opened Common
  import opened WaitList
  import opened WaitProtocol

  /** What the k-th reading sees: the time, and which contexts are done. */
  datatype Readings = Readings(clock: nat -> nat, done: (nat, WaiterId) -> bool)

  /** Time does not go back and a done context stays done. */
  ghost predicate Monotone(env: Readings) {
    && (forall i, j | i <= j :: env.clock(i) <= env.clock(j))
    && (forall i, j, w | i <= j && env.done(i, w) :: env.done(j, w))
  }

  /** The first check of an entry. */
  predicate Stale(env: Readings, timeout: nat, e: Entry, k: nat) {
    env.done(k, e.waiter) || env.clock(k) - e.registeredAt > timeout
  }

  datatype Fate = Kept | ReportedTimeout | DroppedSilently

  /** Entry e, first checked at reading k. */
  datatype Verdict = Verdict(entry: Entry, k: nat, fate: Fate)

  datatype BucketSweep = BucketSweep(left: seq<Entry>, verdicts: seq<Verdict>, k: nat)

  /** Both checks of an entry: the second one, at the next reading, decides
      between a timeout report and a silent drop. */
  function Judge(env: Readings, timeout: nat, e: Entry, k: nat): Fate {
    if !Stale(env, timeout, e, k) then Kept
    else if env.done(k + 1, e.waiter) then DroppedSilently
    else ReportedTimeout
  }

  /** The inner loop from index i and reading k on. */
  function SweepFrom(env: Readings, timeout: nat, es: seq<Entry>, i: nat, k: nat): BucketSweep
    decreases |es| - i
  {
    if i >= |es| then BucketSweep(es, [], k)
    else
      var v := Verdict(es[i], k, Judge(env, timeout, es[i], k));
      var rest := if v.fate.Kept? then SweepFrom(env, timeout, es, i + 1, k + 1)
                  else SweepFrom(env, timeout, SwapDelete(es, i), i, k + 2);
      BucketSweep(rest.left, [v] + rest.verdicts, rest.k)
  }

  /** The loop has judged `seen` and stands at index i of es, at reading k. */
  ghost predicate Cursor(env: Readings, timeout: nat, whole: BucketSweep, seen: seq<Verdict>, es: seq<Entry>, i: nat,
          k: nat) {
    var rest := SweepFrom(env, timeout, es, i, k);
    whole == BucketSweep(rest.left, seen + rest.verdicts, rest.k)
  }

  lemma CursorMoves(env: Readings, timeout: nat, whole: BucketSweep, seen: seq<Verdict>, es: seq<Entry>, i: nat, k: nat)
    requires i < |es| && Cursor(env, timeout, whole, seen, es, i, k)
    ensures var v := Verdict(es[i], k, Judge(env, timeout, es[i], k));
      var kept := v.fate.Kept?;
      Cursor(env, timeout, whole, seen + [v], if kept then es else SwapDelete(es, i),
             if kept then i + 1 else i, if kept then k + 1 else k + 2)
  {
    var v := Verdict(es[i], k, Judge(env, timeout, es[i], k));
    var rest := SweepFrom(env, timeout, es, i, k);
    assert seen + rest.verdicts == (seen + [v]) + rest.verdicts[1..];
  }

  lemma CursorEnds(env: Readings, timeout: nat, whole: BucketSweep, seen: seq<Verdict>, es: seq<Entry>, i: nat, k: nat)
    requires i >= |es| && Cursor(env, timeout, whole, seen, es, i, k)
    ensures whole == BucketSweep(es, seen, k)
  {
    assert seen + [] == seen;
  }

  function Only(e: Entry, b: bool): multiset<Entry> {
    if b then multiset{e} else multiset{}
  }

  /** The entries that got a verdict. */
  function Examined(vs: seq<Verdict>): multiset<Entry> {
    if vs == [] then multiset{} else multiset{vs[0].entry} + Examined(vs[1..])
  }

  function WithFate(vs: seq<Verdict>, fate: Fate): multiset<Entry> {
    if vs == [] then multiset{} else Only(vs[0].entry, vs[0].fate == fate) + WithFate(vs[1..], fate)
  }

  /** The callbacks the sweep makes, in order. */
  function Timeouts(vs: seq<Verdict>): seq<Call> {
    if vs == [] then []
    else (if vs[0].fate.ReportedTimeout? then [Call(vs[0].entry.waiter, TimedOut)] else []) + Timeouts(vs[1..])
  }

  lemma {:induction false} TimeoutsAppend(vs: seq<Verdict>, v: Verdict)
    ensures Timeouts(vs + [v]) == Timeouts(vs) + Timeouts([v])
  {
    if vs == [] {
      assert [] + [v] == [v];
    } else {
      assert (vs + [v])[1..] == vs[1..] + [v];
      TimeoutsAppend(vs[1..], v);
    }
  }

  lemma DropOne(es: seq<Entry>, i: nat)
    requires i < |es|
    ensures multiset(es[i..]) == multiset{es[i]} + multiset(es[i + 1..])
    ensures multiset(es[..i + 1]) == multiset(es[..i]) + multiset{es[i]}
  {
    assert es[i..] == [es[i]] + es[i + 1..];
    assert es[..i + 1] == es[..i] + [es[i]];
  }

  lemma DropSwapped(es: seq<Entry>, i: nat)
    requires i < |es|
    ensures multiset(es[i..]) == multiset{es[i]} + multiset(SwapDelete(es, i)[i..])
    ensures SwapDelete(es, i)[..i] == es[..i]
  {
    var shorter, last := SwapDelete(es, i), |es| - 1;
    assert shorter[..i] == es[..i];
    if i == last {
      assert shorter[i..] == [] && es[i..] == [es[i]];
    } else {
      assert shorter[i..] == [es[last]] + es[i + 1..last];
      assert es[i..] == [es[i]] + (es[i + 1..last] + [es[last]]);
    }
  }

  /** Each entry is examined exactly once, whatever the reordering. */
  lemma {:induction false} SweepExamines(env: Readings, timeout: nat, es: seq<Entry>, i: nat, k: nat)
    requires i <= |es|
    ensures Examined(SweepFrom(env, timeout, es, i, k).verdicts) == multiset(es[i..])
    decreases |es| - i
  {
    if i < |es| {
      var vs := SweepFrom(env, timeout, es, i, k).verdicts;
      if !Stale(env, timeout, es[i], k) {
        SweepExamines(env, timeout, es, i + 1, k + 1);
        DropOne(es, i);
        assert vs[1..] == SweepFrom(env, timeout, es, i + 1, k + 1).verdicts;
      } else {
        SweepExamines(env, timeout, SwapDelete(es, i), i, k + 2);
        DropSwapped(es, i);
        assert vs[1..] == SweepFrom(env, timeout, SwapDelete(es, i), i, k + 2).verdicts;
      }
    }
  }

  /** What is left is what stood before i and what was kept from i on. */
  lemma {:induction false} SweepKeeps(env: Readings, timeout: nat, es: seq<Entry>, i: nat, k: nat)
    requires i <= |es|
    ensures var r := SweepFrom(env, timeout, es, i, k);
      multiset(r.left) == multiset(es[..i]) + WithFate(r.verdicts, Kept)
    decreases |es| - i
  {
    if i == |es| {
      assert es[..i] == es;
    } else {
      var vs := SweepFrom(env, timeout, es, i, k).verdicts;
      if !Stale(env, timeout, es[i], k) {
        SweepKeeps(env, timeout, es, i + 1, k + 1);
        DropOne(es, i);
        assert vs[1..] == SweepFrom(env, timeout, es, i + 1, k + 1).verdicts;
      } else {
        SweepKeeps(env, timeout, SwapDelete(es, i), i, k + 2);
        DropSwapped(es, i);
        assert vs[1..] == SweepFrom(env, timeout, SwapDelete(es, i), i, k + 2).verdicts;
      }
    }
  }

  lemma {:induction false} FatesPartition(vs: seq<Verdict>)
    ensures Examined(vs) == WithFate(vs, Kept) + WithFate(vs, ReportedTimeout) + WithFate(vs, DroppedSilently)
  {
    if vs != [] {
      FatesPartition(vs[1..]);
    }
  }

  lemma VisitsGrows(order: seq<Cid>, keys: set<Cid>, c: Cid)
    requires Visits(order, keys) && c !in keys
    ensures Visits(order + [c], keys + {c})
  {
    assert forall d :: d in order + [c] <==> d in order || d == c;
  }

  /** What one verdict promises about the readings between k0 and k1. */
  ghost predicate Justified(env: Readings, timeout: nat, v: Verdict, k0: nat, k1: nat) {
    && k0 <= v.k < k1
    && (v.fate.Kept? ==> !Stale(env, timeout, v.entry, v.k))
    && (v.fate.ReportedTimeout? ==>
          v.k + 1 < k1 && env.clock(v.k) - v.entry.registeredAt > timeout && !env.done(v.k + 1, v.entry.waiter))
    && (v.fate.DroppedSilently? ==>
          v.k + 1 < k1 && Stale(env, timeout, v.entry, v.k) && env.done(v.k + 1, v.entry.waiter))
  }

  lemma {:induction false} VerdictsJustified(env: Readings, timeout: nat, es: seq<Entry>, i: nat, k: nat)
    requires Monotone(env) && i <= |es|
    ensures var r := SweepFrom(env, timeout, es, i, k);
      k <= r.k && forall v | v in r.verdicts :: Justified(env, timeout, v, k, r.k)
    decreases |es| - i
  {
    if i < |es| {
      if !Stale(env, timeout, es[i], k) {
        VerdictsJustified(env, timeout, es, i + 1, k + 1);
      } else {
        VerdictsJustified(env, timeout, SwapDelete(es, i), i, k + 2);
      }
    }
  }

  // ----- all buckets -----

  /** Put what a sweep left of bucket c back; an empty bucket leaves the map. */
  function PutBack(wl: Buckets, c: Cid, left: seq<Entry>): Buckets {
    if left == [] then Without(wl, c) else wl[c := left]
  }

  lemma WithoutUpdated(wl: Buckets, c: Cid, es: seq<Entry>)
    ensures Without(wl[c := es], c) == Without(wl, c)
  {
  }

  datatype ListSweep = ListSweep(left: Buckets, reports: map<Cid, BucketSweep>, starts: map<Cid, nat>,
          calls: seq<Call>, k: nat)

  /** The outer loop, visiting the buckets in the given order. */
  function SweepAll(env: Readings, timeout: nat, wl: Buckets, order: seq<Cid>, k: nat): ListSweep {
    if order == [] then ListSweep(wl, map[], map[], [], k)
    else
      var c := order[|order| - 1];
      var prior := SweepAll(env, timeout, wl, order[..|order| - 1], k);
      var b := SweepFrom(env, timeout, Bucket(prior.left, c), 0, prior.k);
      ListSweep(PutBack(prior.left, c, b.left), prior.reports[c := b], prior.starts[c := prior.k],
                prior.calls + Timeouts(b.verdicts), b.k)
  }

  lemma SweepAllGrows(env: Readings, timeout: nat, wl: Buckets, order: seq<Cid>, c: Cid, k: nat)
    ensures var prior := SweepAll(env, timeout, wl, order, k);
      var b := SweepFrom(env, timeout, Bucket(prior.left, c), 0, prior.k);
      var r := SweepAll(env, timeout, wl, order + [c], k);
      r.left == PutBack(prior.left, c, b.left) && r.calls == prior.calls + Timeouts(b.verdicts) && r.k == b.k
  {
    assert (order + [c])[..|order|] == order;
  }

  /** Go's map iteration: every key once, in any order. */
  ghost predicate Visits(order: seq<Cid>, keys: set<Cid>) {
    && NoRepeats(order)
    && (forall c :: c in order <==> c in keys)
  }

  /** Visited buckets hold what their sweep left, the others are as before, and a
      visited bucket that became empty is gone. */
  lemma {:induction false} SweepAllLeaves(env: Readings, timeout: nat, wl: Buckets, order: seq<Cid>, k: nat, c: Cid)
    requires forall d | d in order :: d in wl
    ensures var r := SweepAll(env, timeout, wl, order, k);
      && (c in r.reports <==> c in order)
      && Bucket(r.left, c) == (if c in r.reports then r.reports[c].left else Bucket(wl, c))
      && (c in r.left ==> c in wl && (c in r.reports ==> r.left[c] != []))
  {
    if order != [] {
      var n := |order| - 1;
      assert order == order[..n] + [order[n]];
      SweepAllLeaves(env, timeout, wl, order[..n], k, c);
    }
  }

  /** Each visited bucket is swept from its own contents, within the readings of
      the whole sweep. */
  lemma {:induction false} SweepAllReports(env: Readings, timeout: nat, wl: Buckets, order: seq<Cid>, k: nat)
    requires Monotone(env) && NoRepeats(order) && (forall c | c in order :: c in wl)
    ensures var r := SweepAll(env, timeout, wl, order, k);
      && k <= r.k
      && (forall c | c in r.reports ::
            && c in r.starts && k <= r.starts[c] && r.reports[c].k <= r.k
            && r.reports[c] == SweepFrom(env, timeout, Bucket(wl, c), 0, r.starts[c]))
  {
    if order != [] {
      var n := |order| - 1;
      var c := order[n];
      var prior := SweepAll(env, timeout, wl, order[..n], k);
      SweepAllReports(env, timeout, wl, order[..n], k);
      SweepAllLeaves(env, timeout, wl, order[..n], k, c);
      VerdictsJustified(env, timeout, Bucket(prior.left, c), 0, prior.k);
    }
  }

  /** A verdict of a sweep that ran from reading k0 to reading k1: what was expired
      or cancelled at its start is removed, what is live at its end is kept, a
      timeout goes only to an expired entry whose context is live at the second
      check, and only a cancelled entry is dropped silently. */
  ghost predicate Exact(env: Readings, timeout: nat, v: Verdict, k0: nat, k1: nat) {
    && (env.done(k0, v.entry.waiter) || env.clock(k0) - v.entry.registeredAt > timeout ==> !v.fate.Kept?)
    && (!env.done(k1, v.entry.waiter) && env.clock(k1) - v.entry.registeredAt <= timeout ==> v.fate.Kept?)
    && (v.fate.ReportedTimeout? ==>
          env.clock(v.k) - v.entry.registeredAt > timeout && !env.done(v.k + 1, v.entry.waiter))
    && (v.fate.DroppedSilently? ==> env.done(v.k + 1, v.entry.waiter))
  }

  lemma BucketIsExact(env: Readings, timeout: nat, es: seq<Entry>, start: nat, k0: nat, k1: nat)
    requires Monotone(env) && k0 <= start && SweepFrom(env, timeout, es, 0, start).k <= k1
    ensures forall v | v in SweepFrom(env, timeout, es, 0, start).verdicts :: Exact(env, timeout, v, k0, k1)
  {
    var r := SweepFrom(env, timeout, es, 0, start);
    VerdictsJustified(env, timeout, es, 0, start);
    forall v | v in r.verdicts ensures Exact(env, timeout, v, k0, k1) {
      assert Justified(env, timeout, v, start, r.k);
      assert k0 <= v.k <= k1;
    }
  }

  lemma BucketConserves(env: Readings, timeout: nat, es: seq<Entry>, start: nat)
    ensures var r := SweepFrom(env, timeout, es, 0, start);
      && Examined(r.verdicts) == multiset(es)
      && multiset(r.left) == WithFate(r.verdicts, Kept)
      && multiset(es)
         == multiset(r.left) + WithFate(r.verdicts, ReportedTimeout) + WithFate(r.verdicts, DroppedSilently)
  {
    SweepExamines(env, timeout, es, 0, start);
    SweepKeeps(env, timeout, es, 0, start);
    FatesPartition(SweepFrom(env, timeout, es, 0, start).verdicts);
    assert es[0..] == es && es[..0] == [];
  }

  /** The whole sweep, for every iteration order and every monotone environment:
      each entry of each bucket gets exactly one verdict, an exact one; the
      survivors are the kept entries; old = survivors + timed out + dropped; and no
      empty bucket remains. */
  lemma SweepIsExact(env: Readings, timeout: nat, wl: Buckets, order: seq<Cid>, k: nat, c: Cid)
    requires Monotone(env) && Visits(order, wl.Keys)
    ensures var r := SweepAll(env, timeout, wl, order, k);
      && (c in wl <==> c in r.reports)
      && (c in r.left ==> c in wl && r.left[c] != [])
      && (c in wl ==>
            var vs := r.reports[c].verdicts;
            && Examined(vs) == multiset(wl[c])
            && multiset(Bucket(r.left, c)) == WithFate(vs, Kept)
            && multiset(wl[c])
               == multiset(Bucket(r.left, c)) + WithFate(vs, ReportedTimeout) + WithFate(vs, DroppedSilently)
            && forall v | v in vs :: Exact(env, timeout, v, k, r.k))
  {
    var r := SweepAll(env, timeout, wl, order, k);
    SweepAllReports(env, timeout, wl, order, k);
    SweepAllLeaves(env, timeout, wl, order, k, c);
    if c in wl {
      BucketConserves(env, timeout, wl[c], r.starts[c]);
      BucketIsExact(env, timeout, wl[c], r.starts[c], k, r.k);
    }
  }
}
