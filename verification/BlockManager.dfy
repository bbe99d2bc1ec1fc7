/** The manager's critical sections as the code runs them: a map of Go slices,
    updated in place. A slice is a backing array and a length; the array's length
    is the capacity. Each method refines the same operation on `WaitList` values
    that the interleaving model steps through. */
module BlockManager {
  import opened Common
  import opened WaitList
  import opened WaitProtocol
  import opened SweepSpec

  datatype Slice = Slice(arr: array<Entry>, len: nat) {
    ghost predicate Fits() {
      len <= arr.Length
    }

    /** The elements the slice shows. */
    ghost function View(): seq<Entry>
      requires Fits()
      reads arr
    {
      arr[..len]
    }
  }

  /** append with room to spare: write behind the last element. */
  method WriteBehind(s: Slice, e: Entry) returns (t: Slice)
    requires s.Fits() && s.len < s.arr.Length
    modifies s.arr
    ensures t.arr == s.arr && t.Fits() && t.View() == old(s.View()) + [e]
  {
    s.arr[s.len] := e;
    t := Slice(s.arr, s.len + 1);
  }

  /** append without room: copy into a new array with `spare` slots to grow. */
  method CopyBehind(s: Slice, e: Entry, spare: nat) returns (t: Slice)
    requires s.Fits()
    ensures fresh(t.arr) && t.Fits() && t.View() == s.View() + [e]
  {
    var arr := new Entry[s.len + 1 + spare](_ => e);
    forall i | 0 <= i < s.len {
      arr[i] := s.arr[i];
    }
    t := Slice(arr, s.len + 1);
  }

  /** Go's append: in place while there is capacity, else into a new array. */
  method AppendTo(s: Slice, e: Entry, spare: nat) returns (t: Slice)
    requires s.Fits()
    modifies s.arr
    ensures t.Fits() && t.View() == old(s.View()) + [e]
    ensures t.arr == s.arr || fresh(t.arr)
  {
    if s.len < s.arr.Length {
      t := WriteBehind(s, e);
    } else {
      t := CopyBehind(s, e, spare);
    }
  }

  /** Overwrite element i with the last one and drop the last. */
  method SwapDown(s: Slice, i: nat) returns (t: Slice)
    requires s.Fits() && i < s.len
    modifies s.arr
    ensures t.arr == s.arr && t.Fits() && t.View() == SwapDelete(old(s.View()), i)
  {
    s.arr[i] := s.arr[s.len - 1];
    t := Slice(s.arr, s.len - 1);
    assert t.View() == SwapDelete(old(s.View()), i);
  }

  lemma OneMoreJudged(calls: seq<Call>, seen: seq<Verdict>, more: seq<Verdict>)
    requires |more| > 0 && more[..|more| - 1] == seen
    ensures calls + Timeouts(more) == calls + Timeouts(seen) + Timeouts([more[|more| - 1]])
  {
    assert more == seen + [more[|more| - 1]];
    TimeoutsAppend(seen, more[|more| - 1]);
    Assoc(calls, Timeouts(seen), Timeouts([more[|more| - 1]]));
  }

  lemma UpdatedElsewhere<K, V>(m: map<K, V>, k: K, v: V)
    ensures m[k := v] - {k} == m - {k}
  {
  }

  /** A map that agrees with another but at k. */
  lemma OnlyAt<K, V>(m: map<K, V>, n: map<K, V>, k: K)
    requires k in m && m - {k} == n - {k}
    ensures m == n[k := m[k]]
  {
    assert forall j | j != k :: (j in m <==> j in m - {k}) && (j in n <==> j in n - {k});
    assert forall j | j in m - {k} :: m[j] == (m - {k})[j] && n[j] == (n - {k})[j];
  }

  lemma SplitMoves<T>(visited: set<T>, todo: set<T>, c: T)
    requires visited !! todo && c in todo
    ensures visited + {c} !! todo - {c} && visited + {c} + (todo - {c}) == visited + todo
  {
  }

  lemma PutBackKeys(wl: Buckets, c: Cid, left: seq<Entry>)
    ensures wl.Keys - {c} <= PutBack(wl, c, left).Keys
  {
  }

  /** What notifyWaitCallbacks invokes, in order. */
  function Announcements(es: seq<Entry>, b: Block): seq<Call> {
    seq(|es|, i requires 0 <= i < |es| => Call(es[i].waiter, Arrived(b)))
  }

  class Manager {
    const timeout: nat
    var waitList: map<Cid, Slice>
    /** The callback invocations so far. */
    var calls: seq<Call>
    /** The value of the wait list. */
    ghost var Contents: Buckets

    ghost function Arrays(): set<array<Entry>>
      reads this
    {
      set c | c in waitList :: waitList[c].arr
    }

    /** Slices show the contents, and no two CIDs share a backing array. */
    ghost predicate Valid()
      reads this, Arrays()
    {
      && waitList.Keys == Contents.Keys
      && (forall c | c in waitList :: waitList[c].Fits() && waitList[c].View() == Contents[c])
      && (forall c, d | c in waitList && d in waitList && c != d :: waitList[c].arr != waitList[d].arr)
    }

    constructor (timeout: nat)
      ensures Valid() && Contents == map[] && calls == [] && this.timeout == timeout
    {
      this.timeout := timeout;
      waitList := map[];
      calls := [];
      Contents := map[];
    }

    /** Append to the bucket of c; a missing key reads as the nil slice. */
    method Append(c: Cid, e: Entry, spare: nat)
      requires Valid()
      modifies this`waitList, this`Contents, Arrays()
      ensures Valid()
      ensures Contents == WaitList.Append(old(Contents), c, e)
      ensures fresh(Arrays() - old(Arrays()))
    {
      var s;
      if c in waitList {
        s := waitList[c];
      } else {
        var none := new Entry[0];
        s := Slice(none, 0);
      }
      assert s.View() == Bucket(Contents, c);
      var t := AppendTo(s, e, spare);
      waitList := waitList[c := t];
      Contents := WaitList.Append(Contents, c, e);
    }

    /** The notifier's lock section: hand the whole bucket over. */
    method Take(c: Cid) returns (taken: Option<Slice>)
      requires Valid()
      modifies this`waitList, this`Contents
      ensures Valid()
      ensures Contents == Without(old(Contents), c)
      ensures taken.Some? <==> c in old(waitList)
      ensures taken.Some? ==> taken.value == old(waitList[c]) && taken.value.arr !in Arrays()
      ensures Arrays() <= old(Arrays())
    {
      if c in waitList {
        taken := Some(waitList[c]);
        waitList := map d | d in waitList && d != c :: waitList[d];
      } else {
        taken := None;
      }
      Contents := Without(Contents, c);
    }

    /** notifyWaitCallbacks: every entry of the bucket is called once, in order. */
    method Notify(b: Block)
      requires Valid()
      modifies this`waitList, this`Contents, this`calls
      ensures Valid()
      ensures Contents == Without(old(Contents), b.cid)
      ensures calls == old(calls) + Announcements(Bucket(old(Contents), b.cid), b)
      ensures Arrays() <= old(Arrays())
    {
      ghost var es := Bucket(Contents, b.cid);
      var taken := Take(b.cid);
      if taken.Some? {
        var i := 0;
        while i < taken.value.len
          modifies this`calls
          invariant 0 <= i <= taken.value.len == |es|
          invariant calls == old(calls) + Announcements(es[..i], b)
        {
          calls := calls + [Call(taken.value.arr[i].waiter, Arrived(b))];
          i := i + 1;
          assert Announcements(es[..i], b) == Announcements(es[..i - 1], b) + [Call(es[i - 1].waiter, Arrived(b))];
        }
        assert es[..i] == es;
      }
    }

    /** AwaitBlock by caller w, given what GetSize answered under the lock. */
    method AwaitBlock(w: WaiterId, c: Cid, seen: Lookup, now: nat, spare: nat) returns (found: bool)
      requires Valid()
      modifies this, Arrays()
      ensures Valid()
      ensures found <==> seen.Present?
      ensures Contents == if seen.Absent? then WaitList.Append(old(Contents), c, Entry(w, now)) else old(Contents)
      ensures seen.Absent? ==> calls == old(calls)
      ensures !seen.Absent? ==>
        calls == old(calls) + [Call(w, if found then Arrived(Block(c, seen.size)) else LoadError)]
      ensures fresh(Arrays() - old(Arrays()))
    {
      match seen
      case Absent =>
        Append(c, Entry(w, now), spare);
        found := false;
      case Fault =>
        calls := calls + [Call(w, LoadError)];
        found := false;
      case Present(size) =>
        calls := calls + [Call(w, Arrived(Block(c, size)))];
        found := true;
    }

    /** Bucket c is being swept: its backing array stays, the others are untouched. */
    twostate predicate InBucket(c: Cid, es: seq<Entry>)
      reads this
    {
      && c in old(waitList) && c in waitList && waitList[c].arr == old(waitList)[c].arr
      && c in Contents && Contents[c] == es
      && waitList - {c} == old(waitList) - {c}
      && Contents - {c} == old(Contents) - {c}
    }

    /** Delete entry i of bucket c by overwriting it with the last one. */
    method Evict(c: Cid, i: nat)
      requires Valid() && c in waitList && i < waitList[c].len
      modifies this`waitList, this`Contents, waitList[c].arr
      ensures Valid() && InBucket(c, SwapDelete(old(Contents)[c], i))
    {
      var t := SwapDown(waitList[c], i);
      UpdatedElsewhere(Contents, c, SwapDelete(Contents[c], i));
      UpdatedElsewhere(waitList, c, t);
      Contents := Contents[c := SwapDelete(Contents[c], i)];
      waitList := waitList[c := t];
    }

    /** The loop body for entry i, with the first check at reading k and, if that
        fails, a second look at the context at the next one. */
    method SweepEntry(env: Readings, c: Cid, i: nat, k: nat) returns (fate: Fate)
      requires Valid() && c in waitList && i < waitList[c].len
      modifies this`waitList, this`Contents, this`calls, waitList[c].arr
      ensures fate == Judge(env, timeout, old(Contents)[c][i], k)
      ensures Valid() && InBucket(c, if fate.Kept? then old(Contents)[c] else SwapDelete(old(Contents)[c], i))
      ensures calls == old(calls) + Timeouts([Verdict(old(Contents)[c][i], k, fate)])
    {
      var e := waitList[c].arr[i];
      assert e == Contents[c][i];
      fate := Kept;
      if env.done(k, e.waiter) || env.clock(k) - e.registeredAt > timeout {
        fate := DroppedSilently;
        if !env.done(k + 1, e.waiter) {
          fate := ReportedTimeout;
          calls := calls + [Call(e.waiter, TimedOut)];
        }
        Evict(c, i);
      }
      assert [Verdict(e, k, fate)][1..] == [];
    }

    /** The loop body at index i and reading k; j is the index before it is stepped on. */
    method SweepTurn(env: Readings, c: Cid, i: nat, k: nat, ghost whole: BucketSweep, ghost seen: seq<Verdict>)
      returns (j: int, next: nat, ghost more: seq<Verdict>)
      requires Valid() && c in waitList && i < waitList[c].len
      requires Cursor(env, timeout, whole, seen, Contents[c], i, k)
      modifies this`waitList, this`Contents, this`calls, waitList[c].arr
      ensures Valid() && c in Contents && InBucket(c, Contents[c])
      ensures 0 <= j + 1 <= |Contents[c]| && |Contents[c]| - (j + 1) < |old(Contents)[c]| - i
      ensures Cursor(env, timeout, whole, more, Contents[c], j + 1, next)
      ensures |more| > 0 && more[..|more| - 1] == seen && calls == old(calls) + Timeouts([more[|more| - 1]])
    {
      CursorMoves(env, timeout, whole, seen, Contents[c], i, k);
      var fate := SweepEntry(env, c, i, k);
      more := seen + [Verdict(old(Contents)[c][i], k, fate)];
      j, next := i, k + 1;
      if !fate.Kept? {
        j, next := j - 1, next + 1;
      }
    }

    /** The sweep's inner loop over bucket c; k is the next reading. */
    method SweepBucket(env: Readings, c: Cid, k: nat) returns (next: nat)
      requires Valid() && c in waitList
      modifies this`waitList, this`Contents, this`calls, waitList[c].arr
      ensures Valid()
      ensures var b := SweepFrom(env, timeout, old(Contents)[c], 0, k);
        InBucket(c, b.left) && next == b.k && calls == old(calls) + Timeouts(b.verdicts)
    {
      ghost var whole := SweepFrom(env, timeout, Contents[c], 0, k);
      ghost var seen: seq<Verdict> := [];
      var i: int := 0;
      next := k;
      while i < waitList[c].len
        invariant Valid() && c in Contents && InBucket(c, Contents[c]) && 0 <= i <= |Contents[c]|
        invariant Cursor(env, timeout, whole, seen, Contents[c], i, next)
        invariant calls == old(calls) + Timeouts(seen)
        decreases |Contents[c]| - i
      {
        ghost var judged := seen;
        i, next, seen := SweepTurn(env, c, i, next, whole, seen);
        OneMoreJudged(old(calls), judged, seen);
        i := i + 1;
      }
      CursorEnds(env, timeout, whole, seen, Contents[c], i, next);
    }

    /** Remove bucket c from the map if it is empty. */
    method Close(c: Cid)
      requires Valid() && c in waitList
      modifies this`waitList, this`Contents
      ensures Valid()
      ensures Contents == if old(Contents)[c] == [] then Without(old(Contents), c) else old(Contents)
      ensures Arrays() <= old(Arrays())
    {
      assert waitList[c].View() == Contents[c];
      if waitList[c].len == 0 {
        var taken := Take(c);
      }
    }

    /** Sweep bucket c and remove it from the map if nothing is left of it. */
    method SweepAndClose(env: Readings, c: Cid, k: nat) returns (next: nat)
      requires Valid() && c in waitList
      modifies this`waitList, this`Contents, this`calls, Arrays()
      ensures Valid()
      ensures var b := SweepFrom(env, timeout, old(Contents)[c], 0, k);
        Contents == PutBack(old(Contents), c, b.left) && next == b.k && calls == old(calls) + Timeouts(b.verdicts)
      ensures Arrays() <= old(Arrays())
    {
      next := SweepBucket(env, c, k);
      OnlyAt(Contents, old(Contents), c);
      OnlyAt(waitList, old(waitList), c);
      WithoutUpdated(old(Contents), c, Contents[c]);
      assert Arrays() <= old(Arrays());
      Close(c);
    }

    /** One pass of startPollCleanup, over the buckets in some order. */
    method Sweep(env: Readings) returns (order: seq<Cid>, next: nat)
      requires Valid()
      modifies this`waitList, this`Contents, this`calls, Arrays()
      ensures Valid() && Visits(order, old(Contents).Keys)
      ensures var r := SweepAll(env, timeout, old(Contents), order, 0);
        next == r.k && Contents == r.left && calls == old(calls) + r.calls
      ensures Arrays() <= old(Arrays())
    {
      order, next := [], 0;
      var todo := waitList.Keys;
      ghost var visited: set<Cid> := {};
      while todo != {}
        invariant Valid() && Arrays() <= old(Arrays())
        invariant visited !! todo && visited + todo == old(Contents).Keys && Visits(order, visited)
        invariant todo <= Contents.Keys
        invariant var r := SweepAll(env, timeout, old(Contents), order, 0);
          next == r.k && Contents == r.left && calls == old(calls) + r.calls
        decreases todo
      {
        var c :| c in todo;
        PutBackKeys(Contents, c, SweepFrom(env, timeout, Contents[c], 0, next).left);
        ghost var made := SweepAll(env, timeout, old(Contents), order, 0).calls;
        ghost var now := Timeouts(SweepFrom(env, timeout, Contents[c], 0, next).verdicts);
        SweepAllGrows(env, timeout, old(Contents), order, c, 0);
        VisitsGrows(order, visited, c);
        next := SweepAndClose(env, c, next);
        Assoc(old(calls), made, now);
        SplitMoves(visited, todo, c);
        order, todo, visited := order + [c], todo - {c}, visited + {c};
      }
    }
  }

  /** A lock section some other goroutine may run. */
  datatype Section =
    | AwaitSection(w: WaiterId, c: Cid, seen: Lookup, now: nat, spare: nat)
    | NotifySection(b: Block)
    | SweepSection(env: Readings)

  /** The slice the notifier iterates without the lock is never written again:
      whatever other goroutines do to the manager afterwards, in any number of
      lock sections, it still shows the bucket as it was taken. */
  method TakenSliceIsStable(m: Manager, c: Cid, later: seq<Section>) returns (taken: Option<Slice>)
    requires m.Valid()
    modifies m, m.Arrays()
    ensures m.Valid()
    ensures taken.Some? <==> c in old(m.Contents)
    ensures taken.Some? ==> taken.value.Fits() && taken.value.View() == old(m.Contents)[c]
  {
    taken := m.Take(c);
    ghost var arrays := m.Arrays();
    for n := 0 to |later|
      invariant m.Valid() && fresh(m.Arrays() - arrays)
      invariant taken.Some? ==> taken.value.arr !in m.Arrays() && taken.value.View() == old(m.Contents)[c]
    {
      match later[n]
      case AwaitSection(w, d, seen, now, spare) => var found := m.AwaitBlock(w, d, seen, now, spare);
      case NotifySection(b) => m.Notify(b);
      case SweepSection(env) => var order, next := m.Sweep(env);
    }
  }
}
