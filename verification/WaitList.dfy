/** The value of the manager's wait list: for every CID, the waiters registered
    for it, in slice order. The protocol, the heap model and the sweep all use
    these operations. */
module WaitList {
  import opened Common

  type WaiterId = nat

  /** One registered waiter; its context and callback are known by its id. */
  datatype Entry = Entry(waiter: WaiterId, registeredAt: nat)

  type Buckets = map<Cid, seq<Entry>>

  /** Reading a missing key of a Go map gives the nil slice. */
  function Bucket(wl: Buckets, c: Cid): seq<Entry> {
    if c in wl then wl[c] else []
  }

  function Append(wl: Buckets, c: Cid, e: Entry): Buckets {
    wl[c := Bucket(wl, c) + [e]]
  }

  function Without(wl: Buckets, c: Cid): Buckets {
    map d | d in wl && d != c :: wl[d]
  }

  /** Overwrite position i with the last element, then drop the last element. */
  function SwapDelete(es: seq<Entry>, i: nat): (r: seq<Entry>)
    requires i < |es|
    ensures |r| == |es| - 1
  {
    es[i := es[|es| - 1]][..|es| - 1]
  }

  ghost function WaitersOf(es: seq<Entry>): set<WaiterId> {
    set e | e in es :: e.waiter
  }

  ghost predicate DistinctWaiters(es: seq<Entry>) {
    forall i, j | 0 <= i < j < |es| :: es[i].waiter != es[j].waiter
  }

  lemma AppendWaiters(es: seq<Entry>, e: Entry)
    ensures WaitersOf(es + [e]) == WaitersOf(es) + {e.waiter}
    ensures DistinctWaiters(es) && e.waiter !in WaitersOf(es) ==> DistinctWaiters(es + [e])
  {
    assert forall x :: x in es + [e] <==> x in es || x == e;
    assert forall i | 0 <= i < |es| :: es[i] in es && es[i].waiter in WaitersOf(es);
  }

  lemma HeadWaiters(es: seq<Entry>)
    requires es != [] && DistinctWaiters(es)
    ensures WaitersOf(es[1..]) == WaitersOf(es) - {es[0].waiter}
    ensures es[0].waiter in WaitersOf(es) && DistinctWaiters(es[1..])
  {
    assert es == [es[0]] + es[1..];
    assert forall x :: x in es <==> x == es[0] || x in es[1..];
    forall x | x in es[1..] ensures x.waiter != es[0].waiter {
      var i :| 0 <= i < |es[1..]| && es[1..][i] == x;
      assert es[i + 1] == x;
    }
  }

  lemma SwapDeleteWaiters(es: seq<Entry>, i: nat)
    requires i < |es| && DistinctWaiters(es)
    ensures WaitersOf(SwapDelete(es, i)) == WaitersOf(es) - {es[i].waiter}
    ensures es[i].waiter in WaitersOf(es) && DistinctWaiters(SwapDelete(es, i))
  {
    var r, last := SwapDelete(es, i), |es| - 1;
    assert forall k | 0 <= k < last :: r[k] == if k == i then es[last] else es[k];
    forall e | e in es && e.waiter != es[i].waiter ensures e in r {
      var k :| 0 <= k < |es| && es[k] == e;
      assert e == if k == last then r[i] else r[k];
    }
    forall e | e in r ensures e in es && e.waiter != es[i].waiter {
      var k :| 0 <= k < |r| && r[k] == e;
    }
  }
}
