/** Values shared by every component: content identifiers, blocks and what a
    lookup in the inner blockstore can answer. */
module Common {
  datatype Option<+T> = None | Some(value: T)

  /** A content identifier; only its identity matters here. */
  datatype Cid = Cid(id: nat)

  /** A block as far as it matters here: which one, and how long it is. */
  datatype Sized<+S> = Block(cid: Cid, size: S)

  /** The `Block` record of the block manager. */
  type Block = Sized<nat>

  /** Outcome of `GetSize`, `Has` or `Get` on the inner store. */
  datatype Lookup = Absent | Present(size: nat) | Fault

  function LookUp(store: map<Cid, nat>, c: Cid, fault: bool): Lookup {
    if fault then Fault else if c in store then Present(store[c]) else Absent
  }

  /** The store after these blocks were written to it, in order. */
  function WriteAll<S>(store: map<Cid, S>, bs: seq<Sized<S>>): map<Cid, S> {
    if bs == [] then store
    else WriteAll(store, bs[..|bs| - 1])[bs[|bs| - 1].cid := bs[|bs| - 1].size]
  }

  ghost predicate Mentions<S>(bs: seq<Sized<S>>, c: Cid) {
    exists i | 0 <= i < |bs| :: bs[i].cid == c
  }

  /** after is before with these blocks in it: each CID of bs with the size of the last
      block for it, and every other CID as it was. */
  ghost predicate Wrote<S>(before: map<Cid, S>, after: map<Cid, S>, bs: seq<Sized<S>>) {
    && (forall c :: c in after <==> c in before || Mentions(bs, c))
    && (forall c | c in before && c in after && !Mentions(bs, c) :: after[c] == before[c])
    && (forall j | 0 <= j < |bs| && bs[j].cid in after && (forall l | j < l < |bs| :: bs[l].cid != bs[j].cid) ::
          after[bs[j].cid] == bs[j].size)
  }

  lemma {:induction false} WriteAllWrites<S>(store: map<Cid, S>, bs: seq<Sized<S>>)
    ensures Wrote(store, WriteAll(store, bs), bs)
  {
    if bs != [] {
      var n := |bs| - 1;
      var prefix, middle := bs[..n], WriteAll(store, bs[..n]);
      WriteAllWrites(store, prefix);
      forall c ensures Mentions(bs, c) <==> Mentions(prefix, c) || c == bs[n].cid {
        assert Mentions(prefix, c) ==> exists i | 0 <= i < n :: bs[i].cid == c;
        assert bs[n].cid == c ==> Mentions(bs, c);
        if i :| 0 <= i < |bs| && bs[i].cid == c && i < n {
          assert prefix[i].cid == c;
        }
      }
      forall j | 0 <= j < |bs| && (forall l | j < l < |bs| :: bs[l].cid != bs[j].cid)
        ensures bs[j].cid in WriteAll(store, bs) && WriteAll(store, bs)[bs[j].cid] == bs[j].size
      {
        if j < n {
          assert prefix[j] == bs[j] && bs[n].cid != bs[j].cid;
          assert forall l | j < l < n :: prefix[l] == bs[l];
          assert Mentions(prefix, bs[j].cid);
        }
      }
    }
  }

  ghost predicate NoRepeats<T>(s: seq<T>) {
    forall i, j | 0 <= i < j < |s| :: s[i] != s[j]
  }

  lemma UpdateTwice<K, V>(m: map<K, V>, k: K, v: V, w: V)
    ensures m[k := v][k := w] == m[k := w]
  {
  }

  lemma Assoc<T>(a: seq<T>, b: seq<T>, c: seq<T>)
    ensures (a + b) + c == a + (b + c)
  {
  }

  /** Sum of the values of a finite map. */
  ghost function Sum<K>(m: map<K, nat>): nat {
    if m == map[] then 0
    else
      var k :| k in m;
      m[k] + Sum(m - {k})
  }

  lemma {:induction false} SumRemove<K>(m: map<K, nat>, k: K)
    requires k in m
    ensures Sum(m) == m[k] + Sum(m - {k})
    decreases |m|
  {
    var j :| j in m && Sum(m) == m[j] + Sum(m - {j});
    if j != k {
      SumRemove(m - {j}, k);
      SumRemove(m - {k}, j);
      assert m - {j} - {k} == m - {k} - {j};
    }
  }

  /** All elements of the multisets of a finite map. */
  ghost function Union<K, T>(m: map<K, multiset<T>>): multiset<T> {
    if m == map[] then multiset{}
    else
      var k :| k in m;
      m[k] + Union(m - {k})
  }

  lemma {:induction false} UnionRemove<K, T>(m: map<K, multiset<T>>, k: K)
    requires k in m
    ensures Union(m) == m[k] + Union(m - {k})
    decreases |m|
  {
    var j :| j in m && Union(m) == m[j] + Union(m - {j});
    if j != k {
      UnionRemove(m - {j}, k);
      UnionRemove(m - {k}, j);
      assert m - {j} - {k} == m - {k} - {j};
    }
  }

  lemma UnionUpdate<K, T>(m: map<K, multiset<T>>, k: K, v: multiset<T>)
    ensures Union(m[k := v]) + (if k in m then m[k] else multiset{}) == Union(m) + v
  {
    var t := m[k := v];
    UnionRemove(t, k);
    assert t - {k} == m - {k};
    if k in m {
      UnionRemove(m, k);
    } else {
      assert m - {k} == m;
    }
  }

  lemma {:induction false} UnionOfNothing<K, T>(m: map<K, multiset<T>>)
    requires forall k | k in m :: m[k] == multiset{}
    ensures Union(m) == multiset{}
    decreases |m|
  {
    if m != map[] {
      var k :| k in m;
      UnionRemove(m, k);
      UnionOfNothing(m - {k});
    }
  }

  lemma SumUpdate<K>(m: map<K, nat>, k: K, v: nat)
    ensures Sum(m[k := v]) == Sum(m) - (if k in m then m[k] else 0) + v
  {
    var t := m[k := v];
    SumRemove(t, k);
    assert t - {k} == m - {k};
    if k in m {
      SumRemove(m, k);
    } else {
      assert m - {k} == m;
    }
  }
}
