/** What the pruner's store holds after a run, read off the actions of the run. */
module PrunerStore {
  import opened Common
  import opened Uint64
  import opened PruneLoop
  import opened PrunerSpec
  import opened PrunerRuns

  /** The size that the last of these blocks for c has. */
  function LastSize(bs: seq<Data>, c: Cid): Option<uint64> {
    if bs == [] then None
    else if bs[|bs| - 1].cid == c then Some(bs[|bs| - 1].size)
    else LastSize(bs[..|bs| - 1], c)
  }

  function SizeIn(store: Store, c: Cid): Option<uint64> {
    if c in store then Some(store[c]) else None
  }

  lemma {:induction false} WritesLast(store: Store, bs: seq<Data>, c: Cid)
    ensures SizeIn(WriteAll(store, bs), c) == if LastSize(bs, c).Some? then LastSize(bs, c) else SizeIn(store, c)
  {
    if bs != [] {
      WritesLast(store, bs[..|bs| - 1], c);
    }
  }

  /** The blocks that a Put left in the store: all, or those written when it failed. */
  function Left(bs: seq<Data>, failAfter: Option<nat>): seq<Data> {
    if failAfter.Some? && failAfter.value < |bs| then bs[..failAfter.value] else bs
  }

  /** The step, taken in r, deletes c if it is there: by request, or drawn by a prune. */
  predicate Takes(r: RState, a: Action, c: Cid)
    requires Enabled(r, a)
  {
    match a
    case DeleteBlock(d, sizeFault, deleteFault) => d == c && !sizeFault && !deleteFault
    case DrawBlock(g, d) => Pick(FileLines(r, r.prunes[g].scanned), d) == Some(c) && !d.sizeFault && !d.deleteFault
    case _ => false
  }

  /** What the actions of the run have made of c: its last write, its deletion since, or
      what was there at first. */
  ghost function HeldAfter(r0: RState, trace: seq<Action>, c: Cid): Option<uint64>
    requires Run(r0, trace).Some?
  {
    if trace == [] then SizeIn(r0.p.store, c)
    else
      var n, a := |trace| - 1, trace[|trace| - 1];
      if a.PutBlocks? && LastSize(Left(a.bs, a.failAfter), c).Some? then LastSize(Left(a.bs, a.failAfter), c)
      else if Takes(Run(r0, trace[..n]).value, a, c) then None
      else HeldAfter(r0, trace[..n], c)
  }

  lemma PutHolds(r: RState, a: Action, c: Cid)
    requires Enabled(r, a) && a.PutBlocks?
    ensures var last := LastSize(Left(a.bs, a.failAfter), c);
      SizeIn(Apply(r, a).p.store, c) == if last.Some? then last else SizeIn(r.p.store, c)
  {
    assert a.bs[..|a.bs|] == a.bs;
    WritesLast(r.p.store, Left(a.bs, a.failAfter), c);
  }

  lemma OthersHold(r: RState, a: Action, c: Cid)
    requires Enabled(r, a) && !a.PutBlocks?
    ensures SizeIn(Apply(r, a).p.store, c) == if Takes(r, a, c) then None else SizeIn(r.p.store, c)
  {
  }

  /** In every run, whatever interleaves, the store holds exactly that. */
  lemma {:induction false} StoreFollows(r0: RState, trace: seq<Action>, c: Cid)
    requires Run(r0, trace).Some?
    ensures SizeIn(Run(r0, trace).value.p.store, c) == HeldAfter(r0, trace, c)
  {
    if trace != [] {
      var n := |trace| - 1;
      var r := Run(r0, trace[..n]).value;
      StoreFollows(r0, trace[..n], c);
      if trace[n].PutBlocks? {
        PutHolds(r, trace[n], c);
      } else {
        OthersHold(r, trace[n], c);
      }
    }
  }
}
