/** The write side of the manager as the code runs it: Put and PutMany write to the
    store and then announce every block on the channel, while the poller receives
    from its other end. The wait list and its lock play no part here. */
module PutPath {
  import opened Common
  import opened WaitProtocol

  /** What happens around one select: how many blocks the poller receives first, and
      whether the call leaves through ctx.Done. A call that does not leave waits
      until the channel has room. */
  datatype Turn = Turn(drained: nat, leaves: bool)

  class PutSide {
    var store: map<Cid, nat>
    /** The channel, and all that was ever received from it. */
    var ready: seq<Block>
    var received: seq<Block>

    predicate Valid()
      reads this
    {
      |ready| <= CHANNEL_CAPACITY
    }

    constructor (store: map<Cid, nat>)
      ensures Valid() && this.store == store && ready == [] && received == []
    {
      this.store, ready, received := store, [], [];
    }

    /** The poller receives up to n blocks. */
    method Drain(n: nat)
      requires Valid()
      modifies this`ready, this`received
      ensures Valid() && received + ready == old(received + ready) && old(received) <= received
      ensures |ready| == if n <= |old(ready)| then |old(ready)| - n else 0
    {
      var m := if n <= |ready| then n else |ready|;
      assert ready == ready[..m] + ready[m..];
      Assoc(received, ready[..m], ready[m..]);
      received, ready := received + ready[..m], ready[m..];
    }

    /** One select: send the block or leave. */
    method Announce(b: Block, turn: Turn) returns (sent: bool)
      requires Valid()
      modifies this`ready, this`received
      ensures Valid() && old(received) <= received
      ensures sent <==> !turn.leaves
      ensures received + ready == if sent then old(received + ready) + [b] else old(received + ready)
    {
      Drain(turn.drained);
      if turn.leaves {
        return false;
      }
      if |ready| == CHANNEL_CAPACITY {
        Drain(1);
      }
      Assoc(received, ready, [b]);
      ready := ready + [b];
      return true;
    }

    method Put(b: Block, fails: bool, turn: Turn) returns (ok: bool)
      requires Valid()
      modifies this
      ensures Valid() && old(received) <= received
      ensures store == if fails then old(store) else old(store)[b.cid := b.size]
      ensures ok <==> !fails && !turn.leaves
      ensures received + ready == if ok then old(received + ready) + [b] else old(received + ready)
    {
      if fails {
        return false;
      }
      store := store[b.cid := b.size];
      ok := Announce(b, turn);
    }

    /** failAfter is how many blocks the inner store kept when it failed. Announced is
        the number of blocks sent: all of them, or those before the first select that
        left; the others are stored and will not be announced. */
    method PutMany(bs: seq<Block>, failAfter: Option<nat>, turns: nat -> Turn) returns (ok: bool, announced: nat)
      requires Valid() && (failAfter.Some? ==> failAfter.value <= |bs|)
      modifies this
      ensures Valid() && old(received) <= received
      ensures Wrote(old(store), store, if failAfter.Some? then bs[..failAfter.value] else bs)
      ensures announced <= |bs| && received + ready == old(received + ready) + bs[..announced]
      ensures ok <==> failAfter.None? && forall i | 0 <= i < |bs| :: !turns(i).leaves
      ensures ok ==> announced == |bs|
      ensures failAfter.Some? ==> announced == 0
      ensures failAfter.None? ==> forall i | 0 <= i < announced :: !turns(i).leaves
      ensures failAfter.None? && !ok ==> announced < |bs| && turns(announced).leaves
    {
      WriteAllWrites(store, if failAfter.Some? then bs[..failAfter.value] else bs);
      if failAfter.Some? {
        store := WriteAll(store, bs[..failAfter.value]);
        assert received + ready == old(received + ready) + bs[..0];
        return false, 0;
      }
      store := WriteAll(store, bs);
      announced := AnnounceAll(bs, turns);
      ok := announced == |bs|;
    }

    /** The loop of PutMany over the written blocks. */
    method AnnounceAll(bs: seq<Block>, turns: nat -> Turn) returns (announced: nat)
      requires Valid()
      modifies this`ready, this`received
      ensures Valid() && old(received) <= received
      ensures announced <= |bs| && received + ready == old(received + ready) + bs[..announced]
      ensures forall i | 0 <= i < announced :: !turns(i).leaves
      ensures announced < |bs| ==> turns(announced).leaves
    {
      announced := 0;
      while announced < |bs|
        invariant Valid() && old(received) <= received && announced <= |bs|
        invariant received + ready == old(received + ready) + bs[..announced]
        invariant forall i | 0 <= i < announced :: !turns(i).leaves
      {
        var sent := Announce(bs[announced], turns(announced));
        if !sent {
          return;
        }
        assert bs[..announced + 1] == bs[..announced] + [bs[announced]];
        Assoc(old(received + ready), bs[..announced], [bs[announced]]);
        announced := announced + 1;
      }
    }
  }
}
