/** The pruner's operations as functions of its state, and how far its tracked size
    can be from the bytes really stored. */
module PrunerSpec {
  import opened Common
  import opened Uint64
  import opened Pins

  type Store = map<Cid, uint64>

  /** A block handed to Put: its CID and the length of its data. */
  type Data = Sized<uint64>

  datatype Config = Config(threshold: uint64, pruneBytes: uint64, pinDuration: int)

  /** The configuration arithmetic of NewRandomPruner. */
  function Effective(cfg: Config): Config {
    var half := if cfg.pruneBytes == 0 then cfg.threshold / 2 else cfg.pruneBytes;
    cfg.(pruneBytes := if cfg.threshold > half then cfg.threshold else half)
  }

  /** The effective amount is the larger of the two settings, which are left as they
      are; half of the threshold, the documented default, is used only when the
      threshold is zero. */
  lemma EffectiveIsMax(cfg: Config)
    ensures var b := Effective(cfg).pruneBytes;
      && b >= cfg.threshold && b >= cfg.pruneBytes && (b == cfg.threshold || b == cfg.pruneBytes)
      && (cfg.pruneBytes == 0 ==> (b == cfg.threshold / 2 <==> cfg.threshold == 0))
      && Effective(cfg).threshold == cfg.threshold && Effective(cfg).pinDuration == cfg.pinDuration
  {
  }

  const MINUTE: int := 60_000_000_000

  /** `lastSizeUpdate` keeps Go's zero time, 0 here: nothing ever assigns it. */
  datatype Pruner = Pruner(cfg: Config, store: Store, size: uint64, lastSizeUpdate: int, pins: Table, pruneLk: bool)

  /** Take the datastore's disk usage as the tracked size, if it can be had. */
  function Resync(p: Pruner, now: int, usage: Option<uint64>): Pruner {
    if now - p.lastSizeUpdate > MINUTE && usage.Some? then p.(size := usage.value) else p
  }

  /** Poll starts a prune when the size is at the threshold and none is running. */
  predicate PollStarts(p: Pruner, now: int, usage: Option<uint64>) {
    Resync(p, now, usage).size >= p.cfg.threshold && !p.pruneLk
  }

  function AfterPoll(p: Pruner, now: int, usage: Option<uint64>): Pruner {
    Resync(p, now, usage).(pruneLk := p.pruneLk || PollStarts(p, now, usage))
  }

  function PinAll(pins: Table, bs: seq<Data>, now: int): Table {
    if bs == [] then pins else Update(PinAll(pins, bs[..|bs| - 1], now), bs[|bs| - 1].cid, now)
  }

  /** Every block is pinned now, and nothing else is touched. */
  lemma {:induction false} PinAllPins(pins: Table, bs: seq<Data>, now: int)
    ensures forall i | 0 <= i < |bs| :: bs[i].cid in PinAll(pins, bs, now) && PinAll(pins, bs, now)[bs[i].cid] == now
    ensures forall c | !Mentions(bs, c) :: c in PinAll(pins, bs, now) <==> c in pins
    ensures forall c | !Mentions(bs, c) && c in pins :: PinAll(pins, bs, now)[c] == pins[c]
  {
    if bs != [] {
      var n := |bs| - 1;
      PinAllPins(pins, bs[..n], now);
      forall c ensures Mentions(bs[..n], c) || c == bs[n].cid ==> Mentions(bs, c) {
        if i :| 0 <= i < n && bs[..n][i].cid == c {
          assert bs[i].cid == c;
        }
      }
      assert forall i | 0 <= i < n :: bs[..n][i] == bs[i];
    }
  }

  /** The uses that writing these blocks records. */
  function UsesOf(bs: seq<Data>, now: int): seq<Use> {
    seq(|bs|, i requires 0 <= i < |bs| => Use(bs[i].cid, now))
  }

  /** The sum of the data lengths, as the code adds it up. */
  function Length64(bs: seq<Data>): uint64 {
    if bs == [] then 0 else Add64(Length64(bs[..|bs| - 1]), bs[|bs| - 1].size)
  }

  /** Put and PutMany up to the inner write. */
  function BeforeWrite(p: Pruner, bs: seq<Data>, now: int, usage: Option<uint64>): Pruner {
    AfterPoll(p.(pins := PinAll(p.pins, bs, now)), now, usage)
  }

  /** What the inner store wrote. failAfter is None for success, or how many blocks
      it had written when it failed. */
  function Written(bs: seq<Data>, failAfter: Option<nat>): seq<Data> {
    if failAfter.Some? && failAfter.value <= |bs| then bs[..failAfter.value] else bs
  }

  /** Put and PutMany. */
  function AfterPut(p: Pruner, bs: seq<Data>, now: int, usage: Option<uint64>, failAfter: Option<nat>): Pruner {
    var q := BeforeWrite(p, bs, now, usage);
    var t := q.(store := WriteAll(q.store, Written(bs, failAfter)));
    if failAfter.Some? then t else t.(size := Add64(q.size, Length64(bs)))
  }

  predicate Deletes(p: Pruner, c: Cid, sizeFault: bool, deleteFault: bool) {
    !sizeFault && c in p.store && !deleteFault
  }

  function AfterDelete(p: Pruner, c: Cid, sizeFault: bool, deleteFault: bool): Pruner {
    if Deletes(p, c, sizeFault, deleteFault) then p.(store := p.store - {c}, size := Sub64(p.size, p.store[c])) else p
  }

  /** The scan: skip pinned keys, keep the others in order; a query may evict a pin.
      clock(i) is the time at which key i is looked at. */
  datatype Scan = Scan(cids: seq<Cid>, pins: Table)

  function ScanKeys(pins: Table, duration: int, keys: seq<Cid>, clock: nat -> int): Scan {
    if keys == [] then Scan([], pins)
    else
      var n := |keys| - 1;
      var s := ScanKeys(pins, duration, keys[..n], clock);
      var c := keys[n];
      Scan(if Holds(s.pins, duration, c, clock(n)) then s.cids else s.cids + [c],
           AfterQuery(s.pins, duration, c, clock(n)))
  }

  /** The specification of the scan: the keys with no use younger than the pin
      duration at the moment they are looked at. */
  ghost function Unpinned(history: seq<Use>, duration: int, keys: seq<Cid>, clock: nat -> int): seq<Cid> {
    if keys == [] then []
    else
      var n := |keys| - 1;
      Unpinned(history, duration, keys[..n], clock)
      + if PinnedBy(history, duration, keys[n], clock(n)) then [] else [keys[n]]
  }

  /** The moment of the last look, or the given one before the first. */
  function LastLook(now: int, keys: seq<Cid>, clock: nat -> int): int {
    if keys == [] then now else clock(|keys| - 1)
  }

  ghost predicate ClockFrom(now: int, clock: nat -> int) {
    now <= clock(0) && forall i: nat, j: nat | i <= j :: clock(i) <= clock(j)
  }

  /** However the queries of the scan evict entries on the way, it keeps exactly the
      unpinned keys, in order, and leaves the table in agreement with the history. */
  lemma {:induction false} ScanIsExact(pins: Table, history: seq<Use>, duration: int, now: int, keys: seq<Cid>,
          clock: nat -> int)
    requires Reflects(pins, history, duration, now) && ClockFrom(now, clock)
    ensures ScanKeys(pins, duration, keys, clock).cids == Unpinned(history, duration, keys, clock)
    ensures Reflects(ScanKeys(pins, duration, keys, clock).pins, history, duration, LastLook(now, keys, clock))
  {
    if keys != [] {
      var n := |keys| - 1;
      var before := LastLook(now, keys[..n], clock);
      var prior := ScanKeys(pins, duration, keys[..n], clock).pins;
      ScanIsExact(pins, history, duration, now, keys[..n], clock);
      assert before <= clock(n);
      LaterReflects(prior, history, duration, before, clock(n));
      AnswerIsExact(prior, history, duration, clock(n), keys[n]);
      QueryReflects(prior, history, duration, clock(n), keys[n], clock(n));
    }
  }

  lemma {:induction false} PinAllReflects(pins: Table, history: seq<Use>, duration: int, clock: int, bs: seq<Data>,
          now: int)
    requires Reflects(pins, history, duration, clock) && clock <= now
    ensures Reflects(PinAll(pins, bs, now), history + UsesOf(bs, now), duration, now)
  {
    if bs == [] {
      LaterReflects(pins, history, duration, clock, now);
      assert history + UsesOf(bs, now) == history;
    } else {
      var n := |bs| - 1;
      PinAllReflects(pins, history, duration, clock, bs[..n], now);
      UpdateReflects(PinAll(pins, bs[..n], now), history + UsesOf(bs[..n], now), duration, now, bs[n].cid, now);
      assert history + UsesOf(bs, now) == history + UsesOf(bs[..n], now) + [Use(bs[n].cid, now)];
    }
  }

  // ----- tracked size against stored bytes -----

  ghost function Stored(store: Store): nat {
    Sum(store)
  }

  ghost function Length(bs: seq<Data>): nat {
    if bs == [] then 0 else Length(bs[..|bs| - 1]) + bs[|bs| - 1].size
  }

  function HeldOf(store: Store, c: Cid): uint64 {
    if c in store then store[c] else 0
  }

  /** Bytes of blocks that the writes replace: stored before, counted again. */
  ghost function Replaced(store: Store, bs: seq<Data>): nat {
    if bs == [] then 0
    else Replaced(store, bs[..|bs| - 1]) + HeldOf(WriteAll(store, bs[..|bs| - 1]), bs[|bs| - 1].cid)
  }

  lemma StoreOne(store: Store, b: Data)
    ensures Stored(store[b.cid := b.size]) == Stored(store) - HeldOf(store, b.cid) + b.size
  {
    SumUpdate(store, b.cid, b.size);
  }

  lemma {:induction false} StoredAfterWrites(store: Store, bs: seq<Data>)
    ensures Stored(WriteAll(store, bs)) == Stored(store) + Length(bs) - Replaced(store, bs)
  {
    if bs != [] {
      var n := |bs| - 1;
      StoredAfterWrites(store, bs[..n]);
      StoreOne(WriteAll(store, bs[..n]), bs[n]);
    }
  }

  lemma {:induction false} LengthCongruent(bs: seq<Data>)
    ensures Congruent(Length64(bs), Length(bs))
  {
    if bs == [] {
      assert 0 == 0 + Whole(0);
    } else {
      LengthCongruent(bs[..|bs| - 1]);
      AddCongruent(Length64(bs[..|bs| - 1]), bs[|bs| - 1].size, Length(bs[..|bs| - 1]));
    }
  }

  ghost function DriftAfterPoll(p: Pruner, drift: int, now: int, usage: Option<uint64>): int {
    if now - p.lastSizeUpdate > MINUTE && usage.Some? then usage.value - Stored(p.store) else drift
  }

  /** What one Put does to the gap between tracked size and stored bytes: a resync
      sets it, replaced blocks widen it, and bytes left behind by a failed write
      narrow it. */
  ghost function DriftAfterPut(p: Pruner, drift: int, bs: seq<Data>, now: int, usage: Option<uint64>,
          failAfter: Option<nat>): int {
    var written := Written(bs, failAfter);
    DriftAfterPoll(p, drift, now, usage) + Replaced(p.store, written) - if failAfter.Some? then Length(written) else 0
  }

  /** The tracked size is the stored bytes plus the drift, up to wrap-around. */
  ghost predicate Accounted(p: Pruner, drift: int) {
    Congruent(p.size, Stored(p.store) + drift)
  }

  lemma PollAccounted(p: Pruner, drift: int, now: int, usage: Option<uint64>)
    requires Accounted(p, drift)
    ensures Accounted(AfterPoll(p, now, usage), DriftAfterPoll(p, drift, now, usage))
  {
    if usage.Some? {
      assert usage.value == usage.value + Whole(0);
    }
  }

  lemma AddsCongruent(a: uint64, b: uint64, c: int, d: int)
    requires Congruent(a, c) && Congruent(b, d)
    ensures Congruent(Add64(a, b), c + d)
  {
    var q :| a == c + Whole(q);
    var r :| b == d + Whole(r);
    assert Add64(a, b) == c + d + Whole(if a + b < U64 then q + r else q + r - 1);
  }

  lemma WriteAccounted(p: Pruner, drift: int, bs: seq<Data>)
    requires Accounted(p, drift)
    ensures Accounted(p.(store := WriteAll(p.store, bs), size := Add64(p.size, Length64(bs))),
                      drift + Replaced(p.store, bs))
  {
    LengthCongruent(bs);
    StoredAfterWrites(p.store, bs);
    AddsCongruent(p.size, Length64(bs), Stored(p.store) + drift, Length(bs));
  }

  lemma FailedWriteAccounted(p: Pruner, drift: int, written: seq<Data>)
    requires Accounted(p, drift)
    ensures Accounted(p.(store := WriteAll(p.store, written)), drift + Replaced(p.store, written) - Length(written))
  {
    StoredAfterWrites(p.store, written);
  }

  lemma PutAccounted(p: Pruner, drift: int, bs: seq<Data>, now: int, usage: Option<uint64>, failAfter: Option<nat>)
    requires Accounted(p, drift)
    ensures Accounted(AfterPut(p, bs, now, usage, failAfter), DriftAfterPut(p, drift, bs, now, usage, failAfter))
  {
    var q, d := BeforeWrite(p, bs, now, usage), DriftAfterPoll(p, drift, now, usage);
    assert Accounted(q, d) by {
      PollAccounted(p.(pins := PinAll(p.pins, bs, now)), drift, now, usage);
    }
    if failAfter.Some? {
      FailedWriteAccounted(q, d, Written(bs, failAfter));
    } else {
      WriteAccounted(q, d, bs);
    }
  }

  lemma DeleteAccounted(p: Pruner, drift: int, c: Cid, sizeFault: bool, deleteFault: bool)
    requires Accounted(p, drift)
    ensures Accounted(AfterDelete(p, c, sizeFault, deleteFault), drift)
  {
    if Deletes(p, c, sizeFault, deleteFault) {
      SumRemove(p.store, c);
      SubCongruent(p.size, p.store[c], Stored(p.store) + drift);
    }
  }

  /** While the sum stays in range, the tracked size is exactly the stored bytes plus
      the drift; with no negative drift, deleting a stored block does not wrap around. */
  lemma ExactInRange(p: Pruner, drift: int, c: Cid)
    requires Accounted(p, drift) && 0 <= Stored(p.store) + drift < U64
    ensures p.size == Stored(p.store) + drift
    ensures 0 <= drift && c in p.store ==> p.store[c] <= p.size && Sub64(p.size, p.store[c]) == p.size - p.store[c]
  {
    CongruentInRange(p.size, Stored(p.store) + drift);
    if c in p.store {
      SumRemove(p.store, c);
    }
  }
}
