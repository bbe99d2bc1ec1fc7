/** The random pruner as the code runs it: fields updated in place, the record file
    written line by line, and the deletion loop over random draws. */
module RandomPruner {
  import opened Common
  import opened Uint64
  import opened Pins
  import opened RecordFile
  import opened PruneLoop
  import opened PrunerSpec

  /** How prune ended. */
  datatype Ending = NothingUnpinned | Ended(loop: Loop)

  /** Put is PutMany of one block. */
  lemma SingleBlock(store: Store, pins: Table, b: Data, now: int)
    ensures WriteAll(store, [b]) == store[b.cid := b.size] && WriteAll(store, [b][..0]) == store && [b][..1] == [b]
    ensures PinAll(pins, [b], now) == Update(pins, b.cid, now) && Length64([b]) == b.size
  {
    assert [b][..0] == [];
  }

  lemma TextsGrow(codec: Codec, cids: seq<Cid>, c: Cid)
    ensures Encode(Texts(codec, cids + [c])) == Encode(Texts(codec, cids)) + Record(codec.show(c))
  {
    var t := Texts(codec, cids + [c]);
    assert t[..|t| - 1] == Texts(codec, cids);
  }

  /** A prune of readable keys under the configuration the operator gave, with draws
      enough: what it counts as freed is what the store lost, and unless the store
      failed it has freed at least the larger of the two settings, or there are eleven
      draws in a row of written keys that were not there when they were drawn. */
  lemma PruneFreesEnough(codec: Codec, cfg: Config, cids: seq<Cid>, store: Store, size: uint64, draws: seq<Draw>)
    requires Faithful(codec) && cids != [] && ShortButLast(codec, cids) && Stored(store) < U64
    requires |draws| >= 11 * (|cids| + 1)
    ensures var l := Turns(LinesOf(codec, Encode(Texts(codec, cids)), |cids|), Effective(cfg).pruneBytes,
                           Start(store, size), draws);
      && l.bytesPruned + Stored(l.store) == Stored(store)
      && (l.status.Errored? ==> exists d | d in draws :: d.sizeFault || d.deleteFault)
      && (!l.status.Errored? ==>
            || (l.bytesPruned >= cfg.threshold && l.bytesPruned >= cfg.pruneBytes)
            || exists j | 0 <= j <= |draws| ::
                 EndsInMisses(AllRead(cids), Effective(cfg).pruneBytes, Start(store, size), draws[..j]))
  {
    EffectiveIsMax(cfg);
    OwnFileReads(codec, cids);
    var lines, target := AllRead(cids), Effective(cfg).pruneBytes;
    PruneConserves(lines, target, store, size, draws);
    PruneTerminates(lines, target, store, size, draws);
    ErrsOnlyAtFaults(lines, target, Start(store, size), draws);
    RowIsCounted(lines, target, Start(store, size), draws);
    if Turns(lines, target, Start(store, size), draws).status.GaveUp? {
      var j := GivesUpSomewhere(lines, target, Start(store, size), draws);
    }
  }

  class RandomPruner {
    const codec: Codec
    const cfg: Config
    var store: Store
    var size: uint64
    var lastSizeUpdate: int
    var pins: Table
    var pruneLk: bool
    var file: string
    /** Every use of a CID so far, and the time of the last look at the clock. */
    ghost var History: seq<Use>
    ghost var Clock: int

    /** The pin table agrees with the full history of uses. */
    ghost predicate Valid()
      reads this
    {
      Reflects(pins, History, cfg.pinDuration, Clock)
    }

    /** The state the specification speaks of. */
    ghost function Value(): Pruner
      reads this
    {
      Pruner(cfg, store, size, lastSizeUpdate, pins, pruneLk)
    }

    constructor (codec: Codec, inner: Store, cfg: Config, diskUsage: uint64)
      ensures Value() == Pruner(Effective(cfg), inner, diskUsage, 0, map[], false)
      ensures this.codec == codec && Valid() && History == [] && Clock == 0
    {
      var pruneBytes := cfg.pruneBytes;
      if pruneBytes == 0 {
        pruneBytes := cfg.threshold / 2;
      }
      if cfg.threshold > pruneBytes {
        pruneBytes := cfg.threshold;
      }
      this.codec := codec;
      this.cfg := Config(cfg.threshold, pruneBytes, cfg.pinDuration);
      store, size, lastSizeUpdate := inner, diskUsage, 0;
      pins, pruneLk, file := map[], false, "";
      History, Clock := [], 0;
    }

    /** Record a use. If time does not go back, the table still agrees with the history. */
    method UpdatePin(c: Cid, now: int)
      modifies this`pins, this`History, this`Clock
      ensures pins == Update(old(pins), c, now)
      ensures History == old(History) + [Use(c, now)] && Clock == now
      ensures old(Valid()) && old(Clock) <= now ==> Valid()
    {
      if Valid() && Clock <= now {
        UpdateReflects(pins, History, cfg.pinDuration, Clock, c, now);
      }
      pins := pins[c := now];
      History, Clock := History + [Use(c, now)], now;
    }

    /** Yes exactly if some use of c is younger than the pin duration; an expired entry
        is evicted, which no later answer can tell. */
    method IsPinned(c: Cid, now: int) returns (pinned: bool)
      modifies this`pins, this`Clock
      ensures pinned == Holds(old(pins), cfg.pinDuration, c, now)
      ensures pins == AfterQuery(old(pins), cfg.pinDuration, c, now) && Clock == now
      ensures (c in pins <==> pinned) && forall d | d != c :: (d in pins <==> d in old(pins))
      ensures old(Valid()) && old(Clock) <= now ==> Valid() && (pinned <==> PinnedBy(History, cfg.pinDuration, c, now))
    {
      if Valid() && Clock <= now {
        LaterReflects(pins, History, cfg.pinDuration, Clock, now);
        AnswerIsExact(pins, History, cfg.pinDuration, now, c);
        QueryReflects(pins, History, cfg.pinDuration, Clock, c, now);
      }
      Clock := now;
      if c !in pins {
        return false;
      }
      if now - pins[c] < cfg.pinDuration {
        return true;
      }
      pins := map d | d in pins && d != c :: pins[d];
      return false;
    }

    /** usage is what DiskUsage answered; started says that a prune goroutine was
        launched, holding pruneLk. */
    method Poll(now: int, usage: Option<uint64>) returns (started: bool)
      modifies this`size, this`pruneLk
      ensures Value() == AfterPoll(old(Value()), now, usage)
      ensures started == PollStarts(old(Value()), now, usage)
    {
      if now - lastSizeUpdate > MINUTE {
        if usage.Some? {
          size := usage.value;
        }
      }
      started := false;
      if size >= cfg.threshold {
        if !pruneLk {
          pruneLk := true;
          started := true;
        }
      }
    }

    method DeleteBlock(c: Cid, sizeFault: bool, deleteFault: bool) returns (ok: bool)
      modifies this`store, this`size
      ensures Value() == AfterDelete(old(Value()), c, sizeFault, deleteFault)
      ensures ok == Deletes(old(Value()), c, sizeFault, deleteFault)
    {
      match LookUp(store, c, sizeFault)
      case Fault => ok := false;
      case Absent => ok := false;
      case Present(_) =>
        if deleteFault {
          return false;
        }
        var blockSize := store[c];
        store := store - {c};
        size := Sub64(size, blockSize);
        ok := true;
    }

    /** Put one block; written says how much of it a failing inner store kept. */
    method Put(b: Data, now: int, usage: Option<uint64>, failAfter: Option<nat>) returns (ok: bool)
      modifies this
      ensures Value() == AfterPut(old(Value()), [b], now, usage, failAfter)
      ensures ok <==> failAfter.None?
      ensures Wrote(old(store), store, if failAfter == Some(0) then [] else [b])
      ensures pins == old(pins)[b.cid := now]
      ensures file == old(file)
      ensures History == old(History) + UsesOf([b], now) && (old(Valid()) && old(Clock) <= now ==> Valid())
    {
      SingleBlock(store, pins, b, now);
      WriteAllWrites(store, if failAfter == Some(0) then [] else [b]);
      UpdatePin(b.cid, now);
      var started := Poll(now, usage);
      match failAfter
      case Some(n) =>
        if n > 0 {
          store := store[b.cid := b.size];
        }
        ok := false;
      case None =>
        store := store[b.cid := b.size];
        size := Add64(size, b.size);
        ok := true;
    }

    method PutMany(bs: seq<Data>, now: int, usage: Option<uint64>, failAfter: Option<nat>) returns (ok: bool)
      modifies this
      ensures Value() == AfterPut(old(Value()), bs, now, usage, failAfter)
      ensures ok <==> failAfter.None?
      ensures Wrote(old(store), store,
                    if failAfter.Some? && failAfter.value <= |bs| then bs[..failAfter.value] else bs)
      ensures forall i | 0 <= i < |bs| :: bs[i].cid in pins && pins[bs[i].cid] == now
      ensures file == old(file)
      ensures History == old(History) + UsesOf(bs, now) && (old(Valid()) && old(Clock) <= now ==> Valid())
    {
      var blocksSize: uint64 := 0;
      for i := 0 to |bs|
        modifies this`pins, this`History, this`Clock
        invariant Value() == old(Value()).(pins := PinAll(old(pins), bs[..i], now))
        invariant blocksSize == Length64(bs[..i])
        invariant History == old(History) + UsesOf(bs[..i], now)
        invariant old(Valid()) && old(Clock) <= now ==> Valid() && Clock <= now
      {
        assert UsesOf(bs[..i + 1], now) == UsesOf(bs[..i], now) + [Use(bs[i].cid, now)];
        Assoc(old(History), UsesOf(bs[..i], now), [Use(bs[i].cid, now)]);
        UpdatePin(bs[i].cid, now);
        blocksSize := Add64(blocksSize, bs[i].size);
        assert bs[..i + 1][..i] == bs[..i];
      }
      assert bs[..|bs|] == bs;
      WriteAllWrites(store, Written(bs, failAfter));
      PinAllPins(old(pins), bs, now);
      var started := Poll(now, usage);
      match failAfter
      case Some(n) =>
        store := WriteAll(store, Written(bs, failAfter));
        ok := false;
      case None =>
        store := WriteAll(store, bs);
        size := Add64(size, blocksSize);
        ok := true;
    }

    /** The first half of prune: write every key that is not pinned to the file. */
    method WriteKeys(keys: seq<Cid>, clock: nat -> int) returns (count: nat)
      modifies this`pins, this`file, this`Clock
      ensures var s := ScanKeys(old(pins), cfg.pinDuration, keys, clock);
        pins == s.pins && count == |s.cids| && file == Encode(Texts(codec, s.cids))
      ensures Clock == LastLook(old(Clock), keys, clock)
      ensures old(Valid()) && ClockFrom(old(Clock), clock) ==>
        Valid() && file == Encode(Texts(codec, Unpinned(History, cfg.pinDuration, keys, clock)))
    {
      file, count := "", 0;
      for i := 0 to |keys|
        invariant var s := ScanKeys(old(pins), cfg.pinDuration, keys[..i], clock);
          pins == s.pins && count == |s.cids| && file == Encode(Texts(codec, s.cids))
        invariant Clock == LastLook(old(Clock), keys[..i], clock)
      {
        ghost var s := ScanKeys(old(pins), cfg.pinDuration, keys[..i], clock);
        assert keys[..i + 1][..i] == keys[..i];
        var pinned := IsPinned(keys[i], clock(i));
        if !pinned {
          TextsGrow(codec, s.cids, keys[i]);
          file := file + Record(codec.show(keys[i]));
          count := count + 1;
        }
      }
      assert keys[..|keys|] == keys;
      if old(Valid()) && ClockFrom(old(Clock), clock) {
        ScanIsExact(old(pins), History, cfg.pinDuration, old(Clock), keys, clock);
      }
    }

    /** The second half: delete random blocks until enough bytes are pruned. */
    method DeleteRandomly(count: nat, draws: seq<Draw>) returns (l: Loop)
      requires count > 0
      modifies this`store, this`size
      ensures l == Turns(LinesOf(codec, file, count), cfg.pruneBytes, Start(old(store), old(size)), draws)
      ensures store == l.store && size == l.size
    {
      ghost var lines := LinesOf(codec, file, count);
      ghost var whole := Turns(lines, cfg.pruneBytes, Start(store, size), draws);
      l := Start(store, size);
      var k := 0;
      while k < |draws| && l.status.Running? && l.bytesPruned < cfg.pruneBytes
        invariant 0 <= k <= |draws|
        invariant whole == Turns(lines, cfg.pruneBytes, l, draws[k..])
        invariant store == l.store && size == l.size
      {
        var d := draws[k];
        k := k + 1;
        ghost var next := Turn(lines, l, d);
        var read := ReadCid(codec, file, d.n % count);
        assert read == Pick(lines, d);
        if read.None? {
          continue;
        }
        var c := read.value;
        var seen := LookUp(store, c, d.sizeFault);
        if seen.Absent? {
          l := Miss(l);
          continue;
        }
        if seen.Fault? {
          l := l.(status := Errored);
          continue;
        }
        var blockSize := store[c];
        var ok := DeleteBlock(c, false, d.deleteFault);
        if !ok {
          l := l.(status := Errored);
        } else {
          l := l.(store := store, size := size, bytesPruned := Add64(l.bytesPruned, blockSize),
                  notFoundCount := 0, deleted := l.deleted + [c]);
        }
        assert l == next;
      }
    }

    /** The prune goroutine: it was started by Poll, and releases pruneLk at the end. */
    method Prune(keys: seq<Cid>, clock: nat -> int, draws: seq<Draw>) returns (ending: Ending)
      requires pruneLk
      modifies this
      ensures !pruneLk && lastSizeUpdate == old(lastSizeUpdate)
      ensures var s := ScanKeys(old(pins), cfg.pinDuration, keys, clock);
        && pins == s.pins && file == Encode(Texts(codec, s.cids))
        && (s.cids == [] ==> ending == NothingUnpinned && store == old(store) && size == old(size))
        && (s.cids != [] ==>
              ending == Ended(Turns(LinesOf(codec, file, |s.cids|), cfg.pruneBytes, Start(old(store), old(size)),
                                    draws))
              && store == ending.loop.store && size == ending.loop.size)
      ensures History == old(History)
      ensures old(Valid()) && ClockFrom(old(Clock), clock) ==>
        Valid() && file == Encode(Texts(codec, Unpinned(History, cfg.pinDuration, keys, clock)))
    {
      var count := WriteKeys(keys, clock);
      if count == 0 {
        ending := NothingUnpinned;
      } else {
        var l := DeleteRandomly(count, draws);
        ending := Ended(l);
      }
      pruneLk := false;
    }
  }

  /** The constructor function: it fails if the disk usage is not available, and
      polls once before it returns. */
  method NewRandomPruner(codec: Codec, inner: Store, cfg: Config, diskUsage: Option<uint64>, now: int,
          usage: Option<uint64>)
    returns (pruner: Option<RandomPruner>, started: bool)
    ensures pruner.Some? <==> diskUsage.Some?
    ensures pruner.Some? ==>
      var initial := Pruner(Effective(cfg), inner, diskUsage.value, 0, map[], false);
      && fresh(pruner.value) && pruner.value.Valid() && pruner.value.History == []
      && pruner.value.Value() == AfterPoll(initial, now, usage)
      && started == PollStarts(initial, now, usage)
  {
    if diskUsage.None? {
      return None, false;
    }
    var p := new RandomPruner(codec, inner, cfg, diskUsage.value);
    started := p.Poll(now, usage);
    pruner := Some(p);
  }
}
