/** A prune that nobody interrupts: the steps of the interleaving model and the
    method that the code runs come to the same. */
module PruneSection {
  import opened Common
  import opened Pins
  import opened RecordFile
  import opened PruneLoop
  import opened PrunerSpec
  import opened PrunerRuns
  import opened PrunerTheorems
  import opened PinnedDeletion

  /** The prune has scanned these keys, and left these pins. */
  function ScanOf(r: RState, g: PruneId, scanned: seq<Scanned>, pins: Table, now: int): RState {
    r.(p := r.p.(pins := pins), prunes := r.prunes[g := Scanning(scanned)],
       file := Encode(Texts(r.codec, Cids(scanned))), clock := now)
  }

  /** Its deletion loop stands at l, or has ended there. */
  function Looped(r: RState, g: PruneId, scanned: seq<Scanned>, target: nat, l: Loop): RState {
    var pc :=
      if Going(l, target) then Drawing(scanned, l.bytesPruned, l.notFoundCount, l.deleted)
      else Done(scanned, l.deleted, l.bytesPruned,
                if l.status.GaveUp? then TooManyMisses else if l.status.Errored? then StoreFailed else ReachedTarget);
    r.(p := r.p.(store := l.store, size := l.size, pruneLk := r.p.pruneLk && Going(l, target)),
       prunes := r.prunes[g := pc])
  }

  lemma SkipsPinned(r: RState, g: PruneId, scanned: seq<Scanned>, pins: Table, now: int, c: Cid, at: int)
    requires now <= at && Holds(pins, r.p.cfg.pinDuration, c, at)
    ensures var t := ScanOf(r, g, scanned, pins, now);
      && Enabled(t, ScanKey(g, c, at))
      && Apply(t, ScanKey(g, c, at)) == ScanOf(r, g, scanned, AfterQuery(pins, r.p.cfg.pinDuration, c, at), at)
  {
  }

  lemma WritesUnpinned(r: RState, g: PruneId, scanned: seq<Scanned>, pins: Table, now: int, c: Cid, at: int)
    requires now <= at && !Holds(pins, r.p.cfg.pinDuration, c, at)
    ensures var t, longer := ScanOf(r, g, scanned, pins, now), scanned + [Scanned(c, at, |r.history|)];
      && Enabled(t, ScanKey(g, c, at))
      && Apply(t, ScanKey(g, c, at)) == ScanOf(r, g, longer, AfterQuery(pins, r.p.cfg.pinDuration, c, at), at)
  {
    RecordAppended(r.codec, scanned, Scanned(c, at, |r.history|));
  }

  lemma ScansOne(r: RState, g: PruneId, scanned: seq<Scanned>, pins: Table, now: int, c: Cid, at: int)
    returns (longer: seq<Scanned>)
    requires now <= at
    ensures var t := ScanOf(r, g, scanned, pins, now);
      && Enabled(t, ScanKey(g, c, at))
      && Apply(t, ScanKey(g, c, at)) == ScanOf(r, g, longer, AfterQuery(pins, r.p.cfg.pinDuration, c, at), at)
    ensures Cids(longer) == Cids(scanned) + if Holds(pins, r.p.cfg.pinDuration, c, at) then [] else [c]
  {
    if Holds(pins, r.p.cfg.pinDuration, c, at) {
      SkipsPinned(r, g, scanned, pins, now, c, at);
      longer := scanned;
    } else {
      WritesUnpinned(r, g, scanned, pins, now, c, at);
      longer := scanned + [Scanned(c, at, |r.history|)];
      assert Cids(longer) == Cids(scanned) + [c];
    }
  }

  /** The keys are looked at one after the other, as ScanKeys does. */
  lemma {:induction false} ScanRuns(r: RState, g: PruneId, keys: seq<Cid>, clock: nat -> int)
    returns (trace: seq<Action>, scanned: seq<Scanned>)
    requires ClockFrom(r.clock, clock)
    ensures var s := ScanKeys(r.p.pins, r.p.cfg.pinDuration, keys, clock);
      && Cids(scanned) == s.cids
      && Run(ScanOf(r, g, [], r.p.pins, r.clock), trace)
         == Some(ScanOf(r, g, scanned, s.pins, LastLook(r.clock, keys, clock)))
  {
    if keys == [] {
      trace, scanned := [], [];
    } else {
      var n := |keys| - 1;
      trace, scanned := ScanRuns(r, g, keys[..n], clock);
      var prior := ScanKeys(r.p.pins, r.p.cfg.pinDuration, keys[..n], clock);
      var last := LastLook(r.clock, keys[..n], clock);
      var longer := ScansOne(r, g, scanned, prior.pins, last, keys[n], clock(n));
      trace := Go(ScanOf(r, g, [], r.p.pins, r.clock), trace, ScanKey(g, keys[n], clock(n)));
      scanned := longer;
    }
  }

  /** The state between a draw that leaves the loop at m and what follows it. */
  function Drawn(r: RState, g: PruneId, scanned: seq<Scanned>, m: Loop): RState {
    r.(p := r.p.(store := m.store, size := m.size),
       prunes := r.prunes[g := Drawing(scanned, m.bytesPruned, m.notFoundCount, m.deleted)])
  }

  lemma DrawsOne(r: RState, g: PruneId, scanned: seq<Scanned>, l: Loop, d: Draw)
    requires scanned != [] && Going(l, r.p.cfg.pruneBytes)
    ensures var t := Looped(r, g, scanned, r.p.cfg.pruneBytes, l);
      var m := Turn(FileLines(r, scanned), l, d);
      && Enabled(t, DrawBlock(g, d))
      && Apply(t, DrawBlock(g, d))
         == if m.status.Running? then Drawn(r, g, scanned, m) else Looped(r, g, scanned, r.p.cfg.pruneBytes, m)
  {
    var t := Looped(r, g, scanned, r.p.cfg.pruneBytes, l);
    assert t == Drawn(r, g, scanned, l) && LoopAt(t, t.prunes[g]) == l;
  }

  lemma DrawnContinues(r: RState, g: PruneId, scanned: seq<Scanned>, m: Loop)
    requires m.status.Running?
    ensures var t, u := Drawn(r, g, scanned, m), Looped(r, g, scanned, r.p.cfg.pruneBytes, m);
      if m.bytesPruned >= r.p.cfg.pruneBytes then Enabled(t, FinishPrune(g)) && Apply(t, FinishPrune(g)) == u
      else t == u
  {
  }

  /** The draws follow one another, as Turns does. */
  lemma {:induction false} DrawRuns(r: RState, g: PruneId, scanned: seq<Scanned>, draws: seq<Draw>)
    returns (trace: seq<Action>)
    requires scanned != [] && Going(Start(r.p.store, r.p.size), r.p.cfg.pruneBytes)
    ensures var l := Start(r.p.store, r.p.size);
      Run(Looped(r, g, scanned, r.p.cfg.pruneBytes, l), trace)
      == Some(Looped(r, g, scanned, r.p.cfg.pruneBytes, Turns(FileLines(r, scanned), r.p.cfg.pruneBytes, l, draws)))
    decreases |draws|
  {
    if draws == [] {
      trace := [];
    } else {
      var n := |draws| - 1;
      var l, lines, target := Start(r.p.store, r.p.size), FileLines(r, scanned), r.p.cfg.pruneBytes;
      trace := DrawRuns(r, g, scanned, draws[..n]);
      TurnsAppend(lines, target, l, draws);
      var m := Turns(lines, target, l, draws[..n]);
      if Going(m, target) {
        DrawsOne(r, g, scanned, m, draws[n]);
        trace := Go(Looped(r, g, scanned, target, l), trace, DrawBlock(g, draws[n]));
        var next := Turn(lines, m, draws[n]);
        if next.status.Running? {
          DrawnContinues(r, g, scanned, next);
        }
        if next.status.Running? && next.bytesPruned >= target {
          trace := Go(Looped(r, g, scanned, target, l), trace, FinishPrune(g));
        }
      }
    }
  }

  lemma {:induction false} Chain(r: RState, first: seq<Action>, more: seq<Action>)
    requires Run(r, first).Some?
    ensures Run(r, first + more) == Run(Run(r, first).value, more)
    decreases |more|
  {
    if more == [] {
      assert first + more == first;
    } else {
      Chain(r, first, more[..|more| - 1]);
      assert (first + more)[..|first + more| - 1] == first + more[..|more| - 1];
    }
  }

  /** From its launch to the end of its scan. */
  lemma ScanIsASection(r: RState, g: PruneId, keys: seq<Cid>, clock: nat -> int)
    returns (trace: seq<Action>, scanned: seq<Scanned>)
    requires g in r.prunes && r.prunes[g].Launched? && ClockFrom(r.clock, clock)
    ensures var s := ScanKeys(r.p.pins, r.p.cfg.pinDuration, keys, clock);
      && Cids(scanned) == s.cids
      && Run(r, trace) == Some(ScanOf(r, g, scanned, s.pins, LastLook(r.clock, keys, clock)))
  {
    var begin := Go(r, [], BeginScan(g));
    assert Run(r, begin).value == ScanOf(r, g, [], r.p.pins, r.clock);
    var scans;
    scans, scanned := ScanRuns(r, g, keys, clock);
    Chain(r, begin, scans);
    trace := begin + scans;
  }

  /** A prune that nobody interrupts, under every listing of the keys, every clock and
      every draw sequence: in the interleaving model there is a run of it that leaves
      the pins, the file, the store and the tracked size as the method Prune does, has
      deleted the same, and has ended, with the lock released, exactly if the deletion
      loop has. */
  lemma PruneIsASection(r: RState, g: PruneId, keys: seq<Cid>, clock: nat -> int, draws: seq<Draw>)
    returns (trace: seq<Action>, scanned: seq<Scanned>)
    requires g in r.prunes && r.prunes[g].Launched? && r.p.pruneLk && ClockFrom(r.clock, clock)
    ensures var s := ScanKeys(r.p.pins, r.p.cfg.pinDuration, keys, clock);
      var file := Encode(Texts(r.codec, s.cids));
      var u := r.(p := r.p.(pins := s.pins), file := file, clock := LastLook(r.clock, keys, clock));
      && Cids(scanned) == s.cids
      && Run(r, trace) == Some(
           if s.cids == [] then End(u, g, Done([], [], 0, NothingScanned))
           else Looped(u, g, scanned, r.p.cfg.pruneBytes,
                       Turns(LinesOf(r.codec, file, |s.cids|), r.p.cfg.pruneBytes, Start(r.p.store, r.p.size), draws)))
  {
    trace, scanned := ScanIsASection(r, g, keys, clock);
    var s := ScanKeys(r.p.pins, r.p.cfg.pinDuration, keys, clock);
    var u := r.(p := r.p.(pins := s.pins), file := Encode(Texts(r.codec, s.cids)),
                clock := LastLook(r.clock, keys, clock));
    assert |scanned| == |Cids(scanned)|;
    EndsScan(u, g, scanned, r.prunes);
    trace := Go(r, trace, EndScan(g));
    if scanned != [] {
      var l := Start(r.p.store, r.p.size);
      if !Going(l, r.p.cfg.pruneBytes) {
        trace := Go(r, trace, FinishPrune(g));
        DrawsNothing(FileLines(u, scanned), r.p.cfg.pruneBytes, l, draws);
      } else {
        var more := DrawRuns(u, g, scanned, draws);
        Chain(r, trace, more);
        trace := trace + more;
      }
    }
  }

  lemma DrawsNothing(lines: Lines, target: nat, l: Loop, draws: seq<Draw>)
    requires lines != [] && !Going(l, target)
    ensures Turns(lines, target, l, draws) == l
  {
  }

  /** The step between the two halves. */
  lemma EndsScan(u: RState, g: PruneId, scanned: seq<Scanned>, prunes: map<PruneId, PrunePc>)
    requires u.prunes == prunes && u.p.pruneLk
    ensures var t := u.(prunes := prunes[g := Scanning(scanned)]);
      var l := Start(u.p.store, u.p.size);
      var target := u.p.cfg.pruneBytes;
      && Enabled(t, EndScan(g))
      && var v := Apply(t, EndScan(g));
         if scanned == [] then v == End(u, g, Done([], [], 0, NothingScanned))
         else if Going(l, target) then v == Looped(u, g, scanned, target, l)
         else Enabled(v, FinishPrune(g)) && Apply(v, FinishPrune(g)) == Looped(u, g, scanned, target, l)
  {
  }
}
