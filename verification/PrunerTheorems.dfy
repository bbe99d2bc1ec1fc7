/** Whole-run properties of the pruner: at most one prune is alive and its file is
    stable, only keys that were unpinned when scanned are deleted, the number of
    draws is bounded, and the tracked size covers the stored bytes. */
module PrunerTheorems {
  import opened Common
  import opened Uint64
  import opened Pins
  import opened RecordFile
  import opened PruneLoop
  import opened PrunerSpec
  import opened PrunerRuns

  predicate Alive(pc: PrunePc) {
    !pc.Done?
  }

  /** pruneLk is held exactly while a prune is alive, and one at most is. */
  ghost predicate LockInv(r: RState) {
    && (forall g, h | g in r.prunes && h in r.prunes && Alive(r.prunes[g]) && Alive(r.prunes[h]) :: g == h)
    && (forall g | g in r.prunes && Alive(r.prunes[g]) :: r.p.pruneLk)
  }

  ghost predicate AnyAlive(prunes: map<PruneId, PrunePc>) {
    exists g | g in prunes :: Alive(prunes[g])
  }

  /** A prune that scans or draws finds in the file exactly the keys it wrote. */
  ghost predicate FileOK(codec: Codec, file: string, pc: PrunePc) {
    pc.Scanning? || pc.Drawing? ==>
      && file == Encode(Texts(codec, Cids(pc.scanned)))
      && (pc.Drawing? ==> pc.scanned != [] && pc.notFoundCount <= MAX_NOT_FOUND)
  }

  ghost predicate FileInv(r: RState) {
    forall g | g in r.prunes :: FileOK(r.codec, r.file, r.prunes[g])
  }

  /** When x was scanned, no use recorded by then was younger than the pin duration. */
  ghost predicate UnpinnedAtScan(history: seq<Use>, duration: int, x: Scanned) {
    && x.uses <= |history|
    && (forall i | 0 <= i < x.uses && history[i].cid == x.cid :: x.at - history[i].at >= duration)
  }

  function ScannedOf(pc: PrunePc): seq<Scanned> {
    if pc.Launched? then [] else pc.scanned
  }

  function DeletedOf(pc: PrunePc): seq<Cid> {
    if pc.Drawing? || pc.Done? then pc.deleted else []
  }

  ghost predicate ScanOK(history: seq<Use>, duration: int, scanned: seq<Scanned>) {
    forall x | x in scanned :: UnpinnedAtScan(history, duration, x)
  }

  ghost predicate ScanInv(r: RState) {
    forall g | g in r.prunes :: ScanOK(r.history, r.p.cfg.pinDuration, ScannedOf(r.prunes[g]))
  }

  /** No key was scanned in the future. */
  ghost predicate ScannedBy(clock: int, scanned: seq<Scanned>) {
    forall x | x in scanned :: x.at <= clock
  }

  ghost predicate TimeInv(r: RState) {
    forall g | g in r.prunes :: ScannedBy(r.clock, ScannedOf(r.prunes[g]))
  }

  /** If no text but the last is too long, a prune has deleted only keys it scanned. */
  ghost predicate DeletedOnlyScanned(codec: Codec, pc: PrunePc) {
    ShortButLast(codec, Cids(ScannedOf(pc))) ==> forall c | c in DeletedOf(pc) :: c in Cids(ScannedOf(pc))
  }

  ghost predicate DeletedInv(r: RState) {
    forall g | g in r.prunes :: DeletedOnlyScanned(r.codec, r.prunes[g])
  }

  ghost predicate PinInv(r: RState) {
    Reflects(r.p.pins, r.history, r.p.cfg.pinDuration, r.clock)
  }

  ghost predicate Inv(r: RState) {
    && Faithful(r.codec)
    && LockInv(r)
    && (r.p.pruneLk ==> AnyAlive(r.prunes))
    && FileInv(r)
    && ScanInv(r)
    && TimeInv(r)
    && DeletedInv(r)
    && PinInv(r)
    && Accounted(r.p, r.drift)
  }

  lemma InitInv(codec: Codec, cfg: Config, store: Store, diskUsage: uint64)
    requires Faithful(codec)
    ensures Inv(Init(codec, cfg, store, diskUsage))
  {
    assert diskUsage == diskUsage + Whole(0);
  }

  lemma PinStep(r: RState, a: Action)
    requires Inv(r) && Enabled(r, a)
    ensures PinInv(Apply(r, a))
  {
    if a.PutBlocks? {
      PinAllReflects(r.p.pins, r.history, r.p.cfg.pinDuration, r.clock, a.bs, a.now);
    } else if a.PollTick? {
      LaterReflects(r.p.pins, r.history, r.p.cfg.pinDuration, r.clock, a.now);
    } else if a.ScanKey? {
      QueryReflects(r.p.pins, r.history, r.p.cfg.pinDuration, r.clock, a.cid, a.now);
    }
  }

  lemma DrawAccounted(r: RState, g: PruneId, d: Draw)
    requires Accounted(r.p, r.drift) && Enabled(r, DrawBlock(g, d))
    ensures Accounted(ApplyDraw(r, g, d).p, r.drift)
  {
    var pick := Pick(FileLines(r, r.prunes[g].scanned), d);
    if pick.Some? {
      DeleteAccounted(r.p, r.drift, pick.value, d.sizeFault, d.deleteFault);
    }
  }

  lemma SizeStep(r: RState, a: Action)
    requires Accounted(r.p, r.drift) && Enabled(r, a)
    ensures Accounted(Apply(r, a).p, Apply(r, a).drift)
  {
    if a.PutBlocks? {
      PutAccounted(r.p, r.drift, a.bs, a.now, a.usage, a.failAfter);
    } else if a.PollTick? {
      PollAccounted(r.p, r.drift, a.now, a.usage);
    } else if a.DeleteBlock? {
      DeleteAccounted(r.p, r.drift, a.cid, a.sizeFault, a.deleteFault);
    } else if a.DrawBlock? {
      DrawAccounted(r, a.g, a.draw);
    }
  }

  lemma LockStep(r: RState, a: Action)
    requires LockInv(r) && Enabled(r, a)
    ensures LockInv(Apply(r, a))
  {
  }

  /** While the lock is held, some prune is alive. */
  lemma HolderStep(r: RState, a: Action)
    requires LockInv(r) && (r.p.pruneLk ==> AnyAlive(r.prunes)) && Enabled(r, a)
    ensures Apply(r, a).p.pruneLk ==> AnyAlive(Apply(r, a).prunes)
  {
    var t := Apply(r, a);
    if t.p.pruneLk && r.p.pruneLk {
      var g :| g in r.prunes && Alive(r.prunes[g]);
      assert g in t.prunes && Alive(t.prunes[g]);
    } else if t.p.pruneLk {
      assert a.g in t.prunes && Alive(t.prunes[a.g]);
    }
  }

  lemma RecordAppended(codec: Codec, scanned: seq<Scanned>, x: Scanned)
    ensures Encode(Texts(codec, Cids(scanned + [x]))) == Encode(Texts(codec, Cids(scanned))) + Record(codec.show(x.cid))
  {
    var texts := Texts(codec, Cids(scanned + [x]));
    assert texts[..|texts| - 1] == Texts(codec, Cids(scanned));
  }

  lemma ScanKeepsFile(r: RState, g: PruneId, c: Cid, now: int)
    requires LockInv(r) && FileInv(r) && Enabled(r, ScanKey(g, c, now))
    ensures FileInv(Apply(r, ScanKey(g, c, now)))
  {
    var t := Apply(r, ScanKey(g, c, now));
    assert FileOK(r.codec, r.file, r.prunes[g]);
    RecordAppended(r.codec, r.prunes[g].scanned, Scanned(c, now, |r.history|));
    forall h | h in t.prunes ensures FileOK(t.codec, t.file, t.prunes[h]) {
      assert FileOK(r.codec, r.file, r.prunes[h]);
    }
  }

  lemma FileStep(r: RState, a: Action)
    requires LockInv(r) && FileInv(r) && Enabled(r, a)
    ensures FileInv(Apply(r, a))
  {
    if a.ScanKey? {
      ScanKeepsFile(r, a.g, a.cid, a.now);
    } else {
      var t := Apply(r, a);
      forall g | g in t.prunes ensures FileOK(t.codec, t.file, t.prunes[g]) {
        assert g in r.prunes ==> FileOK(r.codec, r.file, r.prunes[g]);
      }
    }
  }

  lemma HistoryGrows(history: seq<Use>, more: seq<Use>, duration: int, scanned: seq<Scanned>)
    requires ScanOK(history, duration, scanned)
    ensures ScanOK(history + more, duration, scanned)
  {
    forall x | x in scanned ensures UnpinnedAtScan(history + more, duration, x) {
      assert UnpinnedAtScan(history, duration, x);
    }
  }

  lemma KeyIsUnpinned(r: RState, c: Cid, now: int, scanned: seq<Scanned>)
    requires PinInv(r) && r.clock <= now && !Holds(r.p.pins, r.p.cfg.pinDuration, c, now)
    requires ScanOK(r.history, r.p.cfg.pinDuration, scanned)
    ensures ScanOK(r.history, r.p.cfg.pinDuration, scanned + [Scanned(c, now, |r.history|)])
  {
    LaterReflects(r.p.pins, r.history, r.p.cfg.pinDuration, r.clock, now);
    AnswerIsExact(r.p.pins, r.history, r.p.cfg.pinDuration, now, c);
    var scan := Scanned(c, now, |r.history|);
    assert forall x | x in scanned + [scan] :: x in scanned || x == scan;
  }

  lemma ScanStep(r: RState, a: Action)
    requires PinInv(r) && ScanInv(r) && Enabled(r, a)
    ensures ScanInv(Apply(r, a))
  {
    var t := Apply(r, a);
    if a.ScanKey? && !Holds(r.p.pins, r.p.cfg.pinDuration, a.cid, a.now) {
      KeyIsUnpinned(r, a.cid, a.now, r.prunes[a.g].scanned);
    }
    forall g | g in t.prunes ensures ScanOK(t.history, t.p.cfg.pinDuration, ScannedOf(t.prunes[g])) {
      if g in r.prunes && a.PutBlocks? {
        HistoryGrows(r.history, UsesOf(a.bs, a.now), r.p.cfg.pinDuration, ScannedOf(r.prunes[g]));
      }
    }
  }

  lemma TimeStep(r: RState, a: Action)
    requires TimeInv(r) && Enabled(r, a)
    ensures TimeInv(Apply(r, a))
  {
    var t := Apply(r, a);
    forall g | g in t.prunes ensures ScannedBy(t.clock, ScannedOf(t.prunes[g])) {
      if g in r.prunes {
        assert ScannedBy(r.clock, ScannedOf(r.prunes[g]));
        if a.ScanKey? && a.g == g {
          assert forall x | x in ScannedOf(t.prunes[g]) :: x in ScannedOf(r.prunes[g]) || x.at == a.now;
        }
      }
    }
  }

  /** One iteration deletes nothing but a key that its prune scanned. */
  lemma DrawDeletesScanned(codec: Codec, file: string, pc: PrunePc, l: Loop, d: Draw)
    requires Faithful(codec) && pc.Drawing? && FileOK(codec, file, pc) && DeletedOnlyScanned(codec, pc)
    requires l.deleted == pc.deleted && ShortButLast(codec, Cids(pc.scanned))
    ensures forall c | c in Turn(LinesOf(codec, file, |pc.scanned|), l, d).deleted :: c in Cids(pc.scanned)
  {
    OwnFileReads(codec, Cids(pc.scanned));
    var lines := AllRead(Cids(pc.scanned));
    assert Pick(lines, d) in lines && Pick(lines, d).value in Candidates(lines);
    var m := Turn(lines, l, d);
    assert forall c | c in m.deleted :: c in l.deleted || c == Pick(lines, d).value;
  }

  lemma DrawKeepsDeleted(r: RState, g: PruneId, d: Draw)
    requires Faithful(r.codec) && FileInv(r) && DeletedInv(r) && Enabled(r, DrawBlock(g, d))
    ensures DeletedOnlyScanned(r.codec, Apply(r, DrawBlock(g, d)).prunes[g])
  {
    var pc := r.prunes[g];
    assert DeletedOnlyScanned(r.codec, pc) && FileOK(r.codec, r.file, pc);
    if ShortButLast(r.codec, Cids(pc.scanned)) {
      DrawDeletesScanned(r.codec, r.file, pc, LoopAt(r, pc), d);
    }
  }

  lemma OthersKeepDeleted(r: RState, a: Action, g: PruneId)
    requires DeletedInv(r) && Enabled(r, a) && g in Apply(r, a).prunes && !(a.DrawBlock? && a.g == g)
    ensures DeletedOnlyScanned(r.codec, Apply(r, a).prunes[g])
  {
    if g in r.prunes {
      assert DeletedOnlyScanned(r.codec, r.prunes[g]);
    }
  }

  lemma DeletedStep(r: RState, a: Action)
    requires Faithful(r.codec) && FileInv(r) && DeletedInv(r) && Enabled(r, a)
    ensures DeletedInv(Apply(r, a))
  {
    var t := Apply(r, a);
    forall g | g in t.prunes ensures DeletedOnlyScanned(t.codec, t.prunes[g]) {
      if a.DrawBlock? && a.g == g {
        DrawKeepsDeleted(r, g, a.draw);
      } else {
        OthersKeepDeleted(r, a, g);
      }
    }
  }

  lemma InvStep(r: RState, a: Action)
    requires Inv(r) && Enabled(r, a)
    ensures Inv(Apply(r, a))
  {
    LockStep(r, a);
    HolderStep(r, a);
    FileStep(r, a);
    ScanStep(r, a);
    TimeStep(r, a);
    DeletedStep(r, a);
    PinStep(r, a);
    SizeStep(r, a);
  }

  lemma {:induction false} ReachableInv(codec: Codec, cfg: Config, store: Store, diskUsage: uint64, trace: seq<Action>)
    requires Faithful(codec) && Run(Init(codec, cfg, store, diskUsage), trace).Some?
    ensures Inv(Run(Init(codec, cfg, store, diskUsage), trace).value)
  {
    if trace == [] {
      InitInv(codec, cfg, store, diskUsage);
    } else {
      var n := |trace| - 1;
      ReachableInv(codec, cfg, store, diskUsage, trace[..n]);
      InvStep(Run(Init(codec, cfg, store, diskUsage), trace[..n]).value, trace[n]);
    }
  }

  // ----- theorems -----

  /** At most one prune is alive in any run; and whenever it draws, reading index i
      of the shared file gives the i-th key it scanned, if no text but the last is too long. */
  lemma OnePruneAndItsFile(codec: Codec, cfg: Config, store: Store, diskUsage: uint64, trace: seq<Action>, g: PruneId,
          h: PruneId)
    requires Faithful(codec) && Run(Init(codec, cfg, store, diskUsage), trace).Some?
    ensures var r := Run(Init(codec, cfg, store, diskUsage), trace).value;
      && (g in r.prunes && h in r.prunes && Alive(r.prunes[g]) && Alive(r.prunes[h]) ==> g == h)
      && (g in r.prunes && r.prunes[g].Drawing? && ShortButLast(r.codec, Cids(r.prunes[g].scanned)) ==>
            FileLines(r, r.prunes[g].scanned) == AllRead(Cids(r.prunes[g].scanned)))
  {
    ReachableInv(codec, cfg, store, diskUsage, trace);
    var r := Run(Init(codec, cfg, store, diskUsage), trace).value;
    if g in r.prunes && r.prunes[g].Drawing? && ShortButLast(r.codec, Cids(r.prunes[g].scanned)) {
      assert FileOK(r.codec, r.file, r.prunes[g]);
      OwnFileReads(r.codec, Cids(r.prunes[g].scanned));
    }
  }

  /** Pin safety: every CID a prune deleted, in any run, is one it scanned at a moment
      at which no use of that CID was younger than the pin duration. */
  lemma PinSafety(codec: Codec, cfg: Config, store: Store, diskUsage: uint64, trace: seq<Action>, g: PruneId, c: Cid)
    requires Faithful(codec) && Run(Init(codec, cfg, store, diskUsage), trace).Some?
    ensures var r := Run(Init(codec, cfg, store, diskUsage), trace).value;
      g in r.prunes && ShortButLast(r.codec, Cids(ScannedOf(r.prunes[g]))) && c in DeletedOf(r.prunes[g]) ==>
        exists x :: x in ScannedOf(r.prunes[g]) && x.cid == c && UnpinnedAtScan(r.history, r.p.cfg.pinDuration, x)
  {
    ReachableInv(codec, cfg, store, diskUsage, trace);
    var r := Run(Init(codec, cfg, store, diskUsage), trace).value;
    if g in r.prunes && ShortButLast(r.codec, Cids(ScannedOf(r.prunes[g]))) && c in DeletedOf(r.prunes[g]) {
      var scanned := ScannedOf(r.prunes[g]);
      assert DeletedOnlyScanned(r.codec, r.prunes[g]);
      var i :| 0 <= i < |Cids(scanned)| && Cids(scanned)[i] == c;
      assert scanned[i] in scanned && ScanOK(r.history, r.p.cfg.pinDuration, scanned);
    }
  }

  lemma DrawOfOwnFile(cids: seq<Cid>, l: Loop, d: Draw)
    requires cids != []
    ensures var c, m := cids[d.n % |cids|], Turn(AllRead(cids), l, d);
      if !d.sizeFault && c in l.store && !d.deleteFault then m.deleted == l.deleted + [c] && c !in m.store
      else m.deleted == l.deleted
  {
  }

  /** Some use of x was recorded after x was scanned and is younger than the pin duration. */
  ghost predicate UsedSince(history: seq<Use>, duration: int, x: Scanned, now: int) {
    exists i | x.uses <= i < |history| :: history[i].cid == x.cid && now - history[i].at < duration
  }

  lemma PinnedSinceScan(r: RState, x: Scanned)
    requires PinInv(r) && UnpinnedAtScan(r.history, r.p.cfg.pinDuration, x) && x.at <= r.clock
    ensures Holds(r.p.pins, r.p.cfg.pinDuration, x.cid, r.clock)
       <==> UsedSince(r.history, r.p.cfg.pinDuration, x, r.clock)
  {
    AnswerIsExact(r.p.pins, r.history, r.p.cfg.pinDuration, r.clock, x.cid);
    if PinnedBy(r.history, r.p.cfg.pinDuration, x.cid, r.clock) {
      var i :| 0 <= i < |r.history| && r.history[i].cid == x.cid && r.clock - r.history[i].at < r.p.cfg.pinDuration;
      assert x.uses <= i;
    }
  }

  /** Pins at the moment of deletion, exactly. In every run, a draw of a scanned key
      deletes it if and only if its block is there and the store does not fail: the
      pin is not looked at again. And at that moment the key is pinned if and only if
      it was used, less than the pin duration ago, after it was scanned. */
  lemma ScannedIsDoomed(codec: Codec, cfg: Config, store: Store, diskUsage: uint64, trace: seq<Action>, g: PruneId,
          d: Draw)
    requires Faithful(codec) && Run(Init(codec, cfg, store, diskUsage), trace).Some?
    requires var r := Run(Init(codec, cfg, store, diskUsage), trace).value;
      Enabled(r, DrawBlock(g, d)) && ShortButLast(r.codec, Cids(r.prunes[g].scanned))
    ensures var r := Run(Init(codec, cfg, store, diskUsage), trace).value;
      var t := Apply(r, DrawBlock(g, d));
      var x := r.prunes[g].scanned[d.n % |r.prunes[g].scanned|];
      && DeletedOf(t.prunes[g])
         == DeletedOf(r.prunes[g]) + (if Deletes(r.p, x.cid, d.sizeFault, d.deleteFault) then [x.cid] else [])
      && (Deletes(r.p, x.cid, d.sizeFault, d.deleteFault) ==> x.cid !in t.p.store)
      && (Holds(r.p.pins, r.p.cfg.pinDuration, x.cid, r.clock)
          <==> UsedSince(r.history, r.p.cfg.pinDuration, x, r.clock))
  {
    ReachableInv(codec, cfg, store, diskUsage, trace);
    var r := Run(Init(codec, cfg, store, diskUsage), trace).value;
    var pc := r.prunes[g];
    var x := pc.scanned[d.n % |pc.scanned|];
    assert FileOK(r.codec, r.file, pc);
    assert ScanOK(r.history, r.p.cfg.pinDuration, pc.scanned) && ScannedBy(r.clock, pc.scanned);
    OwnFileReads(r.codec, Cids(pc.scanned));
    DrawOfOwnFile(Cids(pc.scanned), LoopAt(r, pc), d);
    PinnedSinceScan(r, x);
  }

  // ----- the deletion loop under interference -----

  /** What is left of the budget of prune g, or -1 once it has ended. */
  ghost function Left(r: RState, g: PruneId): int {
    if g in r.prunes && r.prunes[g].Drawing? then Budget(FileLines(r, r.prunes[g].scanned), LoopAt(r, r.prunes[g]))
    else -1
  }

  function DrawsOf(trace: seq<Action>, g: PruneId): nat {
    if trace == [] then 0
    else DrawsOf(trace[..|trace| - 1], g) + if trace[|trace| - 1].DrawBlock? && trace[|trace| - 1].g == g then 1 else 0
  }

  /** How many blocks were handed to Put and PutMany. */
  function BlocksPut(trace: seq<Action>): nat {
    if trace == [] then 0
    else BlocksPut(trace[..|trace| - 1]) + if trace[|trace| - 1].PutBlocks? then |trace[|trace| - 1].bs| else 0
  }

  lemma StoreShrinks(lines: Lines, l: Loop, m: Loop)
    requires m.store.Keys <= l.store.Keys && m.notFoundCount == l.notFoundCount
    ensures Budget(lines, m) <= Budget(lines, l)
  {
    SubsetSize(Candidates(lines) * m.store.Keys, Candidates(lines) * l.store.Keys);
  }

  lemma DrawSpends(r: RState, g: PruneId, d: Draw)
    requires Faithful(r.codec) && FileInv(r) && Enabled(r, DrawBlock(g, d))
    requires ShortButLast(r.codec, Cids(r.prunes[g].scanned))
    ensures Left(Apply(r, DrawBlock(g, d)), g) < Left(r, g)
  {
    var pc := r.prunes[g];
    assert FileOK(r.codec, r.file, pc);
    OwnFileReads(r.codec, Cids(pc.scanned));
    TurnDecreases(FileLines(r, pc.scanned), LoopAt(r, pc), d);
  }

  /** Nobody else moves a drawing prune or touches its file. */
  lemma DrawingUndisturbed(r: RState, a: Action, g: PruneId)
    requires LockInv(r) && Enabled(r, a) && g in r.prunes && r.prunes[g].Drawing?
    requires !a.PutBlocks? && !(a.DrawBlock? && a.g == g)
    ensures var t := Apply(r, a);
      && t.codec == r.codec && t.file == r.file && t.p.store.Keys <= r.p.store.Keys
      && g in t.prunes && (t.prunes[g] == r.prunes[g] || t.prunes[g].Done?)
  {
  }

  /** Any other step, except a Put, leaves the budget or shrinks it. */
  lemma OthersDoNotAdd(r: RState, a: Action, g: PruneId)
    requires LockInv(r) && Enabled(r, a) && g in r.prunes && r.prunes[g].Drawing?
    requires !a.PutBlocks? && !(a.DrawBlock? && a.g == g)
    ensures Left(Apply(r, a), g) <= Left(r, g) || !Apply(r, a).prunes[g].Drawing?
  {
    var t := Apply(r, a);
    DrawingUndisturbed(r, a, g);
    if t.prunes[g].Drawing? {
      StoreShrinks(FileLines(r, r.prunes[g].scanned), LoopAt(r, r.prunes[g]), LoopAt(t, t.prunes[g]));
    }
  }

  lemma {:induction false} WritesGrow(all: set<Cid>, store: Store, bs: seq<Data>)
    ensures |all * WriteAll(store, bs).Keys| <= |all * store.Keys| + |bs|
  {
    if bs != [] {
      var n := |bs| - 1;
      WritesGrow(all, store, bs[..n]);
      var before := all * WriteAll(store, bs[..n]).Keys;
      SubsetSize(all * WriteAll(store, bs).Keys, before + {bs[n].cid});
    }
  }

  /** A Put adds at most one deletion and its misses per block. */
  lemma PutAdds(r: RState, a: Action, g: PruneId)
    requires Enabled(r, a) && g in r.prunes && r.prunes[g].Drawing? && a.PutBlocks?
    ensures var t := Apply(r, a);
      && t.codec == r.codec && g in t.prunes && t.prunes[g] == r.prunes[g]
      && Left(t, g) <= Left(r, g) + (MAX_NOT_FOUND + 1) * |a.bs|
  {
    var lines := FileLines(r, r.prunes[g].scanned);
    WritesGrow(Candidates(lines), r.p.store, Written(a.bs, a.failAfter));
  }

  /** Prune g draws or has ended; no text but the last that it scanned is too long. */
  ghost predicate Underway(r: RState, g: PruneId) {
    && g in r.prunes && (r.prunes[g].Drawing? || r.prunes[g].Done?)
    && (r.prunes[g].Drawing? ==> ShortButLast(r.codec, Cids(r.prunes[g].scanned)))
  }

  lemma EndedStays(r: RState, a: Action, g: PruneId)
    requires Enabled(r, a) && g in r.prunes && r.prunes[g].Done?
    ensures g in Apply(r, a).prunes && Apply(r, a).prunes[g] == r.prunes[g]
  {
  }

  lemma LeftIsNat(r: RState, g: PruneId)
    requires FileInv(r) && g in r.prunes && r.prunes[g].Drawing?
    ensures 0 <= Left(r, g)
  {
    assert FileOK(r.codec, r.file, r.prunes[g]);
  }

  lemma DrawStays(r: RState, g: PruneId, d: Draw)
    requires Enabled(r, DrawBlock(g, d)) && Underway(r, g)
    ensures Underway(Apply(r, DrawBlock(g, d)), g)
  {
  }

  /** One step of anybody: a draw of g costs one, a Put adds eleven per block. */
  lemma BudgetStep(r: RState, a: Action, g: PruneId)
    requires Faithful(r.codec) && LockInv(r) && FileInv(r) && Enabled(r, a) && Underway(r, g)
    ensures Underway(Apply(r, a), g)
    ensures Left(Apply(r, a), g) + DrawsOf([a], g) <= Left(r, g) + (MAX_NOT_FOUND + 1) * BlocksPut([a])
  {
    assert [a][..0] == [];
    if r.prunes[g].Done? {
      EndedStays(r, a, g);
    } else if a.PutBlocks? {
      PutAdds(r, a, g);
    } else if a.DrawBlock? && a.g == g {
      DrawSpends(r, g, a.draw);
      DrawStays(r, g, a.draw);
    } else {
      DrawingUndisturbed(r, a, g);
      OthersDoNotAdd(r, a, g);
      LeftIsNat(r, g);
    }
  }

  lemma LastCounts(trace: seq<Action>, g: PruneId)
    requires trace != []
    ensures var n := |trace| - 1;
      && DrawsOf(trace, g) == DrawsOf(trace[..n], g) + DrawsOf([trace[n]], g)
      && BlocksPut(trace) == BlocksPut(trace[..n]) + BlocksPut([trace[n]])
  {
    assert [trace[|trace| - 1]][..0] == [];
  }

  lemma {:induction false} DrawsSpendBudget(r: RState, more: seq<Action>, g: PruneId)
    requires Inv(r) && Underway(r, g) && Run(r, more).Some?
    ensures var t := Run(r, more).value;
      && Inv(t) && Underway(t, g)
      && Left(t, g) + DrawsOf(more, g) <= Left(r, g) + (MAX_NOT_FOUND + 1) * BlocksPut(more)
  {
    if more != [] {
      var n := |more| - 1;
      DrawsSpendBudget(r, more[..n], g);
      var t := Run(r, more[..n]).value;
      InvStep(t, more[n]);
      BudgetStep(t, more[n], g);
      LastCounts(more, g);
    }
  }

  /** However other operations interleave, a prune of n keys makes at most
      11 * (n + 1 + b) more draws, where b counts the blocks put meanwhile. */
  lemma PruneDrawsAreBounded(codec: Codec, cfg: Config, store: Store, diskUsage: uint64, trace: seq<Action>,
                             more: seq<Action>, g: PruneId)
    requires Faithful(codec) && Run(Init(codec, cfg, store, diskUsage), trace).Some?
    requires var r := Run(Init(codec, cfg, store, diskUsage), trace).value;
      && g in r.prunes && r.prunes[g].Drawing? && ShortButLast(r.codec, Cids(r.prunes[g].scanned))
      && Run(r, more).Some?
    ensures var r := Run(Init(codec, cfg, store, diskUsage), trace).value;
      DrawsOf(more, g) <= 11 * (|r.prunes[g].scanned| + 1 + BlocksPut(more))
  {
    ReachableInv(codec, cfg, store, diskUsage, trace);
    var r := Run(Init(codec, cfg, store, diskUsage), trace).value;
    var lines := FileLines(r, r.prunes[g].scanned);
    DrawsSpendBudget(r, more, g);
    LeftIsAtLeast(Run(r, more).value, g);
    CandidatesBound(lines);
    SubsetSize(Candidates(lines) * r.p.store.Keys, Candidates(lines));
  }

  lemma LeftIsAtLeast(r: RState, g: PruneId)
    requires FileInv(r)
    ensures -1 <= Left(r, g)
  {
    if g in r.prunes && r.prunes[g].Drawing? {
      LeftIsNat(r, g);
    }
  }

  // ----- tracked size against stored bytes -----

  /** The assumptions under which the tracked size is meant to cover the store: the
      reported disk usage covers the stored bytes, and a failed write leaves no more
      bytes behind than it replaced. */
  ghost predicate Honest(r: RState, a: Action) {
    && (a.PutBlocks? || a.PollTick? ==> a.usage.Some? ==> a.usage.value >= Stored(r.p.store))
    && (a.PutBlocks? && a.failAfter.Some? ==>
          Length(Written(a.bs, a.failAfter)) <= Replaced(r.p.store, Written(a.bs, a.failAfter)))
  }

  /** The reported usage is exact, failed writes change nothing, and no written block
      was stored before. */
  ghost predicate Fresh(r: RState, a: Action) {
    && (a.PutBlocks? || a.PollTick? ==> a.usage.Some? ==> a.usage.value == Stored(r.p.store))
    && (a.PutBlocks? ==> if a.failAfter.Some? then Written(a.bs, a.failAfter) == [] else Replaced(r.p.store, a.bs) == 0)
  }

  ghost predicate AllHonest(r: RState, trace: seq<Action>) {
    forall k | 0 <= k < |trace| :: HonestAt(r, trace, k)
  }

  ghost predicate HonestAt(r: RState, trace: seq<Action>, k: nat)
    requires k < |trace|
  {
    Run(r, trace[..k]).Some? && Honest(Run(r, trace[..k]).value, trace[k])
  }

  ghost predicate AllFresh(r: RState, trace: seq<Action>) {
    forall k | 0 <= k < |trace| :: FreshAt(r, trace, k)
  }

  ghost predicate FreshAt(r: RState, trace: seq<Action>, k: nat)
    requires k < |trace|
  {
    Run(r, trace[..k]).Some? && Fresh(Run(r, trace[..k]).value, trace[k])
  }

  lemma DriftStep(r: RState, a: Action)
    requires Enabled(r, a)
    ensures 0 <= r.drift && Honest(r, a) ==> 0 <= Apply(r, a).drift
    ensures r.drift == 0 && Fresh(r, a) ==> Apply(r, a).drift == 0
  {
  }

  lemma {:induction false} HonestDrift(r: RState, trace: seq<Action>)
    requires Run(r, trace).Some? && 0 <= r.drift && AllHonest(r, trace)
    ensures 0 <= Run(r, trace).value.drift
  {
    if trace != [] {
      var n := |trace| - 1;
      forall k | 0 <= k < n ensures HonestAt(r, trace[..n], k) {
        assert HonestAt(r, trace, k) && trace[..n][..k] == trace[..k];
      }
      HonestDrift(r, trace[..n]);
      assert HonestAt(r, trace, n);
      DriftStep(Run(r, trace[..n]).value, trace[n]);
    }
  }

  lemma {:induction false} FreshDrift(r: RState, trace: seq<Action>)
    requires Run(r, trace).Some? && r.drift == 0 && AllFresh(r, trace)
    ensures Run(r, trace).value.drift == 0
  {
    if trace != [] {
      var n := |trace| - 1;
      forall k | 0 <= k < n ensures FreshAt(r, trace[..n], k) {
        assert FreshAt(r, trace, k) && trace[..n][..k] == trace[..k];
      }
      FreshDrift(r, trace[..n]);
      assert FreshAt(r, trace, n);
      DriftStep(Run(r, trace[..n]).value, trace[n]);
    }
  }

  /** The step takes over a reported disk usage. */
  predicate Reports(r: RState, a: Action) {
    (a.PutBlocks? || a.PollTick?) && a.usage.Some? && a.now - r.p.lastSizeUpdate > MINUTE
  }

  /** Bytes that the step counts although the block was stored before. */
  ghost function CountedTwice(r: RState, a: Action): nat {
    if a.PutBlocks? then Replaced(r.p.store, Written(a.bs, a.failAfter)) else 0
  }

  /** Bytes that a failing write leaves behind uncounted. */
  ghost function LeftBehind(r: RState, a: Action): nat {
    if a.PutBlocks? && a.failAfter.Some? then Length(Written(a.bs, a.failAfter)) else 0
  }

  ghost function CountedTwiceSince(r0: RState, trace: seq<Action>, k: nat): nat {
    if |trace| <= k || Run(r0, trace).None? then 0
    else
      var n := |trace| - 1;
      CountedTwiceSince(r0, trace[..n], k) + CountedTwice(Run(r0, trace[..n]).value, trace[n])
  }

  ghost function LeftBehindSince(r0: RState, trace: seq<Action>, k: nat): nat {
    if |trace| <= k || Run(r0, trace).None? then 0
    else
      var n := |trace| - 1;
      LeftBehindSince(r0, trace[..n], k) + LeftBehind(Run(r0, trace[..n]).value, trace[n])
  }

  ghost predicate ReportsAt(r0: RState, trace: seq<Action>, k: nat)
    requires k < |trace|
  {
    Run(r0, trace[..k]).Some? && Reports(Run(r0, trace[..k]).value, trace[k])
  }

  ghost predicate NoReportSince(r0: RState, trace: seq<Action>, k: nat) {
    forall j | k <= j < |trace| :: !ReportsAt(r0, trace, j)
  }

  lemma DriftMoves(r: RState, a: Action)
    requires Enabled(r, a)
    ensures Apply(r, a).drift
         == (if Reports(r, a) then a.usage.value - Stored(r.p.store) else r.drift)
            + CountedTwice(r, a) - LeftBehind(r, a)
  {
  }

  lemma PrefixReports(r0: RState, trace: seq<Action>, k: nat)
    requires trace != [] && NoReportSince(r0, trace, k)
    ensures NoReportSince(r0, trace[..|trace| - 1], k)
  {
    var prefix := trace[..|trace| - 1];
    forall j | k <= j < |prefix| ensures !ReportsAt(r0, prefix, j) {
      assert prefix[..j] == trace[..j] && !ReportsAt(r0, trace, j);
    }
  }

  /** The drift after a run without a report. */
  lemma {:induction false} DriftSinceStart(r0: RState, trace: seq<Action>)
    requires Run(r0, trace).Some? && NoReportSince(r0, trace, 0)
    ensures Run(r0, trace).value.drift == r0.drift + CountedTwiceSince(r0, trace, 0) - LeftBehindSince(r0, trace, 0)
  {
    if trace != [] {
      var n := |trace| - 1;
      PrefixReports(r0, trace, 0);
      DriftSinceStart(r0, trace[..n]);
      assert !ReportsAt(r0, trace, n);
      DriftMoves(Run(r0, trace[..n]).value, trace[n]);
    }
  }

  lemma DriftAtReport(r0: RState, trace: seq<Action>)
    requires trace != [] && Run(r0, trace).Some? && ReportsAt(r0, trace, |trace| - 1)
    ensures var n := |trace| - 1;
      Run(r0, trace).value.drift == trace[n].usage.value - Stored(Run(r0, trace[..n]).value.p.store)
                                    + CountedTwiceSince(r0, trace, n) - LeftBehindSince(r0, trace, n)
  {
    DriftMoves(Run(r0, trace[..|trace| - 1]).value, trace[|trace| - 1]);
  }

  lemma DriftGoesOn(r0: RState, trace: seq<Action>, k: nat)
    requires k + 1 < |trace| && Run(r0, trace).Some? && !ReportsAt(r0, trace, |trace| - 1)
    ensures var earlier := trace[..|trace| - 1];
      Run(r0, trace).value.drift == Run(r0, earlier).value.drift
                                    + CountedTwiceSince(r0, trace, k) - CountedTwiceSince(r0, earlier, k)
                                    - (LeftBehindSince(r0, trace, k) - LeftBehindSince(r0, earlier, k))
  {
    DriftMoves(Run(r0, trace[..|trace| - 1]).value, trace[|trace| - 1]);
  }

  /** The drift from a report on, whose own write counts too. */
  lemma {:induction false} DriftSinceReport(r0: RState, trace: seq<Action>, k: nat)
    requires Run(r0, trace).Some? && k < |trace| && ReportsAt(r0, trace, k) && NoReportSince(r0, trace, k + 1)
    ensures Run(r0, trace).value.drift == trace[k].usage.value - Stored(Run(r0, trace[..k]).value.p.store)
                                          + CountedTwiceSince(r0, trace, k) - LeftBehindSince(r0, trace, k)
  {
    var n := |trace| - 1;
    if n == k {
      DriftAtReport(r0, trace);
    } else {
      PrefixReports(r0, trace, k + 1);
      assert trace[..n][..k] == trace[..k];
      DriftSinceReport(r0, trace[..n], k);
      assert !ReportsAt(r0, trace, n);
      DriftGoesOn(r0, trace, k);
    }
  }

  /** What the tracked size is, after any run in which action k was the last to take over
      a disk usage: the stored bytes, plus what that report was above them, plus the
      bytes of blocks written again since, minus what failing writes left behind; as
      long as that is in range. */
  lemma SizeSinceReport(codec: Codec, cfg: Config, store: Store, diskUsage: uint64, trace: seq<Action>, k: nat)
    requires Faithful(codec) && Run(Init(codec, cfg, store, diskUsage), trace).Some? && k < |trace|
    requires ReportsAt(Init(codec, cfg, store, diskUsage), trace, k)
    requires NoReportSince(Init(codec, cfg, store, diskUsage), trace, k + 1)
    ensures var r0 := Init(codec, cfg, store, diskUsage);
      var r := Run(r0, trace).value;
      var gap := trace[k].usage.value - Stored(Run(r0, trace[..k]).value.p.store)
                 + CountedTwiceSince(r0, trace, k) - LeftBehindSince(r0, trace, k);
      0 <= Stored(r.p.store) + gap < U64 ==> r.p.size == Stored(r.p.store) + gap
  {
    ReachableInv(codec, cfg, store, diskUsage, trace);
    DriftSinceReport(Init(codec, cfg, store, diskUsage), trace, k);
    var r := Run(Init(codec, cfg, store, diskUsage), trace).value;
    if 0 <= Stored(r.p.store) + r.drift < U64 {
      ExactInRange(r.p, r.drift, Cid(0));
    }
  }

  /** The same before any report, from the disk usage the pruner started with. */
  lemma SizeSinceStart(codec: Codec, cfg: Config, store: Store, diskUsage: uint64, trace: seq<Action>)
    requires Faithful(codec) && Run(Init(codec, cfg, store, diskUsage), trace).Some?
    requires NoReportSince(Init(codec, cfg, store, diskUsage), trace, 0)
    ensures var r0 := Init(codec, cfg, store, diskUsage);
      var r := Run(r0, trace).value;
      var gap := diskUsage - Stored(store) + CountedTwiceSince(r0, trace, 0) - LeftBehindSince(r0, trace, 0);
      0 <= Stored(r.p.store) + gap < U64 ==> r.p.size == Stored(r.p.store) + gap
  {
    var r0 := Init(codec, cfg, store, diskUsage);
    ReachableInv(codec, cfg, store, diskUsage, trace);
    DriftSinceStart(r0, trace);
    var r := Run(r0, trace).value;
    if 0 <= Stored(r.p.store) + r.drift < U64 {
      ExactInRange(r.p, r.drift, Cid(0));
    }
  }

  /** Over every honest run the tracked size never falls below the stored bytes, and
      no deletion wraps it around, unless the additions themselves overflowed. */
  lemma SizeCoversStore(codec: Codec, cfg: Config, store: Store, diskUsage: uint64, trace: seq<Action>, c: Cid)
    requires Faithful(codec) && Run(Init(codec, cfg, store, diskUsage), trace).Some?
    requires diskUsage >= Stored(store) && AllHonest(Init(codec, cfg, store, diskUsage), trace)
    ensures var r := Run(Init(codec, cfg, store, diskUsage), trace).value;
      Stored(r.p.store) + r.drift < U64 ==>
        && Stored(r.p.store) <= r.p.size
        && (c in r.p.store ==> Sub64(r.p.size, r.p.store[c]) == r.p.size - r.p.store[c])
  {
    ReachableInv(codec, cfg, store, diskUsage, trace);
    HonestDrift(Init(codec, cfg, store, diskUsage), trace);
    var r := Run(Init(codec, cfg, store, diskUsage), trace).value;
    if Stored(r.p.store) + r.drift < U64 {
      ExactInRange(r.p, r.drift, c);
    }
  }

  /** With every written block fresh and every report exact, it equals them. */
  lemma SizeIsExactWhenFresh(codec: Codec, cfg: Config, store: Store, diskUsage: uint64, trace: seq<Action>)
    requires Faithful(codec) && Run(Init(codec, cfg, store, diskUsage), trace).Some?
    requires diskUsage == Stored(store) && AllFresh(Init(codec, cfg, store, diskUsage), trace)
    ensures var r := Run(Init(codec, cfg, store, diskUsage), trace).value;
      Stored(r.p.store) < U64 ==> r.p.size == Stored(r.p.store)
  {
    ReachableInv(codec, cfg, store, diskUsage, trace);
    FreshDrift(Init(codec, cfg, store, diskUsage), trace);
    var r := Run(Init(codec, cfg, store, diskUsage), trace).value;
    if Stored(r.p.store) < U64 {
      ExactInRange(r.p, r.drift, Cid(0));
    }
  }

  // ----- what never changes -----

  lemma ConstantsStep(r: RState, a: Action)
    requires Enabled(r, a)
    ensures var t := Apply(r, a);
      t.codec == r.codec && t.p.cfg == r.p.cfg && t.p.lastSizeUpdate == r.p.lastSizeUpdate
  {
  }

  lemma {:induction false} ConstantsStay(codec: Codec, cfg: Config, store: Store, diskUsage: uint64, trace: seq<Action>)
    requires Run(Init(codec, cfg, store, diskUsage), trace).Some?
    ensures var r := Run(Init(codec, cfg, store, diskUsage), trace).value;
      r.codec == codec && r.p.cfg == Effective(cfg) && r.p.lastSizeUpdate == 0
  {
    if trace != [] {
      var n := |trace| - 1;
      ConstantsStay(codec, cfg, store, diskUsage, trace[..n]);
      ConstantsStep(Run(Init(codec, cfg, store, diskUsage), trace[..n]).value, trace[n]);
    }
  }

  /** lastSizeUpdate is never assigned: after every run a Poll takes over the reported
      disk usage if and only if there is one and the clock is more than a minute past
      the zero time, however short ago the last report was. */
  lemma EveryPollResyncs(codec: Codec, cfg: Config, store: Store, diskUsage: uint64, trace: seq<Action>,
                         now: int, usage: Option<uint64>, g: PruneId)
    requires Run(Init(codec, cfg, store, diskUsage), trace).Some?
    ensures var r := Run(Init(codec, cfg, store, diskUsage), trace).value;
      && (Reports(r, PollTick(now, usage, g)) <==> usage.Some? && now > 60_000_000_000)
      && AfterPoll(r.p, now, usage).size == if usage.Some? && now > 60_000_000_000 then usage.value else r.p.size
  {
    ConstantsStay(codec, cfg, store, diskUsage, trace);
  }

  /** When a prune starts, exactly: after every run, a Poll, by itself or in a Put,
      launches one if and only if the size it goes by, the reported disk usage where it
      takes that over, is at least the operator's threshold and no prune is alive. */
  lemma PrunesStartExactly(codec: Codec, cfg: Config, store: Store, diskUsage: uint64, trace: seq<Action>, a: Action)
    requires Faithful(codec) && Run(Init(codec, cfg, store, diskUsage), trace).Some?
    requires a.PollTick? || a.PutBlocks?
    requires var r := Run(Init(codec, cfg, store, diskUsage), trace).value; r.clock <= a.now && a.g !in r.prunes
    ensures var r := Run(Init(codec, cfg, store, diskUsage), trace).value;
      var size := if a.usage.Some? && a.now > 60_000_000_000 then a.usage.value else r.p.size;
      var starts := size >= cfg.threshold && forall h | h in r.prunes :: !Alive(r.prunes[h]);
      Enabled(r, a) && Apply(r, a).prunes == if starts then r.prunes[a.g := Launched] else r.prunes
  {
    ReachableInv(codec, cfg, store, diskUsage, trace);
    ConstantsStay(codec, cfg, store, diskUsage, trace);
  }

  /** The operator's threshold and pin duration are used as they were given, and the
      larger of threshold and pruneBytes is what a prune aims at, all the time. */
  lemma SettingsStay(codec: Codec, cfg: Config, store: Store, diskUsage: uint64, trace: seq<Action>)
    requires Run(Init(codec, cfg, store, diskUsage), trace).Some?
    ensures var r := Run(Init(codec, cfg, store, diskUsage), trace).value;
      && r.p.cfg.threshold == cfg.threshold && r.p.cfg.pinDuration == cfg.pinDuration
      && r.p.cfg.pruneBytes >= cfg.threshold && r.p.cfg.pruneBytes >= cfg.pruneBytes
      && (r.p.cfg.pruneBytes == cfg.threshold || r.p.cfg.pruneBytes == cfg.pruneBytes)
  {
    ConstantsStay(codec, cfg, store, diskUsage, trace);
    EffectiveIsMax(cfg);
  }

  /** No default pin duration is applied: with one that is not positive, no CID is pinned
      at any time after any run; and with a positive one, a CID is right after its use. */
  lemma PinsNeedADuration(codec: Codec, cfg: Config, store: Store, diskUsage: uint64, trace: seq<Action>, c: Cid,
          now: int)
    requires Faithful(codec) && Run(Init(codec, cfg, store, diskUsage), trace).Some?
    requires Run(Init(codec, cfg, store, diskUsage), trace).value.clock <= now
    ensures var r := Run(Init(codec, cfg, store, diskUsage), trace).value;
      && (cfg.pinDuration <= 0 ==> !Holds(r.p.pins, r.p.cfg.pinDuration, c, now))
      && (Holds(Update(r.p.pins, c, now), r.p.cfg.pinDuration, c, now) <==> cfg.pinDuration > 0)
  {
    ReachableInv(codec, cfg, store, diskUsage, trace);
    ConstantsStay(codec, cfg, store, diskUsage, trace);
    var r := Run(Init(codec, cfg, store, diskUsage), trace).value;
    LaterReflects(r.p.pins, r.history, r.p.cfg.pinDuration, r.clock, now);
    AnswerIsExact(r.p.pins, r.history, r.p.cfg.pinDuration, now, c);
  }

  /** Every block handed to a Put is pinned from then on for the operator's duration,
      whether or not the write succeeds; and no other CID becomes pinned. */
  lemma PutsArePinned(codec: Codec, cfg: Config, store: Store, diskUsage: uint64, trace: seq<Action>, a: Action,
                      c: Cid, later: int)
    requires Run(Init(codec, cfg, store, diskUsage), trace).Some? && a.PutBlocks? && a.now <= later
    requires Enabled(Run(Init(codec, cfg, store, diskUsage), trace).value, a)
    ensures var r := Run(Init(codec, cfg, store, diskUsage), trace).value;
      var t := Apply(r, a);
      Holds(t.p.pins, t.p.cfg.pinDuration, c, later)
      <==> if Mentions(a.bs, c) then later - a.now < cfg.pinDuration
           else Holds(r.p.pins, r.p.cfg.pinDuration, c, later)
  {
    ConstantsStay(codec, cfg, store, diskUsage, trace);
    PinAllPins(Run(Init(codec, cfg, store, diskUsage), trace).value.p.pins, a.bs, a.now);
  }

  // ----- what a finished prune freed -----

  /** What the store lost in the draws of prune g. */
  ghost function FreedBy(r0: RState, trace: seq<Action>, g: PruneId): int {
    if trace == [] || Run(r0, trace).None? then 0
    else
      var n := |trace| - 1;
      FreedBy(r0, trace[..n], g) + if trace[n].DrawBlock? && trace[n].g == g then
        Stored(Run(r0, trace[..n]).value.p.store) - Stored(Run(r0, trace).value.p.store) else 0
  }

  /** How many draws of prune g have missed since the last that read any other CID: each
      on the store that it met, whatever the other operations had done to it. */
  ghost function MissesBy(r0: RState, trace: seq<Action>, g: PruneId): nat {
    if trace == [] || Run(r0, trace).None? then 0
    else
      var n := |trace| - 1;
      var earlier := MissesBy(r0, trace[..n], g);
      if trace[n].DrawBlock? && trace[n].g == g then Row(Run(r0, trace[..n]).value, g, trace[n].draw, earlier)
      else earlier
  }

  /** The misses in a row after this draw. */
  ghost function Row(r: RState, g: PruneId, d: Draw, earlier: nat): nat
    requires Enabled(r, DrawBlock(g, d))
  {
    var lines := FileLines(r, r.prunes[g].scanned);
    if Pick(lines, d).None? then earlier else if Misses(lines, r.p.store, d) then earlier + 1 else 0
  }

  /** A failure that prune g met: listing the keys, or in one of its draws. */
  predicate FailedIn(trace: seq<Action>, g: PruneId) {
    exists a | a in trace ::
      a == FailScan(g) || (a.DrawBlock? && a.g == g && (a.draw.sizeFault || a.draw.deleteFault))
  }

  /** Where prune g stands, with this much freed and this many misses in a row. */
  ghost predicate Counted(prunes: map<PruneId, PrunePc>, g: PruneId, target: nat, freed: int, row: nat, failed: bool) {
    if g in prunes && prunes[g].Drawing? then
      Congruent(prunes[g].bytesPruned, freed) && 0 <= freed && prunes[g].notFoundCount == row <= 10
    else if g in prunes && prunes[g].Done? then
      var pc := prunes[g];
      && Congruent(pc.bytesPruned, freed) && 0 <= freed
      && (pc.exit.ReachedTarget? ==> pc.bytesPruned >= target)
      && row <= 11 && (pc.exit.TooManyMisses? <==> row == 11)
      && (pc.exit.NothingScanned? ==> pc.scanned == [])
      && (pc.exit.ScanFailed? || pc.exit.StoreFailed? ==> failed)
    else freed == 0 && row == 0
  }

  /** A draw deletes one block and counts it, or counts nothing. */
  lemma DrawMoves(r: RState, g: PruneId, d: Draw) returns (c: Option<Cid>)
    requires Enabled(r, DrawBlock(g, d))
    ensures var pc, t := r.prunes[g], ApplyDraw(r, g, d);
      && g in t.prunes && (t.prunes[g].Drawing? || t.prunes[g].Done?)
      && t.prunes[g].bytesPruned
         == (if c.Some? && c.value in r.p.store then Add64(pc.bytesPruned, r.p.store[c.value]) else pc.bytesPruned)
      && (if c.Some? then c.value in r.p.store && t.p.store == r.p.store - {c.value} && t.prunes[g].Drawing?
          else t.p.store == r.p.store)
  {
    var pick := Pick(FileLines(r, r.prunes[g].scanned), d);
    c := if pick.Some? && Deletes(r.p, pick.value, d.sizeFault, d.deleteFault) then pick else None;
  }

  /** A draw that misses is counted, and any other read CID starts again. */
  lemma DrawRows(r: RState, g: PruneId, d: Draw)
    requires Enabled(r, DrawBlock(g, d)) && r.prunes[g].notFoundCount <= 10
    ensures var row, pc := Row(r, g, d, r.prunes[g].notFoundCount), ApplyDraw(r, g, d).prunes[g];
      if pc.Drawing? then pc.notFoundCount == row <= 10
      else if row == 11 then pc.exit.TooManyMisses?
      else pc.exit.StoreFailed? && (d.sizeFault || d.deleteFault)
  {
  }

  lemma DrawCounts(r: RState, g: PruneId, d: Draw, freed: int, row: nat, failed: bool)
    requires Enabled(r, DrawBlock(g, d)) && Counted(r.prunes, g, r.p.cfg.pruneBytes, freed, row, failed)
    ensures var t := ApplyDraw(r, g, d);
      Counted(t.prunes, g, r.p.cfg.pruneBytes, freed + Stored(r.p.store) - Stored(t.p.store), Row(r, g, d, row),
              failed || d.sizeFault || d.deleteFault)
  {
    var c := DrawMoves(r, g, d);
    DrawRows(r, g, d);
    if c.Some? {
      SumRemove(r.p.store, c.value);
      AddCongruent(r.prunes[g].bytesPruned, r.p.store[c.value], freed);
    }
  }

  lemma OthersCount(r: RState, a: Action, g: PruneId, freed: int, row: nat, failed: bool)
    requires Enabled(r, a) && Counted(r.prunes, g, r.p.cfg.pruneBytes, freed, row, failed)
    requires !(a.DrawBlock? && a.g == g)
    ensures Counted(Apply(r, a).prunes, g, r.p.cfg.pruneBytes, freed, row, failed || a == FailScan(g))
  {
    assert 0 == 0 + Whole(0);
  }

  lemma LastFailure(trace: seq<Action>, g: PruneId)
    requires trace != []
    ensures var n := |trace| - 1;
      var a := trace[n];
      FailedIn(trace, g) <==>
        || FailedIn(trace[..n], g)
        || a == FailScan(g)
        || (a.DrawBlock? && a.g == g && (a.draw.sizeFault || a.draw.deleteFault))
  {
    assert trace[|trace| - 1] in trace;
  }

  lemma {:induction false} RunsCount(codec: Codec, cfg: Config, store: Store, diskUsage: uint64, trace: seq<Action>,
          g: PruneId)
    requires Run(Init(codec, cfg, store, diskUsage), trace).Some?
    ensures var r0 := Init(codec, cfg, store, diskUsage);
      Counted(Run(r0, trace).value.prunes, g, Effective(cfg).pruneBytes, FreedBy(r0, trace, g),
              MissesBy(r0, trace, g), FailedIn(trace, g))
  {
    if trace != [] {
      var n := |trace| - 1;
      var r0 := Init(codec, cfg, store, diskUsage);
      var r := Run(r0, trace[..n]).value;
      RunsCount(codec, cfg, store, diskUsage, trace[..n], g);
      ConstantsStay(codec, cfg, store, diskUsage, trace[..n]);
      LastFailure(trace, g);
      var freed, row, failed := FreedBy(r0, trace[..n], g), MissesBy(r0, trace[..n], g), FailedIn(trace[..n], g);
      if trace[n].DrawBlock? && trace[n].g == g {
        DrawCounts(r, g, trace[n].draw, freed, row, failed);
      } else {
        OthersCount(r, trace[n], g, freed, row, failed);
      }
    }
  }

  /** What a prune that returned has done, whatever ran beside it: it failed, in listing
      the keys or in one of its draws; or it scanned no unpinned key; or its own draws
      took at least the larger of the two settings out of the store; or its last
      eleven draws of a readable line each met a store without their CID. */
  lemma FinishedPrune(codec: Codec, cfg: Config, store: Store, diskUsage: uint64, trace: seq<Action>, g: PruneId)
    requires Run(Init(codec, cfg, store, diskUsage), trace).Some?
    ensures var r0 := Init(codec, cfg, store, diskUsage);
      var r := Run(r0, trace).value;
      && (g in r.prunes && r.prunes[g].Done? ==>
            || (FailedIn(trace, g) && (r.prunes[g].exit.ScanFailed? || r.prunes[g].exit.StoreFailed?))
            || r.prunes[g].scanned == []
            || (FreedBy(r0, trace, g) >= cfg.threshold && FreedBy(r0, trace, g) >= cfg.pruneBytes)
            || MissesBy(r0, trace, g) == 11)
      && (MissesBy(r0, trace, g) >= 11 ==> g in r.prunes && r.prunes[g].Done? && r.prunes[g].exit.TooManyMisses?)
  {
    RunsCount(codec, cfg, store, diskUsage, trace, g);
    EffectiveIsMax(cfg);
    var r0 := Init(codec, cfg, store, diskUsage);
    EndedCounted(Run(r0, trace).value.prunes, g, Effective(cfg).pruneBytes, FreedBy(r0, trace, g),
                 MissesBy(r0, trace, g), FailedIn(trace, g));
  }

  lemma EndedCounted(prunes: map<PruneId, PrunePc>, g: PruneId, target: nat, freed: int, row: nat, failed: bool)
    requires Counted(prunes, g, target, freed, row, failed)
    ensures g in prunes && prunes[g].Done? ==>
      || (failed && (prunes[g].exit.ScanFailed? || prunes[g].exit.StoreFailed?))
      || prunes[g].scanned == []
      || freed >= target
      || row == 11
    ensures row >= 11 ==> g in prunes && prunes[g].Done? && prunes[g].exit.TooManyMisses?
  {
    if g in prunes && prunes[g].Done? {
      CongruentIsLess(prunes[g].bytesPruned, freed);
    }
  }

  lemma CongruentIsLess(a: uint64, b: int)
    requires Congruent(a, b) && 0 <= b
    ensures a <= b
  {
  }
}
