/** A reachable run in which the pruner deletes a block that is pinned at that moment. */
module PinnedDeletion {
  import opened Common
  import opened Uint64
  import opened Pins
  import opened RecordFile
  import opened PruneLoop
  import opened PrunerSpec
  import opened PrunerRuns
  import opened PrunerTheorems

  lemma Go(r: RState, trace: seq<Action>, a: Action) returns (longer: seq<Action>)
    requires Run(r, trace).Some? && Enabled(Run(r, trace).value, a)
    ensures longer == trace + [a] && Run(r, longer) == Some(Apply(Run(r, trace).value, a))
  {
    longer := trace + [a];
    assert longer[..|trace|] == trace;
  }

  /** The operator's settings leave something to prune at once, and pins last. */
  predicate Prunes(cfg: Config, diskUsage: uint64) {
    diskUsage >= cfg.threshold && Effective(cfg).pruneBytes > 0 && cfg.pinDuration > 0
  }

  lemma OneBlock(store: Store, pins: Table, history: seq<Use>, b: Data, now: int)
    ensures WriteAll(store, [b]) == store[b.cid := b.size] && PinAll(pins, [b], now) == Update(pins, b.cid, now)
    ensures history + UsesOf([b], now) == history + [Use(b.cid, now)]
  {
    assert [b][..0] == [];
    assert UsesOf([b], now) == [Use(b.cid, now)];
  }

  /** The first Put starts a prune. */
  lemma PutLaunches(codec: Codec, cfg: Config, diskUsage: uint64, b: Data) returns (trace: seq<Action>)
    requires Prunes(cfg, diskUsage)
    ensures Run(Init(codec, cfg, map[], diskUsage), trace).Some?
    ensures var r := Run(Init(codec, cfg, map[], diskUsage), trace).value;
      && r.codec == codec && r.p.cfg == Effective(cfg) && r.p.store == map[b.cid := b.size] && r.p.pruneLk
      && r.prunes == map[0 := Launched] && r.history == [Use(b.cid, 0)] && r.clock == 0 && r.p.pins == map[b.cid := 0]
  {
    var r0 := Init(codec, cfg, map[], diskUsage);
    OneBlock(map[], map[], [], b, 0);
    assert [] + [Use(b.cid, 0)] == [Use(b.cid, 0)];
    trace := Go(r0, [], PutBlocks([b], 0, None, None, 0));
    assert PollStarts(r0.p, 0, None);
  }

  /** It scans the block once its pin has expired. */
  lemma ScansExpired(codec: Codec, cfg: Config, diskUsage: uint64, b: Data) returns (trace: seq<Action>)
    requires Prunes(cfg, diskUsage)
    ensures Run(Init(codec, cfg, map[], diskUsage), trace).Some?
    ensures var r := Run(Init(codec, cfg, map[], diskUsage), trace).value;
      && r.codec == codec && r.p.cfg == Effective(cfg) && r.p.store == map[b.cid := b.size] && r.p.pruneLk
      && r.prunes == map[0 := Drawing([Scanned(b.cid, cfg.pinDuration, 1)], 0, 0, [])]
      && r.file == Record(codec.show(b.cid)) && r.history == [Use(b.cid, 0)] && r.clock == cfg.pinDuration
  {
    var r0 := Init(codec, cfg, map[], diskUsage);
    trace := PutLaunches(codec, cfg, diskUsage, b);
    trace := Go(r0, trace, BeginScan(0));
    trace := Go(r0, trace, ScanKey(0, b.cid, cfg.pinDuration));
    assert [] + [Scanned(b.cid, cfg.pinDuration, 1)] == [Scanned(b.cid, cfg.pinDuration, 1)];
    assert "" + Record(codec.show(b.cid)) == Record(codec.show(b.cid));
    trace := Go(r0, trace, EndScan(0));
  }

  lemma ReadsBack(codec: Codec, c: Cid, at: int)
    requires Faithful(codec)
    ensures LinesOf(codec, Record(codec.show(c)), 1) == AllRead([c]) && Cids([Scanned(c, at, 1)]) == [c]
  {
    var texts := Texts(codec, [c]);
    assert texts == [codec.show(c)] && texts[..0] == [];
    assert "" + Record(codec.show(c)) == Record(codec.show(c));
    OwnFileReads(codec, [c]);
  }

  /** For every CID and every configuration that prunes, there is a run in which
      the block is used again after it was scanned, and is deleted while it is pinned. */
  lemma PinnedCanBeDeleted(codec: Codec, cfg: Config, diskUsage: uint64, b: Data) returns (trace: seq<Action>, d: Draw)
    requires Faithful(codec) && Prunes(cfg, diskUsage)
    ensures Run(Init(codec, cfg, map[], diskUsage), trace).Some?
    ensures var r := Run(Init(codec, cfg, map[], diskUsage), trace).value;
      && Enabled(r, DrawBlock(0, d))
      && Holds(r.p.pins, r.p.cfg.pinDuration, b.cid, r.clock)
      && var t := Apply(r, DrawBlock(0, d));
         0 in t.prunes && DeletedOf(t.prunes[0]) == [b.cid] && b.cid !in t.p.store
  {
    var r0 := Init(codec, cfg, map[], diskUsage);
    trace := ScansExpired(codec, cfg, diskUsage, b);
    var r := Run(r0, trace).value;
    OneBlock(r.p.store, r.p.pins, r.history, b, cfg.pinDuration);
    trace := Go(r0, trace, PutBlocks([b], cfg.pinDuration, None, None, 1));
    d := Draw(0, false, false);
    var u := Run(r0, trace).value;
    ReadsBack(codec, b.cid, cfg.pinDuration);
    DrawOfOwnFile([b.cid], LoopAt(u, u.prunes[0]), d);
    assert [] + [b.cid] == [b.cid];
  }
}
