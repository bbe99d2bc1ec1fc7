/** Pin safety read off the actions of a run: which uses there were, when each key
    was scanned, and what a draw takes out of the store. */
module ScanRecords {
  import opened Common
  import opened Uint64
  import opened Pins
  import opened RecordFile
  import opened PruneLoop
  import opened PrunerSpec
  import opened PrunerRuns
  import opened PrunerTheorems

  /** The uses that the Puts of this run recorded, in order. */
  function UsesIn(trace: seq<Action>): seq<Use> {
    if trace == [] then []
    else
      var a := trace[|trace| - 1];
      UsesIn(trace[..|trace| - 1]) + if a.PutBlocks? then UsesOf(a.bs, a.now) else []
  }

  lemma {:induction false} HistoryIsUses(r0: RState, trace: seq<Action>)
    requires r0.history == [] && Run(r0, trace).Some?
    ensures Run(r0, trace).value.history == UsesIn(trace)
  {
    if trace != [] {
      HistoryIsUses(r0, trace[..|trace| - 1]);
    }
  }

  lemma {:induction false} UsesGrow(trace: seq<Action>, j: nat)
    requires j <= |trace|
    ensures UsesIn(trace[..j]) <= UsesIn(trace)
    decreases |trace|
  {
    if j == |trace| {
      assert trace[..j] == trace;
    } else {
      UsesGrow(trace[..|trace| - 1], j);
      assert trace[..|trace| - 1][..j] == trace[..j];
    }
  }

  /** Action j is the look of prune g at key x, after x.uses uses of any CID. */
  ghost predicate LooksAt(trace: seq<Action>, j: nat, g: PruneId, x: Scanned)
    requires j < |trace|
  {
    trace[j] == ScanKey(g, x.cid, x.at) && |UsesIn(trace[..j])| == x.uses
  }

  ghost predicate Recorded(trace: seq<Action>, g: PruneId, x: Scanned) {
    exists j | 0 <= j < |trace| :: LooksAt(trace, j, g, x)
  }

  lemma RecordStays(trace: seq<Action>, g: PruneId, x: Scanned)
    requires trace != [] && Recorded(trace[..|trace| - 1], g, x)
    ensures Recorded(trace, g, x)
  {
    var prefix := trace[..|trace| - 1];
    var j :| 0 <= j < |prefix| && LooksAt(prefix, j, g, x);
    assert prefix[..j] == trace[..j];
    assert LooksAt(trace, j, g, x);
  }

  /** A key joins the record only when it is looked at. */
  lemma RecordOrigin(r: RState, a: Action, g: PruneId, x: Scanned)
    requires Enabled(r, a) && g in Apply(r, a).prunes && x in ScannedOf(Apply(r, a).prunes[g])
    ensures (g in r.prunes && x in ScannedOf(r.prunes[g])) || (a == ScanKey(g, x.cid, x.at) && x.uses == |r.history|)
  {
  }

  /** What a prune notes of a key it scanned is true: it looked at that key, at that
      time, after that many uses. */
  lemma {:induction false} ScannedIsRecorded(r0: RState, trace: seq<Action>, g: PruneId, x: Scanned)
    requires r0.history == [] && r0.prunes == map[] && Run(r0, trace).Some?
    requires g in Run(r0, trace).value.prunes && x in ScannedOf(Run(r0, trace).value.prunes[g])
    ensures Recorded(trace, g, x)
  {
    var n := |trace| - 1;
    var r := Run(r0, trace[..n]).value;
    HistoryIsUses(r0, trace[..n]);
    RecordOrigin(r, trace[n], g, x);
    if g in r.prunes && x in ScannedOf(r.prunes[g]) {
      ScannedIsRecorded(r0, trace[..n], g, x);
      RecordStays(trace, g, x);
    } else {
      assert LooksAt(trace, n, g, x);
    }
  }

  /** What a draw takes out of the store is the CID that it read. */
  lemma DrawTakesPick(r: RState, g: PruneId, d: Draw, c: Cid)
    requires Enabled(r, DrawBlock(g, d)) && c in r.p.store && c !in Apply(r, DrawBlock(g, d)).p.store
    ensures Pick(FileLines(r, r.prunes[g].scanned), d) == Some(c)
  {
  }

  /** Action j is a look of prune g at c while no use of c in the run so far was younger
      than the pin duration. */
  ghost predicate ScansUnpinned(trace: seq<Action>, j: nat, g: PruneId, c: Cid, duration: int)
    requires j < |trace|
  {
    && trace[j].ScanKey? && trace[j].g == g && trace[j].cid == c
    && forall u | u in UsesIn(trace[..j]) && u.cid == c :: trace[j].now - u.at >= duration
  }

  /** Pin safety over runs: whatever a draw of a prune takes out of the store, that prune
      had looked at when no use of it by any Put before was younger than the operator's
      pin duration; if no text of its keys but the last is too long. */
  lemma DeletesOnlyUnpinned(codec: Codec, cfg: Config, store: Store, diskUsage: uint64, trace: seq<Action>, g: PruneId,
          d: Draw, c: Cid) returns (j: nat)
    requires Faithful(codec) && Run(Init(codec, cfg, store, diskUsage), trace).Some?
    requires var r := Run(Init(codec, cfg, store, diskUsage), trace).value;
      && Enabled(r, DrawBlock(g, d)) && ShortButLast(codec, Cids(r.prunes[g].scanned))
      && c in r.p.store && c !in Apply(r, DrawBlock(g, d)).p.store
    ensures j < |trace| && ScansUnpinned(trace, j, g, c, cfg.pinDuration)
  {
    var r0 := Init(codec, cfg, store, diskUsage);
    var r := Run(r0, trace).value;
    var x := DrawnWasScanned(codec, cfg, store, diskUsage, trace, g, d, c);
    HistoryIsUses(r0, trace);
    ScannedIsRecorded(r0, trace, g, x);
    j :| 0 <= j < |trace| && LooksAt(trace, j, g, x);
    UsesGrow(trace, j);
    forall u | u in UsesIn(trace[..j]) && u.cid == c ensures trace[j].now - u.at >= cfg.pinDuration {
      var i :| 0 <= i < |UsesIn(trace[..j])| && UsesIn(trace[..j])[i] == u;
      assert r.history[i] == u;
    }
  }

  lemma DrawnWasScanned(codec: Codec, cfg: Config, store: Store, diskUsage: uint64, trace: seq<Action>, g: PruneId,
          d: Draw, c: Cid) returns (x: Scanned)
    requires Faithful(codec) && Run(Init(codec, cfg, store, diskUsage), trace).Some?
    requires var r := Run(Init(codec, cfg, store, diskUsage), trace).value;
      && Enabled(r, DrawBlock(g, d)) && ShortButLast(codec, Cids(r.prunes[g].scanned))
      && c in r.p.store && c !in Apply(r, DrawBlock(g, d)).p.store
    ensures var r := Run(Init(codec, cfg, store, diskUsage), trace).value;
      x in r.prunes[g].scanned && x.cid == c && UnpinnedAtScan(r.history, cfg.pinDuration, x)
  {
    ReachableInv(codec, cfg, store, diskUsage, trace);
    ConstantsStay(codec, cfg, store, diskUsage, trace);
    var r := Run(Init(codec, cfg, store, diskUsage), trace).value;
    var scanned := r.prunes[g].scanned;
    assert FileOK(r.codec, r.file, r.prunes[g]) && ScanOK(r.history, r.p.cfg.pinDuration, scanned);
    OwnFileReads(codec, Cids(scanned));
    DrawTakesPick(r, g, d, c);
    x := scanned[d.n % |scanned|];
  }
}
