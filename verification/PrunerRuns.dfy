/** The pruner over whole runs: Put, PutMany, DeleteBlock and Poll interleave with
    the steps of prune goroutines. Each operation, each scanned key and each
    iteration of the deletion loop is one atomic step. */
module PrunerRuns {
  import opened Common
  import opened Uint64
  import opened Pins
  import opened RecordFile
  import opened PruneLoop
  import opened PrunerSpec

  type PruneId = nat

  /** A key written to the file; `at` is when it was looked at, `uses` how many uses
      of any CID had been recorded by then. */
  datatype Scanned = Scanned(cid: Cid, at: int, uses: nat)

  /** How a prune ended; the first two and the last are its early exits. */
  datatype Exit = ScanFailed | NothingScanned | ReachedTarget | TooManyMisses | StoreFailed

  datatype PrunePc =
    | Launched
    | Scanning(scanned: seq<Scanned>)
    | Drawing(scanned: seq<Scanned>, bytesPruned: uint64, notFoundCount: nat, deleted: seq<Cid>)
    | Done(scanned: seq<Scanned>, deleted: seq<Cid>, bytesPruned: uint64, exit: Exit)

  /** `history` is every use of a CID, `drift` the gap between tracked size and stored
      bytes that the operations so far account for. */
  datatype RState = RState(
    codec: Codec,
    p: Pruner,
    prunes: map<PruneId, PrunePc>,
    file: string,
    history: seq<Use>,
    clock: int,
    drift: int)

  /** g is the id of the prune goroutine that a Poll may launch. */
  datatype Action =
    | PutBlocks(bs: seq<Data>, now: int, usage: Option<uint64>, failAfter: Option<nat>, g: PruneId)
    | DeleteBlock(cid: Cid, sizeFault: bool, deleteFault: bool)
    | PollTick(now: int, usage: Option<uint64>, g: PruneId)
    | BeginScan(g: PruneId)
    | FailScan(g: PruneId)
    | ScanKey(g: PruneId, cid: Cid, now: int)
    | EndScan(g: PruneId)
    | DrawBlock(g: PruneId, draw: Draw)
    | FinishPrune(g: PruneId)

  ghost function Init(codec: Codec, cfg: Config, store: Store, diskUsage: uint64): RState {
    var p := Pruner(Effective(cfg), store, diskUsage, 0, map[], false);
    RState(codec, p, map[], "", [], 0, diskUsage - Stored(store))
  }

  function Cids(scanned: seq<Scanned>): seq<Cid> {
    seq(|scanned|, i requires 0 <= i < |scanned| => scanned[i].cid)
  }

  function FileLines(r: RState, scanned: seq<Scanned>): Lines {
    LinesOf(r.codec, r.file, |scanned|)
  }

  /** The deletion loop of prune pc, on the current store. */
  function LoopAt(r: RState, pc: PrunePc): Loop
    requires pc.Drawing?
  {
    Loop(r.p.store, r.p.size, pc.bytesPruned, pc.notFoundCount, pc.deleted, Running)
  }

  predicate Enabled(r: RState, a: Action) {
    match a
    case PutBlocks(_, now, _, _, g) => r.clock <= now && g !in r.prunes
    case DeleteBlock(_, _, _) => true
    case PollTick(now, _, g) => r.clock <= now && g !in r.prunes
    case BeginScan(g) => g in r.prunes && r.prunes[g].Launched?
    case FailScan(g) => g in r.prunes && r.prunes[g].Launched?
    case ScanKey(g, _, now) => g in r.prunes && r.prunes[g].Scanning? && r.clock <= now
    case EndScan(g) => g in r.prunes && r.prunes[g].Scanning?
    case DrawBlock(g, _) => g in r.prunes && r.prunes[g].Drawing?
      && r.prunes[g].scanned != [] && r.prunes[g].bytesPruned < r.p.cfg.pruneBytes
    case FinishPrune(g) => g in r.prunes && r.prunes[g].Drawing? && r.prunes[g].bytesPruned >= r.p.cfg.pruneBytes
  }

  /** Launch prune g if this Poll starts one. */
  function Launch(prunes: map<PruneId, PrunePc>, starts: bool, g: PruneId): map<PruneId, PrunePc> {
    if starts then prunes[g := Launched] else prunes
  }

  /** The deferred unlock. */
  function End(r: RState, g: PruneId, pc: PrunePc): RState {
    r.(prunes := r.prunes[g := pc], p := r.p.(pruneLk := false))
  }

  ghost function ApplyDraw(r: RState, g: PruneId, d: Draw): RState
    requires Enabled(r, DrawBlock(g, d))
  {
    var pc := r.prunes[g];
    var m := Turn(FileLines(r, pc.scanned), LoopAt(r, pc), d);
    var t := r.(p := r.p.(store := m.store, size := m.size));
    if m.status.Running? then
      t.(prunes := r.prunes[g := Drawing(pc.scanned, m.bytesPruned, m.notFoundCount, m.deleted)])
    else
      var exit := if m.status.GaveUp? then TooManyMisses else StoreFailed;
      End(t, g, Done(pc.scanned, m.deleted, m.bytesPruned, exit))
  }

  ghost function Apply(r: RState, a: Action): RState
    requires Enabled(r, a)
  {
    match a
    case PutBlocks(bs, now, usage, failAfter, g) =>
      r.(p := AfterPut(r.p, bs, now, usage, failAfter),
         prunes := Launch(r.prunes, PollStarts(r.p, now, usage), g),
         history := r.history + UsesOf(bs, now), clock := now,
         drift := DriftAfterPut(r.p, r.drift, bs, now, usage, failAfter))
    case DeleteBlock(c, sizeFault, deleteFault) => r.(p := AfterDelete(r.p, c, sizeFault, deleteFault))
    case PollTick(now, usage, g) =>
      r.(p := AfterPoll(r.p, now, usage), prunes := Launch(r.prunes, PollStarts(r.p, now, usage), g), clock := now,
         drift := DriftAfterPoll(r.p, r.drift, now, usage))
    case BeginScan(g) => r.(file := "", prunes := r.prunes[g := Scanning([])])
    case FailScan(g) => End(r, g, Done([], [], 0, ScanFailed))
    case ScanKey(g, c, now) =>
      var t := r.(p := r.p.(pins := AfterQuery(r.p.pins, r.p.cfg.pinDuration, c, now)), clock := now);
      if Holds(r.p.pins, r.p.cfg.pinDuration, c, now) then t
      else t.(file := r.file + Record(r.codec.show(c)),
              prunes := r.prunes[g := Scanning(r.prunes[g].scanned + [Scanned(c, now, |r.history|)])])
    case EndScan(g) =>
      var scanned := r.prunes[g].scanned;
      if scanned == [] then End(r, g, Done([], [], 0, NothingScanned))
      else r.(prunes := r.prunes[g := Drawing(scanned, 0, 0, [])])
    case DrawBlock(g, d) => ApplyDraw(r, g, d)
    case FinishPrune(g) =>
      var pc := r.prunes[g];
      End(r, g, Done(pc.scanned, pc.deleted, pc.bytesPruned, ReachedTarget))
  }

  ghost function Run(r: RState, trace: seq<Action>): Option<RState> {
    if trace == [] then Some(r)
    else
      var prefix := Run(r, trace[..|trace| - 1]);
      var a := trace[|trace| - 1];
      if prefix.Some? && Enabled(prefix.value, a) then Some(Apply(prefix.value, a)) else None
  }
}
