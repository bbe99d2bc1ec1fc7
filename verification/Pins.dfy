/** The pruner's pin table: when each CID was last used, with expired entries
    evicted only when someone asks about them. */
module Pins {
  import opened Common

  type Table = map<Cid, int>

  function Update(pins: Table, c: Cid, now: int): Table {
    pins[c := now]
  }

  /** The answer of isPinned. */
  predicate Holds(pins: Table, duration: int, c: Cid, now: int) {
    c in pins && now - pins[c] < duration
  }

  /** The table after isPinned: an expired entry is evicted. */
  function AfterQuery(pins: Table, duration: int, c: Cid, now: int): Table {
    if c in pins && !Holds(pins, duration, c, now) then map d | d in pins && d != c :: pins[d] else pins
  }

  /** One use of a CID, ever. */
  datatype Use = Use(cid: Cid, at: int)

  /** The specification: some use of c is younger than the pin duration. */
  ghost predicate PinnedBy(history: seq<Use>, duration: int, c: Cid, now: int) {
    exists i | 0 <= i < |history| :: history[i].cid == c && now - history[i].at < duration
  }

  /** The table agrees with the full history: it holds the latest use of a CID, and
      it forgets a CID only when every use of it has expired. */
  ghost predicate Reflects(pins: Table, history: seq<Use>, duration: int, now: int) {
    && (forall i | 0 <= i < |history| :: history[i].at <= now)
    && (forall c | c in pins :: exists i | 0 <= i < |history| :: history[i] == Use(c, pins[c]))
    && (forall i | 0 <= i < |history| ::
          if history[i].cid in pins then history[i].at <= pins[history[i].cid] else now - history[i].at >= duration)
  }

  lemma UpdateReflects(pins: Table, history: seq<Use>, duration: int, now: int, c: Cid, later: int)
    requires Reflects(pins, history, duration, now) && now <= later
    ensures Reflects(Update(pins, c, later), history + [Use(c, later)], duration, later)
  {
    var h, t := history + [Use(c, later)], Update(pins, c, later);
    forall d | d in t ensures exists i | 0 <= i < |h| :: h[i] == Use(d, t[d]) {
      if d == c {
        assert h[|history|] == Use(d, t[d]);
      } else {
        var i :| 0 <= i < |history| && history[i] == Use(d, pins[d]);
        assert h[i] == Use(d, t[d]);
      }
    }
  }

  /** Evicting keeps the table in agreement, so it cannot change a later answer. */
  lemma QueryReflects(pins: Table, history: seq<Use>, duration: int, now: int, c: Cid, later: int)
    requires Reflects(pins, history, duration, now) && now <= later
    ensures Reflects(AfterQuery(pins, duration, c, later), history, duration, later)
  {
  }

  /** The answer is exactly the specification's. */
  lemma AnswerIsExact(pins: Table, history: seq<Use>, duration: int, now: int, c: Cid)
    requires Reflects(pins, history, duration, now)
    ensures Holds(pins, duration, c, now) <==> PinnedBy(history, duration, c, now)
  {
    if Holds(pins, duration, c, now) {
      var i :| 0 <= i < |history| && history[i] == Use(c, pins[c]);
      assert history[i].cid == c && now - history[i].at < duration;
    }
  }

  // ----- whole runs -----

  datatype PinOp = UpdatePin(cid: Cid, at: int) | IsPinned(cid: Cid, at: int)

  /** The clock of a run never goes back. */
  ghost predicate Ordered(ops: seq<PinOp>) {
    forall i, j | 0 <= i <= j < |ops| :: ops[i].at <= ops[j].at
  }

  function After(duration: int, ops: seq<PinOp>): Table {
    if ops == [] then map[]
    else
      var pins := After(duration, ops[..|ops| - 1]);
      match ops[|ops| - 1]
      case UpdatePin(c, at) => Update(pins, c, at)
      case IsPinned(c, at) => AfterQuery(pins, duration, c, at)
  }

  function Uses(ops: seq<PinOp>): seq<Use> {
    if ops == [] then []
    else
      match ops[|ops| - 1]
      case UpdatePin(c, at) => Uses(ops[..|ops| - 1]) + [Use(c, at)]
      case IsPinned(_, _) => Uses(ops[..|ops| - 1])
  }

  lemma {:induction false} RunReflects(duration: int, ops: seq<PinOp>, now: int)
    requires Ordered(ops) && (ops == [] || ops[|ops| - 1].at == now)
    ensures Reflects(After(duration, ops), Uses(ops), duration, now)
  {
    if ops != [] {
      var n := |ops| - 1;
      var prefix := ops[..n];
      var before := if n == 0 then now else prefix[n - 1].at;
      assert Ordered(prefix);
      assert n > 0 ==> ops[n - 1].at <= ops[n].at;
      RunReflects(duration, prefix, before);
      match ops[n]
      case UpdatePin(c, at) => UpdateReflects(After(duration, prefix), Uses(prefix), duration, before, c, at);
      case IsPinned(c, at) => QueryReflects(After(duration, prefix), Uses(prefix), duration, before, c, at);
    }
  }

  lemma LaterReflects(pins: Table, history: seq<Use>, duration: int, now: int, later: int)
    requires Reflects(pins, history, duration, now) && now <= later
    ensures Reflects(pins, history, duration, later)
  {
  }

  /** Over any run of updates and lazily evicting queries under a monotone clock,
      isPinned answers yes exactly when some updatePin of that CID happened less than
      the pin duration ago; how often and when it was asked before does not matter. */
  lemma PinsAreExact(duration: int, ops: seq<PinOp>, c: Cid, now: int)
    requires Ordered(ops) && (ops != [] ==> ops[|ops| - 1].at <= now)
    ensures Holds(After(duration, ops), duration, c, now) <==> PinnedBy(Uses(ops), duration, c, now)
  {
    var last := if ops == [] then now else ops[|ops| - 1].at;
    RunReflects(duration, ops, last);
    LaterReflects(After(duration, ops), Uses(ops), duration, last, now);
    AnswerIsExact(After(duration, ops), Uses(ops), duration, now, c);
  }

  /** Two runs with the same uses answer alike, whatever was asked and evicted on the way. */
  lemma QueriesAreInvisible(duration: int, ops: seq<PinOp>, others: seq<PinOp>, c: Cid, now: int)
    requires Ordered(ops) && (ops != [] ==> ops[|ops| - 1].at <= now)
    requires Ordered(others) && (others != [] ==> others[|others| - 1].at <= now)
    requires Uses(ops) == Uses(others)
    ensures Holds(After(duration, ops), duration, c, now) <==> Holds(After(duration, others), duration, c, now)
  {
    PinsAreExact(duration, ops, c, now);
    PinsAreExact(duration, others, c, now);
  }
}
