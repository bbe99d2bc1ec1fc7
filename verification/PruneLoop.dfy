/** The pruner's randomised deletion loop: termination under every sequence of
    draws, what it deletes, and how much. The file enters only through `lines`:
    what each index reads back as, if it parses at all. */
module PruneLoop {
  import opened Common
  import opened RecordFile
  import opened Uint64

  type Lines = seq<Option<Cid>>

  function LinesOf(codec: Codec, file: string, count: nat): Lines {
    seq(count, i requires 0 <= i < count => ReadCid(codec, file, i))
  }

  /** One iteration's random number and store faults: of the loop's own GetSize, and
      of DeleteBlock. */
  datatype Draw = Draw(n: nat, sizeFault: bool, deleteFault: bool)

  /** Running is also how the loop ends when enough bytes are pruned; GaveUp is the
      break after too many missing blocks; Errored is an early error return. */
  datatype Status = Running | GaveUp | Errored

  /** `deleted` is history: the CIDs deleted so far. */
  datatype Loop = Loop(
    store: map<Cid, uint64>,
    size: uint64,
    bytesPruned: uint64,
    notFoundCount: nat,
    deleted: seq<Cid>,
    status: Status)

  const MAX_NOT_FOUND: nat := 10

  function Start(store: map<Cid, uint64>, size: uint64): Loop {
    Loop(store, size, 0, 0, [], Running)
  }

  predicate Going(l: Loop, target: nat) {
    l.status.Running? && l.bytesPruned < target
  }

  function Pick(lines: Lines, d: Draw): Option<Cid>
    requires lines != []
  {
    lines[d.n % |lines|]
  }

  /** The block is there: delete it. DeleteBlock subtracts its size from the tracked one. */
  function Delete(l: Loop, c: Cid): Loop
    requires c in l.store
  {
    l.(store := l.store - {c}, size := Sub64(l.size, l.store[c]), bytesPruned := Add64(l.bytesPruned, l.store[c]),
       notFoundCount := 0, deleted := l.deleted + [c])
  }

  /** The block is not there: count it, and give up after too many. */
  function Miss(l: Loop): Loop {
    l.(notFoundCount := l.notFoundCount + 1,
       status := if l.notFoundCount + 1 > MAX_NOT_FOUND then GaveUp else Running)
  }

  /** One iteration of the loop. */
  function Turn(lines: Lines, l: Loop, d: Draw): Loop
    requires lines != []
  {
    match Pick(lines, d)
    case None => l
    case Some(c) =>
      match LookUp(l.store, c, d.sizeFault)
      case Fault => l.(status := Errored)
      case Absent => Miss(l)
      case Present(_) => if d.deleteFault then l.(status := Errored) else Delete(l, c)
  }

  /** The loop over the given draws, as far as it goes. */
  function Turns(lines: Lines, target: nat, l: Loop, draws: seq<Draw>): Loop
    requires lines != []
    decreases |draws|
  {
    if draws == [] || !Going(l, target) then l
    else Turns(lines, target, Turn(lines, l, draws[0]), draws[1..])
  }

  /** The CIDs the file can yield. */
  ghost function Candidates(lines: Lines): set<Cid> {
    set r | r in lines && r.Some? :: r.value
  }

  lemma {:induction false} CandidatesBound(lines: Lines)
    ensures |Candidates(lines)| <= |lines|
  {
    if lines != [] {
      var n := |lines| - 1;
      CandidatesBound(lines[..n]);
      assert lines == lines[..n] + [lines[n]];
      assert Candidates(lines) == Candidates(lines[..n]) + if lines[n].Some? then {lines[n].value} else {};
    }
  }

  // ----- termination -----

  /** Every line of the file parses. */
  predicate Readable(lines: Lines) {
    forall i | 0 <= i < |lines| :: lines[i].Some?
  }

  /** Candidate blocks still stored, then the budget of misses. */
  ghost function Budget(lines: Lines, l: Loop): int {
    (MAX_NOT_FOUND + 1) * |Candidates(lines) * l.store.Keys| + MAX_NOT_FOUND - l.notFoundCount
  }

  /** Each iteration that does not end the loop uses up budget, even when the block
      deleted has size zero. */
  lemma TurnDecreases(lines: Lines, l: Loop, d: Draw)
    requires lines != [] && Readable(lines) && l.status.Running? && l.notFoundCount <= MAX_NOT_FOUND
    ensures var m := Turn(lines, l, d);
      m.status.Running? ==> m.notFoundCount <= MAX_NOT_FOUND && 0 <= Budget(lines, m) < Budget(lines, l)
  {
    var c := Pick(lines, d).value;
    var m := Turn(lines, l, d);
    var all := Candidates(lines);
    if m.status.Running? && c in l.store {
      assert c in all by {
        assert Pick(lines, d) in lines;
      }
      assert all * m.store.Keys == all * l.store.Keys - {c};
    }
  }

  lemma {:induction false} TurnsBounded(lines: Lines, target: nat, l: Loop, draws: seq<Draw>)
    requires lines != [] && Readable(lines) && l.notFoundCount <= MAX_NOT_FOUND
    requires |draws| > Budget(lines, l)
    ensures !Going(Turns(lines, target, l, draws), target)
    decreases |draws|
  {
    if draws != [] && Going(l, target) {
      TurnDecreases(lines, l, draws[0]);
      var m := Turn(lines, l, draws[0]);
      if m.status.Running? {
        TurnsBounded(lines, target, m, draws[1..]);
      }
    }
  }

  lemma SubsetSize<T>(a: set<T>, b: set<T>)
    requires a <= b
    ensures |a| <= |b|
  {
    assert b == a + (b - a) && a !! (b - a);
  }

  /** With a readable file the loop ends within 11 * (count + 1) iterations, whatever
      is drawn and whatever fails. */
  lemma PruneTerminates(lines: Lines, target: nat, store: map<Cid, uint64>, size: uint64, draws: seq<Draw>)
    requires lines != [] && Readable(lines)
    requires |draws| >= 11 * (|lines| + 1)
    ensures !Going(Turns(lines, target, Start(store, size), draws), target)
  {
    CandidatesBound(lines);
    SubsetSize(Candidates(lines) * store.Keys, Candidates(lines));
    TurnsBounded(lines, target, Start(store, size), draws);
  }

  /** The loop ends within `bound` iterations under every draw sequence. */
  ghost predicate EndsWithin(lines: Lines, target: nat, store: map<Cid, uint64>, size: uint64, bound: nat)
    requires lines != []
  {
    forall draws: seq<Draw> | |draws| >= bound :: !Going(Turns(lines, target, Start(store, size), draws), target)
  }

  /** The same line drawn n times. */
  function Repeat(i: nat, n: nat): seq<Draw> {
    seq(n, _ => Draw(i, false, false))
  }

  lemma {:induction false} StuckForever(lines: Lines, target: nat, l: Loop, i: nat, n: nat)
    requires i < |lines| && lines[i].None?
    ensures Turns(lines, target, l, Repeat(i, n)) == l
  {
    if n > 0 && Going(l, target) {
      assert Repeat(i, n)[1..] == Repeat(i, n - 1);
      assert i % |lines| == i;
      StuckForever(lines, target, l, i, n - 1);
    }
  }

  /** There is a bound on the iterations if and only if there is nothing to prune or
      every line of the file parses: a line that does not parse makes no progress and
      is not counted. */
  lemma PruneTerminatesExactly(lines: Lines, target: nat, store: map<Cid, uint64>, size: uint64)
    requires lines != []
    ensures (exists bound: nat :: EndsWithin(lines, target, store, size, bound)) <==> target == 0 || Readable(lines)
  {
    if target == 0 {
      assert EndsWithin(lines, target, store, size, 0);
    } else if Readable(lines) {
      var bound := 11 * (|lines| + 1);
      forall draws: seq<Draw> | |draws| >= bound
        ensures !Going(Turns(lines, target, Start(store, size), draws), target)
      {
        PruneTerminates(lines, target, store, size, draws);
      }
      assert EndsWithin(lines, target, store, size, bound);
    } else {
      var i :| 0 <= i < |lines| && lines[i].None?;
      forall bound: nat ensures !EndsWithin(lines, target, store, size, bound) {
        StuckForever(lines, target, Start(store, size), i, bound);
        assert |Repeat(i, bound)| >= bound;
      }
    }
  }

  // ----- giving up -----

  /** The last draw, if the loop gets to it, is one more turn. */
  lemma {:induction false} TurnsAppend(lines: Lines, target: nat, l: Loop, draws: seq<Draw>)
    requires lines != [] && draws != []
    ensures var m := Turns(lines, target, l, draws[..|draws| - 1]);
      Turns(lines, target, l, draws) == if Going(m, target) then Turn(lines, m, draws[|draws| - 1]) else m
    decreases |draws|
  {
    var n := |draws| - 1;
    if n > 0 && Going(l, target) {
      TurnsAppend(lines, target, Turn(lines, l, draws[0]), draws[1..]);
      assert draws[1..][..n - 1] == draws[..n][1..];
    }
  }

  /** Draw d reads a CID that is not in the store, and the store does not fail. */
  predicate Misses(lines: Lines, store: map<Cid, uint64>, d: Draw)
    requires lines != []
  {
    Pick(lines, d).Some? && !d.sizeFault && Pick(lines, d).value !in store
  }

  /** Draw i misses, on the store as the draws before it have left it. */
  ghost predicate MissesAt(lines: Lines, target: nat, l: Loop, draws: seq<Draw>, i: nat)
    requires lines != [] && i < |draws|
  {
    Misses(lines, Turns(lines, target, l, draws[..i]).store, draws[i])
  }

  /** How many of the draws that the loop gets to have missed since the last one that
      read any other CID. A line that does not parse neither counts nor interrupts. */
  ghost function MissesInARow(lines: Lines, target: nat, l: Loop, draws: seq<Draw>): nat
    requires lines != []
    decreases |draws|
  {
    if draws == [] then 0
    else
      var n := |draws| - 1;
      var earlier := MissesInARow(lines, target, l, draws[..n]);
      if !Going(Turns(lines, target, l, draws[..n]), target) || Pick(lines, draws[n]).None? then earlier
      else if MissesAt(lines, target, l, draws, n) then earlier + 1
      else 0
  }

  /** The loop has given up if and only if there were eleven misses in a row. */
  lemma {:induction false} RowIsCounted(lines: Lines, target: nat, l: Loop, draws: seq<Draw>)
    requires lines != [] && l.status.Running? && l.notFoundCount == 0
    ensures var m, row := Turns(lines, target, l, draws), MissesInARow(lines, target, l, draws);
      && (m.status.Running? ==> m.notFoundCount == row <= 10)
      && (m.status.GaveUp? <==> row == 11)
    decreases |draws|
  {
    if draws != [] {
      TurnsAppend(lines, target, l, draws);
      RowIsCounted(lines, target, l, draws[..|draws| - 1]);
    }
  }

  /** The last eleven draws all miss. */
  ghost predicate EndsInMisses(lines: Lines, target: nat, l: Loop, draws: seq<Draw>)
    requires lines != []
  {
    |draws| >= 11 && forall i | |draws| - 11 <= i < |draws| :: MissesAt(lines, target, l, draws, i)
  }

  /** With a readable file, k misses in a row are the last k draws. */
  lemma {:induction false} RowIsTheEnd(lines: Lines, target: nat, l: Loop, draws: seq<Draw>, k: nat)
    requires lines != [] && Readable(lines)
    requires draws != [] ==> Going(Turns(lines, target, l, draws[..|draws| - 1]), target)
    ensures MissesInARow(lines, target, l, draws) >= k
       <==> k <= |draws| && forall i | |draws| - k <= i < |draws| :: MissesAt(lines, target, l, draws, i)
    decreases |draws|
  {
    if draws != [] && k > 0 {
      var n := |draws| - 1;
      var earlier := draws[..n];
      if n > 0 {
        TurnsAppend(lines, target, l, earlier);
      }
      RowIsTheEnd(lines, target, l, earlier, k - 1);
      assert forall i | 0 <= i < n :: earlier[..i] == draws[..i];
      assert forall i | 0 <= i < n :: MissesAt(lines, target, l, earlier, i) <==> MissesAt(lines, target, l, draws, i);
    }
  }

  /** When the loop gives up, exactly: with a readable file, the draw that it gets to
      is its last for this reason if and only if it and the ten before it each read a
      CID that was not in the store when it was drawn. */
  lemma GivesUpExactly(lines: Lines, target: nat, store: map<Cid, uint64>, size: uint64, draws: seq<Draw>)
    requires lines != [] && Readable(lines) && draws != []
    requires Going(Turns(lines, target, Start(store, size), draws[..|draws| - 1]), target)
    ensures Turns(lines, target, Start(store, size), draws).status.GaveUp?
       <==> EndsInMisses(lines, target, Start(store, size), draws)
  {
    var l := Start(store, size);
    RowIsCounted(lines, target, l, draws);
    RowIsCounted(lines, target, l, draws[..|draws| - 1]);
    RowIsTheEnd(lines, target, l, draws, 11);
  }

  /** Over a readable file, if the loop gives up at all, there is such a draw. */
  lemma {:induction false} GivesUpSomewhere(lines: Lines, target: nat, l: Loop, draws: seq<Draw>) returns (j: nat)
    requires lines != [] && Readable(lines) && l.status.Running? && l.notFoundCount == 0
    requires Turns(lines, target, l, draws).status.GaveUp?
    ensures j <= |draws| && EndsInMisses(lines, target, l, draws[..j])
    decreases |draws|
  {
    var n := |draws| - 1;
    TurnsAppend(lines, target, l, draws);
    if Going(Turns(lines, target, l, draws[..n]), target) {
      j := |draws|;
      assert draws[..j] == draws;
      RowIsCounted(lines, target, l, draws);
      RowIsTheEnd(lines, target, l, draws, 11);
    } else {
      j := GivesUpSomewhere(lines, target, l, draws[..n]);
      assert draws[..n][..j] == draws[..j];
    }
  }

  /** The loop errs only at a failure of the store. */
  lemma {:induction false} ErrsOnlyAtFaults(lines: Lines, target: nat, l: Loop, draws: seq<Draw>)
    requires lines != [] && l.status.Running?
    ensures Turns(lines, target, l, draws).status.Errored? ==> exists d | d in draws :: d.sizeFault || d.deleteFault
    decreases |draws|
  {
    if draws != [] {
      var n := |draws| - 1;
      TurnsAppend(lines, target, l, draws);
      ErrsOnlyAtFaults(lines, target, l, draws[..n]);
      assert draws[n] in draws;
    }
  }

  // ----- conservation -----

  /** Total bytes of these blocks, as they were stored. */
  ghost function SizeOf(store: map<Cid, nat>, cids: seq<Cid>): nat
    requires forall c | c in cids :: c in store
  {
    if cids == [] then 0 else SizeOf(store, cids[..|cids| - 1]) + store[cids[|cids| - 1]]
  }

  /** The deleted CIDs are distinct, were stored, and come from the file; what is
      left is the rest of the store as it was. */
  ghost predicate DeletedOK(lines: Lines, store: map<Cid, uint64>, left: map<Cid, uint64>, deleted: seq<Cid>) {
    && NoRepeats(deleted)
    && (forall c | c in deleted :: c in store && c in Candidates(lines) && c !in left)
    && (forall c | c in store :: c in left || c in deleted)
    && (forall c | c in left :: c in store && left[c] == store[c])
  }

  /** bytesPruned is exactly what the total stored bytes fell by, the sizes of the
      deleted blocks, and without the last of them it is below the target. */
  ghost predicate BytesOK(target: nat, store: map<Cid, nat>, left: map<Cid, nat>, deleted: seq<Cid>, bytesPruned: nat) {
    && bytesPruned + Sum(left) == Sum(store)
    && (forall c | c in deleted :: c in store)
    && bytesPruned == SizeOf(store, deleted)
    && (deleted != [] ==> SizeOf(store, deleted[..|deleted| - 1]) < target)
  }

  ghost predicate LoopOK(lines: Lines, target: nat, store: map<Cid, uint64>, size: uint64, l: Loop) {
    && DeletedOK(lines, store, l.store, l.deleted)
    && BytesOK(target, store, l.store, l.deleted, l.bytesPruned)
    && l.size == Sub64(size, l.bytesPruned)
  }

  lemma DeletedGrows(lines: Lines, store: map<Cid, uint64>, left: map<Cid, uint64>, deleted: seq<Cid>, c: Cid)
    requires DeletedOK(lines, store, left, deleted) && c in left && c in Candidates(lines)
    ensures DeletedOK(lines, store, left - {c}, deleted + [c])
  {
    assert forall x | x in deleted + [c] :: x in deleted || x == c;
    assert c in deleted + [c] && forall x | x in deleted :: x in deleted + [c];
  }

  lemma BytesGrow(target: nat, store: map<Cid, nat>, left: map<Cid, nat>, deleted: seq<Cid>, bytesPruned: nat, c: Cid)
    requires BytesOK(target, store, left, deleted, bytesPruned) && bytesPruned < target
    requires c in left && c in store && left[c] == store[c]
    ensures BytesOK(target, store, left - {c}, deleted + [c], bytesPruned + left[c])
  {
    SumRemove(left, c);
    SizeGrows(store, deleted, c);
  }

  lemma SizeGrows(store: map<Cid, nat>, deleted: seq<Cid>, c: Cid)
    requires c in store && forall x | x in deleted :: x in store
    ensures (deleted + [c])[..|deleted|] == deleted && forall x | x in deleted + [c] :: x in store
    ensures SizeOf(store, deleted + [c]) == SizeOf(store, deleted) + store[c]
  {
    assert (deleted + [c])[..|deleted|] == deleted;
    assert forall x | x in deleted + [c] :: x in deleted || x == c;
  }

  lemma DeleteKeeps(lines: Lines, target: nat, store: map<Cid, uint64>, size: uint64, l: Loop, c: Cid)
    requires LoopOK(lines, target, store, size, l) && Going(l, target) && Sum(store) < U64
    requires c in l.store && c in Candidates(lines)
    ensures LoopOK(lines, target, store, size, Delete(l, c))
  {
    DeletedGrows(lines, store, l.store, l.deleted, c);
    BytesGrow(target, store, l.store, l.deleted, l.bytesPruned, c);
  }

  lemma TurnKeeps(lines: Lines, target: nat, store: map<Cid, uint64>, size: uint64, l: Loop, d: Draw)
    requires lines != [] && LoopOK(lines, target, store, size, l) && Going(l, target) && Sum(store) < U64
    ensures LoopOK(lines, target, store, size, Turn(lines, l, d))
  {
    if Pick(lines, d).Some? && LookUp(l.store, Pick(lines, d).value, d.sizeFault).Present? && !d.deleteFault {
      assert Pick(lines, d) in lines;
      DeleteKeeps(lines, target, store, size, l, Pick(lines, d).value);
    }
  }

  lemma {:induction false} TurnsKeep(lines: Lines, target: nat, store: map<Cid, uint64>, size: uint64, l: Loop,
          draws: seq<Draw>)
    requires lines != [] && LoopOK(lines, target, store, size, l) && Sum(store) < U64
    ensures LoopOK(lines, target, store, size, Turns(lines, target, l, draws))
    decreases |draws|
  {
    if draws != [] && Going(l, target) {
      TurnKeeps(lines, target, store, size, l, draws[0]);
      TurnsKeep(lines, target, store, size, Turn(lines, l, draws[0]), draws[1..]);
    }
  }

  /** Without concurrent writers, under every draw sequence: what is deleted, how many
      bytes, and the overshoot are as LoopOK says; and the loop ends without an error
      only with the target reached or with eleven misses in a row. */
  lemma PruneConserves(lines: Lines, target: nat, store: map<Cid, uint64>, size: uint64, draws: seq<Draw>)
    requires lines != [] && Sum(store) < U64
    ensures var l := Turns(lines, target, Start(store, size), draws);
      && LoopOK(lines, target, store, size, l)
      && (!Going(l, target) && !l.status.Errored? ==>
            l.bytesPruned >= target || MissesInARow(lines, target, Start(store, size), draws) == 11)
  {
    TurnsKeep(lines, target, store, size, Start(store, size), draws);
    RowIsCounted(lines, target, Start(store, size), draws);
  }

  // ----- the pruner's own file -----

  function AllRead(cids: seq<Cid>): Lines {
    seq(|cids|, i requires 0 <= i < |cids| => Some(cids[i]))
  }

  /** The file yields exactly the CIDs written to it, if no text but the last is too long. */
  lemma OwnFileReads(codec: Codec, cids: seq<Cid>)
    requires Faithful(codec) && ShortButLast(codec, cids)
    ensures LinesOf(codec, Encode(Texts(codec, cids)), |cids|) == AllRead(cids)
    ensures Readable(AllRead(cids)) && (forall c :: c in Candidates(AllRead(cids)) <==> c in cids)
  {
    forall i | 0 <= i < |cids| ensures ReadCid(codec, Encode(Texts(codec, cids)), i) == Some(cids[i]) {
      RecordRoundTrip(codec, cids, i);
    }
    forall c ensures c in Candidates(AllRead(cids)) <==> c in cids {
      if c in cids {
        var i :| 0 <= i < |cids| && cids[i] == c;
        assert AllRead(cids)[i] == Some(c) && Some(c) in AllRead(cids);
      }
    }
  }

  /** Then a prune of them ends within 11 * (n + 1) iterations and deletes only CIDs
      that were written to its file. */
  lemma OwnFilePrune(codec: Codec, cids: seq<Cid>, target: nat, store: map<Cid, uint64>, size: uint64, draws: seq<Draw>)
    requires Faithful(codec) && cids != [] && ShortButLast(codec, cids) && Sum(store) < U64
    ensures var l := Turns(LinesOf(codec, Encode(Texts(codec, cids)), |cids|), target, Start(store, size), draws);
      && (|draws| >= 11 * (|cids| + 1) ==> !Going(l, target))
      && (forall c | c in l.deleted :: c in cids)
  {
    OwnFileReads(codec, cids);
    PruneConserves(AllRead(cids), target, store, size, draws);
    if |draws| >= 11 * (|cids| + 1) {
      PruneTerminates(AllRead(cids), target, store, size, draws);
    }
  }

  // ----- when a prune of its own file ends -----

  /** What is left of the first long CID text behind its 65th character is not itself
      a CID. */
  ghost predicate TailUnread(codec: Codec, cids: seq<Cid>) {
    forall j | 0 <= j < |cids| - 1 && IsFirstLong(codec, cids, j) ::
      codec.parse(codec.show(cids[j])[PAD_LENGTH + 1..]).None?
  }

  lemma OwnFileReadable(codec: Codec, cids: seq<Cid>)
    requires Faithful(codec) && TailUnread(codec, cids)
    ensures Readable(LinesOf(codec, Encode(Texts(codec, cids)), |cids|)) <==> ShortButLast(codec, cids)
  {
    var lines := LinesOf(codec, Encode(Texts(codec, cids)), |cids|);
    if ShortButLast(codec, cids) {
      forall i | 0 <= i < |cids| ensures lines[i].Some? {
        RecordRoundTrip(codec, cids, i);
      }
    } else {
      var j := FirstLong(codec, cids);
      LongRecordShifts(codec, cids, j);
      assert IsFirstLong(codec, cids, j);
      assert lines[j + 1].None?;
    }
  }

  /** In terms of the keys: the loop over the file that a prune wrote for them ends
      within some bound if and only if there is nothing to prune or every CID text
      but the last has at most 64 characters. */
  lemma OwnFileEndsExactly(codec: Codec, cids: seq<Cid>, target: nat, store: map<Cid, uint64>, size: uint64)
    requires Faithful(codec) && TailUnread(codec, cids) && cids != []
    ensures var lines := LinesOf(codec, Encode(Texts(codec, cids)), |cids|);
      (exists bound: nat :: EndsWithin(lines, target, store, size, bound))
      <==> target == 0 || forall j | 0 <= j < |cids| - 1 :: |codec.show(cids[j])| <= 64
  {
    OwnFileReadable(codec, cids);
    PruneTerminatesExactly(LinesOf(codec, Encode(Texts(codec, cids)), |cids|), target, store, size);
  }

  /** CID n printed as b and n times x, and nothing else accepted: a codec with texts of
      every length. */
  function Tally(): Codec {
    Codec((c: Cid) => "b" + Xs(c.id),
          (s: string) => if s != "" && s == "b" + Xs(|s| - 1) then Some(Cid(|s| - 1)) else None)
  }

  function Xs(n: nat): string {
    seq(n, _ => 'x')
  }

  lemma TallyIsFaithful()
    ensures Faithful(Tally())
  {
    var codec := Tally();
    forall c: Cid ensures codec.parse(codec.show(c)) == Some(c) && codec.show(c) != "" && NoSpace(codec.show(c)) {
      assert |codec.show(c)| == c.id + 1;
      assert forall x | x in codec.show(c) :: x == 'b' || x == 'x';
    }
  }

  /** Two keys, the first with a text of 71 characters, over which no prune with
      anything to do is sure to end. */
  lemma LongKeyNeverEnds(target: nat, store: map<Cid, uint64>, size: uint64)
    requires target > 0
    ensures Faithful(Tally())
    ensures var cids := [Cid(70), Cid(1)];
      !exists bound: nat :: EndsWithin(LinesOf(Tally(), Encode(Texts(Tally(), cids)), 2), target, store, size, bound)
  {
    var codec, cids := Tally(), [Cid(70), Cid(1)];
    TallyIsFaithful();
    var tail := codec.show(cids[0])[PAD_LENGTH + 1..];
    assert tail[0] == 'x' && ("b" + Xs(|tail| - 1))[0] == 'b';
    assert !Short(codec.show(cids[0]));
    OwnFileEndsExactly(codec, cids, target, store, size);
  }
}
