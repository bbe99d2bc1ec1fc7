/** The nonce-tracking message pusher. It holds its lock for a whole call, so a run
    is a sequence of calls; each call says what the gateway and the wallet answer. */
module MsgPusher {
  import opened Common
  import opened Uint64

  type Address = nat

  /** A chain message; `payload` stands for the fields the pusher does not touch. */
  datatype Fields = Fields(from: Address, nonce: uint64, gasFeeCap: int, gasPremium: int, payload: nat)

  datatype Signed = Signed(message: Fields, signer: Address)

  datatype Failure = NoKey | NoActor | NoEstimate | NotSigned | NotPushed

  datatype Result = Pushed(signed: Signed) | Failed(why: Failure)

  /** What StateAccountKey, StateGetActor, GasEstimateMessageGas, WalletSign and
      MpoolPush answer in one call. */
  datatype Gateway = Gateway(
    key: Option<Address>,
    actorNonce: Option<uint64>,
    estimate: Fields -> Option<Fields>,
    signs: bool,
    pushes: bool)

  type Nonces = map<Address, uint64>

  const GAS_FEE_CAP: int := 4000000000

  datatype Outcome = Outcome(nonces: Nonces, msg: Fields, result: Result)

  /** One call: the counters, the caller's message and the result afterwards. A
      nonce fetched from the chain stays in the map even if a later step fails. */
  function Submit(nonces: Nonces, msg: Fields, g: Gateway): Outcome {
    if g.key.None? then Outcome(nonces, msg, Failed(NoKey))
    else
      var k := g.key.value;
      if k !in nonces && g.actorNonce.None? then Outcome(nonces, msg, Failed(NoActor))
      else
        var n := if k in nonces then nonces[k] else g.actorNonce.value;
        var asked := msg.(nonce := n);
        var estim := g.estimate(asked);
        if estim.None? then Outcome(nonces[k := n], asked, Failed(NoEstimate))
        else if !g.signs then Outcome(nonces[k := n], asked, Failed(NotSigned))
        else if !g.pushes then Outcome(nonces[k := n], asked, Failed(NotPushed))
        else
          var priced := estim.value.(gasFeeCap := GAS_FEE_CAP, gasPremium := estim.value.gasPremium * 2);
          Outcome(nonces[k := Add64(n, 1)], asked, Pushed(Signed(priced, k)))
  }

  /** The nonce a call goes on with: the key's counter, else the actor's on the chain. */
  function NonceFor(nonces: Nonces, g: Gateway): Option<uint64> {
    if g.key.None? then None
    else if g.key.value in nonces then Some(nonces[g.key.value])
    else g.actorNonce
  }

  /** Every answer that the call needs is given. */
  predicate Answered(nonces: Nonces, msg: Fields, g: Gateway) {
    && NonceFor(nonces, g).Some?
    && g.estimate(msg.(nonce := NonceFor(nonces, g).value)).Some?
    && g.signs && g.pushes
  }

  /** What a call returns, exactly. It succeeds if and only if every answer it needs was
      given, and otherwise names the first one that was not; what it pushes is the
      estimate with the fee cap fixed and the premium doubled, for the key it found; and
      of the caller's message it changes the nonce only. */
  lemma SubmitOutcome(nonces: Nonces, msg: Fields, g: Gateway)
    ensures var o, n := Submit(nonces, msg, g), NonceFor(nonces, g);
      && (o.result.Pushed? <==> Answered(nonces, msg, g))
      && (o.result == Failed(NoKey) <==> g.key.None?)
      && (o.result == Failed(NoActor) <==> g.key.Some? && g.key.value !in nonces && g.actorNonce.None?)
      && (n.None? ==> o.msg == msg)
      && (n.Some? ==>
            var answer := g.estimate(msg.(nonce := n.value));
            && o.msg == msg.(nonce := n.value)
            && (o.result == Failed(NoEstimate) <==> answer.None?)
            && (o.result == Failed(NotSigned) <==> answer.Some? && !g.signs)
            && (o.result == Failed(NotPushed) <==> answer.Some? && g.signs && !g.pushes)
            && (answer.Some? && g.signs && g.pushes ==>
                  o.result == Pushed(Signed(answer.value.(gasFeeCap := 4000000000,
                                                          gasPremium := 2 * answer.value.gasPremium), g.key.value))))
  {
  }

  class Message {
    var from: Address
    var nonce: uint64
    var gasFeeCap: int
    var gasPremium: int
    var payload: nat

    constructor (f: Fields)
      ensures Value() == f
    {
      from, nonce, gasFeeCap, gasPremium, payload := f.from, f.nonce, f.gasFeeCap, f.gasPremium, f.payload;
    }

    function Value(): Fields
      reads this
    {
      Fields(from, nonce, gasFeeCap, gasPremium, payload)
    }
  }

  class MsgPusher {
    var nonces: Nonces

    constructor ()
      ensures nonces == map[]
    {
      nonces := map[];
    }

    method MpoolPushMessage(msg: Message, g: Gateway) returns (r: Result)
      modifies this, msg
      ensures var o := Submit(old(nonces), old(msg.Value()), g);
        nonces == o.nonces && msg.Value() == o.msg && r == o.result
      ensures r.Pushed? <==> Answered(old(nonces), old(msg.Value()), g)
      ensures old(nonces).Keys <= nonces.Keys
      ensures forall k | k in old(nonces) ::
        nonces[k] == if r.Pushed? && g.key == Some(k) then Add64(old(nonces)[k], 1) else old(nonces)[k]
    {
      if g.key.None? {
        return Failed(NoKey);
      }
      var kaddr := g.key.value;
      var n;
      if kaddr in nonces {
        n := nonces[kaddr];
      } else {
        if g.actorNonce.None? {
          return Failed(NoActor);
        }
        n := g.actorNonce.value;
        nonces := nonces[kaddr := n];
      }
      assert nonces == old(nonces)[kaddr := n];
      msg.nonce := n;
      var answer := g.estimate(msg.Value());
      if answer.None? {
        return Failed(NoEstimate);
      }
      var estim := new Message(answer.value);
      estim.gasFeeCap := GAS_FEE_CAP;
      estim.gasPremium := estim.gasPremium * 2;
      if !g.signs {
        return Failed(NotSigned);
      }
      var smsg := Signed(estim.Value(), kaddr);
      if !g.pushes {
        return Failed(NotPushed);
      }
      nonces := nonces[kaddr := Add64(nonces[kaddr], 1)];
      return Pushed(smsg);
    }
  }

  // ----- whole runs -----

  datatype Call = Call(msg: Fields, gateway: Gateway)

  function After(calls: seq<Call>): Nonces {
    if calls == [] then map[] else Last(calls).nonces
  }

  function Last(calls: seq<Call>): Outcome
    requires calls != []
    decreases |calls|, 0
  {
    var n := |calls| - 1;
    Submit(if n == 0 then map[] else Last(calls[..n]).nonces, calls[n].msg, calls[n].gateway)
  }

  /** The nonces of the messages pushed for key k, in order. */
  function PushedNonces(calls: seq<Call>, k: Address): seq<uint64> {
    if calls == [] then []
    else
      var earlier := PushedNonces(calls[..|calls| - 1], k);
      if PushesFor(calls, k) then earlier + [Estimate(calls).value.nonce] else earlier
  }

  /** What the gateway estimated in the last call, for the message it was asked with. */
  function Estimate(calls: seq<Call>): Option<Fields>
    requires calls != []
  {
    calls[|calls| - 1].gateway.estimate(Last(calls).msg)
  }

  /** In the last call a message for k was pushed: its nonce was known from an earlier
      call or found, and the gateway estimated, signed and pushed. */
  predicate PushesFor(calls: seq<Call>, k: Address)
    requires calls != []
  {
    var g := calls[|calls| - 1].gateway;
    g.key == Some(k) && Base(calls, k).Some? && Estimate(calls).Some? && g.signs && g.pushes
  }

  /** The chain's nonce for k at the first call that asked for it and got it. */
  function Base(calls: seq<Call>, k: Address): Option<uint64> {
    if calls == [] then None
    else
      var earlier := Base(calls[..|calls| - 1], k);
      var g := calls[|calls| - 1].gateway;
      if earlier.Some? then earlier else if g.key == Some(k) then g.actorNonce else None
  }

  /** Gas estimation gave back the nonce it was asked with. */
  predicate KeepsNonce(calls: seq<Call>)
    requires calls != [] && Estimate(calls).Some?
  {
    Estimate(calls).value.nonce == Last(calls).msg.nonce
  }

  /** ... in every successful push for k. */
  ghost predicate EstimatesKeep(calls: seq<Call>, k: Address) {
    forall n | 0 < n <= |calls| && PushesFor(calls[..n], k) :: KeepsNonce(calls[..n])
  }

  /** The nonces are base, base + 1, base + 2 and so on, as uint64 counts. */
  ghost predicate Consecutive(nonces: seq<uint64>, base: nat) {
    forall i | 0 <= i < |nonces| :: Congruent(nonces[i], base + i)
  }

  /** A call that any answer is missing for never advances a counter, no call touches
      another key, and a call with all answers advances its key's counter by one. */
  lemma FailureDoesNotAdvance(nonces: Nonces, msg: Fields, g: Gateway, k: Address)
    ensures var o := Submit(nonces, msg, g);
      && (g.key != Some(k) ==> (k in o.nonces <==> k in nonces))
      && (g.key == Some(k) ==> (k in o.nonces <==> k in nonces || g.actorNonce.Some?))
      && (k in nonces && g.key != Some(k) ==> o.nonces[k] == nonces[k])
      && (k in o.nonces && g.key == Some(k) ==>
            var n := if k in nonces then nonces[k] else g.actorNonce.value;
            o.nonces[k] == if Answered(nonces, msg, g) then Add64(n, 1) else n)
  {
  }

  lemma {:induction false} CounterInv(calls: seq<Call>, k: Address)
    ensures k in After(calls) <==> Base(calls, k).Some?
    ensures k in After(calls) ==> Congruent(After(calls)[k], Base(calls, k).value + |PushedNonces(calls, k)|)
    ensures k !in After(calls) ==> PushedNonces(calls, k) == []
  {
    if calls != [] {
      var n := |calls| - 1;
      var nonces := After(calls[..n]);
      CounterInv(calls[..n], k);
      FailureDoesNotAdvance(nonces, calls[n].msg, calls[n].gateway, k);
      if calls[n].gateway.key == Some(k) && Base(calls, k).Some? {
        CallCounts(nonces, calls[n].msg, calls[n].gateway, k, Base(calls, k).value + |PushedNonces(calls[..n], k)|);
      }
    }
  }

  /** One call for k, whose next nonce is `next` up to wrap-around. */
  lemma CallCounts(nonces: Nonces, msg: Fields, g: Gateway, k: Address, next: nat)
    requires g.key == Some(k) && (k in nonces || g.actorNonce.Some?)
    requires if k in nonces then Congruent(nonces[k], next) else g.actorNonce.value == next
    ensures var o := Submit(nonces, msg, g);
      && Congruent(o.msg.nonce, next)
      && k in o.nonces && Congruent(o.nonces[k], if Answered(nonces, msg, g) then next + 1 else next)
  {
    assert k !in nonces ==> next == next + Whole(0);
    var n := if k in nonces then nonces[k] else g.actorNonce.value;
    AddCongruent(n, 1, next);
  }

  /** What the gateway's answers say is what the callers are told: a call returns a
      pushed message signed by k exactly if k's message was pushed, with this nonce. */
  lemma CallersAreTold(calls: seq<Call>, k: Address)
    requires calls != []
    ensures var r := Last(calls).result;
      && (r.Pushed? && r.signed.signer == k <==> PushesFor(calls, k))
      && (PushesFor(calls, k) ==> r.signed.message.nonce == Estimate(calls).value.nonce)
  {
    var n := |calls| - 1;
    CounterInv(calls[..n], k);
    SubmitOutcome(After(calls[..n]), calls[n].msg, calls[n].gateway);
  }

  lemma CongruentUnique(a: uint64, b: uint64, c: int)
    requires Congruent(a, c) && Congruent(b, c)
    ensures a == b
  {
  }

  /** The last call, if it pushed for k, asked for the next nonce in sequence. */
  lemma AsksForNext(calls: seq<Call>, k: Address)
    requires calls != [] && PushesFor(calls, k)
    ensures Base(calls, k).Some?
    ensures Congruent(Last(calls).msg.nonce, Base(calls, k).value + |PushedNonces(calls[..|calls| - 1], k)|)
  {
    var n := |calls| - 1;
    CounterInv(calls[..n], k);
    CounterInv(calls, k);
    CallCounts(After(calls[..n]), calls[n].msg, calls[n].gateway, k,
               Base(calls, k).value + |PushedNonces(calls[..n], k)|);
  }

  lemma KeepSplits(calls: seq<Call>, k: Address)
    requires calls != []
    ensures EstimatesKeep(calls, k) <==>
      EstimatesKeep(calls[..|calls| - 1], k) && (PushesFor(calls, k) ==> KeepsNonce(calls))
  {
    var n := |calls| - 1;
    assert calls[..n + 1] == calls;
    assert forall m | 0 < m <= n :: calls[..n][..m] == calls[..m];
  }

  lemma ConsecutiveGrows(nonces: seq<uint64>, base: nat, x: uint64)
    ensures Consecutive(nonces + [x], base) <==> Consecutive(nonces, base) && Congruent(x, base + |nonces|)
  {
    var longer := nonces + [x];
    assert longer[|nonces|] == x && forall i | 0 <= i < |nonces| :: longer[i] == nonces[i];
  }

  /** The nonce sequence, exactly: over every run, with failures at every exit and
      other keys in between, the successful pushes for one key carry base, base + 1,
      base + 2 and so on, if and only if gas estimation gave every one of them back
      the nonce it was asked with. */
  lemma {:induction false} NonceSequence(calls: seq<Call>, k: Address)
    requires Base(calls, k).Some?
    ensures Consecutive(PushedNonces(calls, k), Base(calls, k).value) <==> EstimatesKeep(calls, k)
  {
    var n := |calls| - 1;
    var earlier := calls[..n];
    KeepSplits(calls, k);
    if Base(earlier, k).Some? {
      NonceSequence(earlier, k);
    } else {
      CounterInv(earlier, k);
      NeverPushed(earlier, k);
    }
    if PushesFor(calls, k) {
      AsksForNext(calls, k);
      var x := Estimate(calls).value.nonce;
      ConsecutiveGrows(PushedNonces(earlier, k), Base(calls, k).value, x);
      if Congruent(x, Base(calls, k).value + |PushedNonces(earlier, k)|) {
        CongruentUnique(x, Last(calls).msg.nonce, Base(calls, k).value + |PushedNonces(earlier, k)|);
      }
    } else {
      assert PushedNonces(calls, k) == PushedNonces(earlier, k);
    }
  }

  lemma {:induction false} NeverPushed(calls: seq<Call>, k: Address)
    requires PushedNonces(calls, k) == []
    ensures EstimatesKeep(calls, k)
  {
    if calls != [] {
      KeepSplits(calls, k);
      NeverPushed(calls[..|calls| - 1], k);
    }
  }

  /** No nonce is used twice for a key before all 2^64 of them have been. */
  lemma NoReuse(calls: seq<Call>, k: Address, i: nat, j: nat)
    requires EstimatesKeep(calls, k) && i < j < |PushedNonces(calls, k)| && j - i < U64
    ensures PushedNonces(calls, k)[i] != PushedNonces(calls, k)[j]
  {
    CounterInv(calls, k);
    NonceSequence(calls, k);
    var x, y, base := PushedNonces(calls, k)[i], PushedNonces(calls, k)[j], Base(calls, k).value;
    var q :| x == base + i + Whole(q);
    var r :| y == base + j + Whole(r);
  }

  /** The next message for k carries base plus the number of successful pushes, even
      after failures. */
  lemma NextNonce(calls: seq<Call>, k: Address, next: Call)
    requires Base(calls, k).Some? && next.gateway.key == Some(k)
    ensures Congruent(Last(calls + [next]).msg.nonce, Base(calls, k).value + |PushedNonces(calls, k)|)
  {
    assert (calls + [next])[..|calls|] == calls;
    CounterInv(calls, k);
    CallCounts(After(calls), next.msg, next.gateway, k, Base(calls, k).value + |PushedNonces(calls, k)|);
  }
}
