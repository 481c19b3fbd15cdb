/** The transaction sender: nonce allocation, the table of pending transactions, and the
    background waiters that clear it. */
module EvmClient {
  import opened Prelude
  import opened TxMonitor
  import opened Fees

  datatype TxnDetails = TxnDetails(nonce: uint64, created: nat)

  datatype TxnInfo = TxnInfo(hash: Hash, nonce: uint64, created: nat)

  datatype SendError = NonceUnknown | TooManyPending | NotBuilt | NotSigned | NotAccepted

  datatype SendResult = Sent(hash: Hash) | Failed(error: SendError)

  /** What one call of `Send` meets: the pending nonce the node reports, whether the
      transaction can be built (gas and fees), the hash it gets when it can be signed, and
      whether the node takes it. */
  datatype Attempt = Attempt(reading: Option<uint64>, built: bool, signed: Option<Hash>, accepted: bool, now: nat)

  /** The node's view of a transaction about to be cancelled. */
  datatype Lookup = Unknown | AlreadyMined | Pending(nonce: uint64, fees: Fees)

  datatype CancelError = NotPending | NoTip | CancelNotSigned | CancelNotAccepted

  datatype CancelResult = CancelSent(hash: Hash, nonce: uint64, fees: Fees) | CancelFailed(error: CancelError)

  /** What waiting for a receipt comes to: the receipt, or the error in the result. */
  datatype Waited = TxNotFound | ContextDone | NoReceipt(error: Result) | Received(receipt: Receipt)

  /** How far a `Send` gets before it builds anything; `stored` is the nonce field after. */
  datatype Begun = NoReading | Refused(stored: uint64) | Going(nonce: uint64, stored: uint64)

  /** The nonce field after a non-zero reading. */
  function Advanced(stored: uint64, reading: uint64): (r: uint64)
    ensures r == if reading > stored then reading else stored
  {
    var first := if stored == 0 then reading else stored;
    if reading > first then reading else first
  }

  /** A zero reading is taken at its word and leaves the field alone. */
  function Begin(stored: uint64, confirmed: uint64, reading: Option<uint64>): Begun {
    match reading
    case None => NoReading
    case Some(r) =>
      var stored' := if r == 0 then stored else Advanced(stored, r);
      var nonce := if r == 0 then 0 else stored';
      if nonce <= AllowedUpTo(confirmed) then Going(nonce, stored') else Refused(stored')
  }

  ghost predicate SortedByNonce(txns: seq<TxnInfo>) {
    forall i, j :: 0 <= i < j < |txns| ==> txns[i].nonce <= txns[j].nonce
  }

  /** One entry for every pending transaction. */
  function Entries(sentTxs: map<Hash, TxnDetails>): set<TxnInfo> {
    set h | h in sentTxs :: TxnInfo(h, sentTxs[h].nonce, sentTxs[h].created)
  }

  /** Where a transaction goes in a nonce-sorted list. */
  method InsertByNonce(txns: seq<TxnInfo>, x: TxnInfo) returns (res: seq<TxnInfo>)
    requires SortedByNonce(txns)
    ensures SortedByNonce(res)
    ensures multiset(res) == multiset(txns) + multiset{x}
  {
    var k := |txns|;
    while k > 0 && x.nonce < txns[k - 1].nonce
      invariant 0 <= k <= |txns|
      invariant forall i :: k <= i < |txns| ==> x.nonce < txns[i].nonce
    {
      k := k - 1;
    }
    InsertAtKeeps(txns, k, x);
    hide InsertAt;
    res := InsertAt(txns, k, x);
  }

  lemma InsertAtKeeps(txns: seq<TxnInfo>, k: nat, x: TxnInfo)
    requires k <= |txns|
    ensures multiset(InsertAt(txns, k, x)) == multiset(txns) + multiset{x}
  {
    InsertedOnce(txns[..k], x, txns[k..]);
    assert txns == txns[..k] + txns[k..];
  }

  function InsertAt(txns: seq<TxnInfo>, k: nat, x: TxnInfo): (res: seq<TxnInfo>)
    requires k <= |txns|
    ensures |res| == |txns| + 1
    ensures forall i :: 0 <= i < |res| ==> res[i] == if i < k then txns[i] else if i == k then x else txns[i - 1]
  {
    txns[..k] + [x] + txns[k..]
  }

  lemma EntriesStep(sentTxs: map<Hash, TxnDetails>, h: Hash, d: TxnDetails)
    requires h !in sentTxs
    ensures multiset(Entries(sentTxs[h := d])) == multiset(Entries(sentTxs)) + multiset{TxnInfo(h, d.nonce, d.created)}
  {
    var x := TxnInfo(h, d.nonce, d.created);
    var m := sentTxs[h := d];
    forall e ensures e in Entries(m) <==> e in Entries(sentTxs) + {x} {
      if e in Entries(sentTxs) {
        assert m[e.hash] == sentTxs[e.hash];
      }
      assert m[h] == d;
    }
    assert Entries(m) == Entries(sentTxs) + {x};
  }

  class Client {
    var nonce: uint64
    var sentTxs: map<Hash, TxnDetails>
    /** Background waiters started so far, oldest first. */
    var spawned: seq<(Hash, uint64)>
    const monitor: Monitor

    constructor (monitor: Monitor)
      ensures nonce == 0 && sentTxs == map[] && spawned == [] && this.monitor == monitor
    {
      this.monitor := monitor;
      nonce, sentTxs, spawned := 0, map[], [];
    }

    method GetNonce(reading: Option<uint64>) returns (n: Option<uint64>)
      modifies this`nonce
      ensures reading.None? ==> n.None? && nonce == old(nonce)
      ensures reading == Some(0) ==> n == Some(0) && nonce == old(nonce)
      ensures reading.Some? && reading.value > 0 ==>
                n == Some(nonce) && nonce == Advanced(old(nonce), reading.value)
    {
      if reading.None? {
        return None;
      }
      var accountNonce := reading.value;
      if accountNonce == 0 {
        return Some(0);
      }
      if nonce == 0 {
        nonce := accountNonce;
      }
      if accountNonce > nonce {
        nonce := accountNonce;
      }
      n := Some(nonce);
    }

    method Send(a: Attempt) returns (r: SendResult)
      modifies this
      ensures match Begin(old(nonce), monitor.lastConfirmedNonce, a.reading)
        case NoReading => r == Failed(NonceUnknown) && nonce == old(nonce)
        case Refused(stored) => r == Failed(TooManyPending) && nonce == stored
        case Going(n, stored) =>
          if a.built && a.signed.Some? && a.accepted then
            && r == Sent(a.signed.value)
            && nonce == Wrap64(stored + 1)
            && sentTxs == old(sentTxs)[a.signed.value := TxnDetails(n, a.now)]
            && spawned == old(spawned) + [(a.signed.value, n)]
          else
            && r == Failed(if !a.built then NotBuilt else if a.signed.None? then NotSigned else NotAccepted)
            && nonce == stored
      ensures r.Failed? ==> sentTxs == old(sentTxs) && spawned == old(spawned)
    {
      var n := GetNonce(a.reading);
      if n.None? {
        return Failed(NonceUnknown);
      }
      WindowTop(monitor.lastConfirmedNonce);
      var allowed := monitor.AllowNonce(n.value);
      if !allowed {
        return Failed(TooManyPending);
      }
      if !a.built {
        return Failed(NotBuilt);
      }
      if a.signed.None? {
        return Failed(NotSigned);
      }
      if !a.accepted {
        return Failed(NotAccepted);
      }
      nonce := Wrap64(nonce + 1);
      var hash := a.signed.value;
      sentTxs := sentTxs[hash := TxnDetails(n.value, a.now)];
      spawned := spawned + [(hash, n.value)];
      r := Sent(hash);
    }

    /** Replaces a pending transaction by an empty one with the same nonce and higher fees. */
    method CancelTx(found: Lookup, suggestedTip: Option<int>, signed: Option<Hash>, accepted: bool, now: nat)
      returns (r: CancelResult)
      modifies this`sentTxs, this`spawned
      ensures r.CancelSent? <==> found.Pending? && suggestedTip.Some? && signed.Some? && accepted
      ensures r.CancelSent? ==>
                && r == CancelSent(signed.value, found.nonce, Replacement(found.fees, suggestedTip.value))
                && sentTxs == old(sentTxs)[r.hash := TxnDetails(found.nonce, now)]
                && spawned == old(spawned) + [(r.hash, found.nonce)]
      ensures r.CancelSent? ==>
                var tip := if suggestedTip.value > found.fees.tipCap then suggestedTip.value else found.fees.tipCap;
                && 10 * r.fees.tipCap <= 11 * tip < 10 * r.fees.tipCap + 10
                && r.fees.feeCap == found.fees.feeCap + r.fees.tipCap
      ensures r.CancelFailed? ==> sentTxs == old(sentTxs) && spawned == old(spawned)
      ensures r.CancelFailed? ==>
                r.error == if !found.Pending? then NotPending else if suggestedTip.None? then NoTip
                           else if signed.None? then CancelNotSigned else CancelNotAccepted
    {
      if !found.Pending? {
        return CancelFailed(NotPending);
      }
      if suggestedTip.None? {
        return CancelFailed(NoTip);
      }
      var gasFeeCap, gasTipCap := found.fees.feeCap, suggestedTip.value;
      if gasFeeCap <= found.fees.feeCap {
        gasFeeCap := found.fees.feeCap;
      }
      if gasTipCap <= found.fees.tipCap {
        gasTipCap := found.fees.tipCap;
      }
      gasTipCap := gasTipCap * 110 / 100;
      gasFeeCap := gasFeeCap + gasTipCap;
      if signed.None? {
        return CancelFailed(CancelNotSigned);
      }
      if !accepted {
        return CancelFailed(CancelNotAccepted);
      }
      sentTxs := sentTxs[signed.value := TxnDetails(found.nonce, now)];
      spawned := spawned + [(signed.value, found.nonce)];
      r := CancelSent(signed.value, found.nonce, Fees(gasFeeCap, gasTipCap));
    }

    /** What a background waiter does with the result it received. The error that the
        cancelled branch inspects is the one returned by `watchTx`, which never fails, and
        not the error inside the result: a cancelled transaction stays in the table. */
    method Resume(txnHash: Hash, receipt: Result)
      modifies this`sentTxs
      ensures sentTxs == if receipt.Mined? then old(sentTxs) - {txnHash} else old(sentTxs)
    {
      var watchErr: Option<Result> := None;
      if !receipt.Mined? {
        if watchErr != Some(Cancelled) {
          return;
        }
      }
      sentTxs := sentTxs - {txnHash};
    }

    /** The first of two critical sections; the transaction may be cleared before the second. */
    method LookUp(txHash: Hash) returns (d: Option<TxnDetails>)
      ensures d.Some? <==> txHash in sentTxs
      ensures d.Some? ==> d.value == sentTxs[txHash]
    {
      d := if txHash in sentTxs then Some(sentTxs[txHash]) else None;
    }

    /** Only a pending transaction can be waited for; it is watched under its own nonce. Then
        `received` is what comes on the channel, None if the caller's context ends first. */
    method WaitForReceipt(txHash: Hash, received: Option<Result>) returns (c: Option<ChanId>, r: Waited)
      modifies monitor`waitMap, monitor`chans
      ensures c.Some? <==> txHash in sentTxs
      ensures c.None? <==> r.TxNotFound?
      ensures c.None? ==> monitor.St() == old(monitor.St())
      ensures c.Some? ==> c.value == |old(monitor.chans)|
      ensures c.Some? ==>
                monitor.St() == Watched(old(monitor.St()), txHash, sentTxs[txHash].nonce)
      ensures c.Some? && received.None? ==> r == ContextDone
      ensures forall x :: r == Received(x) ==> received == Some(Mined(x))
      ensures c.Some? && received.Some? ==>
                if received.value.Mined? then r.Received? else r == NoReceipt(received.value)
    {
      var d := LookUp(txHash);
      if d.None? {
        return None, TxNotFound;
      }
      var id := monitor.WatchTx(txHash, d.value.nonce);
      c := Some(id);
      if received.None? {
        r := ContextDone;
      } else if !received.value.Mined? {
        r := NoReceipt(received.value);
      } else {
        r := Received(received.value.receipt);
      }
    }

    /** The pending transactions as a nonce-sorted permutation of the table. */
    method PendingTxns() returns (txns: seq<TxnInfo>)
      ensures SortedByNonce(txns)
      ensures multiset(txns) == multiset(Entries(sentTxs))
    {
      txns := [];
      var hashes := Range(sentTxs);
      ghost var done: map<Hash, TxnDetails> := map[];
      for i := 0 to |hashes|
        invariant forall h :: h in done <==> h in hashes[..i]
        invariant forall h :: h in done ==> done[h] == sentTxs[h]
        invariant SortedByNonce(txns)
        invariant multiset(txns) == multiset(Entries(done))
      {
        var h := hashes[i];
        var d := sentTxs[h];
        txns := InsertByNonce(txns, TxnInfo(h, d.nonce, d.created));
        EntriesStep(done, h, d);
        done := done[h := d];
      }
      assert done == sentTxs;
    }
  }
}
