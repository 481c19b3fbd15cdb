/** A bid from the client's request to the commitments it gets back. */
module BidFlow {
  import opened Prelude
  import opened Encoding
  import opened Digests
  import opened P2P
  import opened Signer
  import opened Preconf
  import opened Fanout

  /** The client's request, and the reply built from one preconfirmation. */
  datatype Request = Request(txHashes: seq<string>, amount: string, blockNumber: int64, decayStart: int64, decayEnd: int64)

  datatype Commitment = Commitment(
    txHashes: seq<string>, amount: string, blockNumber: int64, decayStart: int64, decayEnd: int64,
    receivedBidDigest: string, receivedBidSignature: string,
    commitmentDigest: string, commitmentSignature: string, provider: Address)

  function Reply(a: Answer): Commitment {
    var b := a.c.bid;
    Commitment(Split(b.txHash), b.amount, b.blockNumber, b.decayStart, b.decayEnd,
               HexOf(b.digest), HexOf(b.signature), HexOf(a.c.digest), HexOf(a.c.signature), a.provider)
  }

  /** The consumer's loop: one reply per preconfirmation, in order, until the client is gone. */
  method Drain(answers: seq<Answer>, clientTakes: nat) returns (replies: seq<Commitment>)
    ensures |replies| == if |answers| <= clientTakes then |answers| else clientTakes
    ensures forall i :: 0 <= i < |replies| ==> replies[i] == Reply(answers[i])
    ensures forall i :: 0 <= i < |replies| ==>
              && Join(replies[i].txHashes) == answers[i].c.bid.txHash && replies[i].amount == answers[i].c.bid.amount
              && replies[i].blockNumber == answers[i].c.bid.blockNumber
              && replies[i].decayStart == answers[i].c.bid.decayStart && replies[i].decayEnd == answers[i].c.bid.decayEnd
              && replies[i].provider == answers[i].provider
  {
    forall i | 0 <= i < |answers| ensures Join(Reply(answers[i]).txHashes) == answers[i].c.bid.txHash {
      JoinSplit(answers[i].c.bid.txHash);
    }
    replies := [];
    for i := 0 to |answers|
      invariant |replies| == i <= clientTakes
      invariant forall j :: 0 <= j < i ==> replies[j] == Reply(answers[j])
    {
      if i == clientTakes {
        return;
      }
      replies := replies + [Reply(answers[i])];
    }
  }

  /** What a worker makes of the preconfirmation it read. */
  method Receive(signer: PrivateKeySigner, c: PreConfirmation) returns (a: Option<Answer>)
    requires WellSized(c.signature) && WellSized(c.bid.signature)
    ensures a.Some? <==> CheckedPreConfirmation(signer.sc, c).Ok?
    ensures a.Some? ==> a.value == Answer(c, CheckedPreConfirmation(signer.sc, c).value) && Genuine(signer.sc, a.value)
  {
    var provider := signer.VerifyPreConfirmation(c);
    if provider.Err? {
      return None;
    }
    a := Some(Answer(c, provider.value));
  }

  function SentBid(sc: Scheme, key: Key, q: Request): Outcome<Bid, Signer.Error> {
    SignedBid(sc, key, Join(q.txHashes), q.amount, q.blockNumber, q.decayStart, q.decayEnd)
  }

  /** Between honest parties: whatever a provider reveals for the bid made from a request
      verifies at the bidder, and the reply carries the client's own hash list, amount, block
      and decay times, and the provider's own address. */
  lemma EndToEnd(sc: Scheme, bidderKey: Key, providerKey: Key, q: Request, peer: Peer, w: World, c: PreConfirmation)
    requires Ideal(sc)
    requires q.txHashes != [] && forall h :: h in q.txHashes ==> CommaFree(h)
    requires SentBid(sc, bidderKey, q).Ok?
    requires WellSized(SentBid(sc, bidderKey, q).value.signature)
    requires PreConfirmationWritten(c) in Pipeline(sc, providerKey, peer, Some(SentBid(sc, bidderKey, q).value), w)
    ensures WellSized(c.signature) && WellSized(c.bid.signature)
    ensures CheckedPreConfirmation(sc, c) == Ok(sc.addressOf(sc.pubOf(providerKey)))
    ensures CheckedBid(sc, c.bid) == Ok(sc.addressOf(sc.pubOf(bidderKey)))
    ensures var r := Reply(Answer(c, CheckedPreConfirmation(sc, c).value));
      && r.txHashes == q.txHashes
      && r.amount == q.amount && r.blockNumber == q.blockNumber
      && r.decayStart == q.decayStart && r.decayEnd == q.decayEnd
      && r.provider == sc.addressOf(sc.pubOf(providerKey))
    ensures var r := Reply(Answer(c, CheckedPreConfirmation(sc, c).value));
      && BidHash(sc.keccak, c.bid).Some? && CommitmentHash(sc.keccak, c.bid).Some?
      && r.receivedBidDigest == Hex(BidHash(sc.keccak, c.bid).value)
      && r.receivedBidSignature == Hex(Outgoing(sc.sign(bidderKey, BidHash(sc.keccak, c.bid).value)))
      && r.commitmentDigest == Hex(CommitmentHash(sc.keccak, c.bid).value)
      && r.commitmentSignature == Hex(Outgoing(sc.sign(providerKey, CommitmentHash(sc.keccak, c.bid).value)))
  {
    var b := SentBid(sc, bidderKey, q).value;
    RevealedInFull(sc, providerKey, peer, Some(b), w, c);
    SignedBidVerifies(sc, bidderKey, Join(q.txHashes), q.amount, q.blockNumber, q.decayStart, q.decayEnd);
    PreConfirmationVerifies(sc, providerKey, b);
    SplitJoinExactly(q.txHashes);
    SigningExactly(sc, bidderKey, Join(q.txHashes), q.amount, q.blockNumber, q.decayStart, q.decayEnd);
    hide Pipeline, CheckedBid, BidRaw, CommitmentRaw, Split, Join, Hex;
  }

  /** The pipeline does reveal: an honest bid of a bidder with allowance, valid and accepted,
      whose commitment can be stored, is answered. */
  lemma HonestBidIsAnswered(sc: Scheme, bidderKey: Key, providerKey: Key, q: Request, peer: Peer, w: World)
    requires Ideal(sc) && peer.ptype.Bidder?
    requires SentBid(sc, bidderKey, q).Ok? && ValidBid(SentBid(sc, bidderKey, q).value)
    requires w.allowance(sc.addressOf(sc.pubOf(bidderKey))) && w.decision == Some(Accepted)
    requires forall args :: w.stores(args)
    requires WellSized(SentBid(sc, bidderKey, q).value.signature)
    ensures exists c ::
      PreConfirmationWritten(c) in Pipeline(sc, providerKey, peer, Some(SentBid(sc, bidderKey, q).value), w)
  {
    var b := SentBid(sc, bidderKey, q).value;
    SignedBidVerifies(sc, bidderKey, Join(q.txHashes), q.amount, q.blockNumber, q.decayStart, q.decayEnd);
    PreConfirmationVerifies(sc, providerKey, b);
    var c := SignedPreConfirmation(sc, providerKey, b).value;
    hide CheckedBid, SignedPreConfirmation, ValidBid, SignedBid;
    assert Pipeline(sc, providerKey, peer, Some(b), w)[5] == PreConfirmationWritten(c);
  }
}
