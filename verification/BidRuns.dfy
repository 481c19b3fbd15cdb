/** Handlers of bids and the provider's callbacks together: any number of handlers wait, each on
    the channel of its own registration, while registrations, hand-offs, timeouts and responses
    interleave in any way. */
module BidRuns {
  import opened Prelude
  import opened Encoding
  import opened Digests
  import opened P2P
  import opened Signer
  import opened Preconf
  import opened ProviderService
  import P = ProviderRuns

  /** One bid being handled: the callback registered for it and the rest of its surroundings. */
  datatype Handling = Handling(id: CallID, peer: Peer, bid: Bid, w: World)

  /** The handler registered its own digest, and whatever decision it got came on its channel. */
  predicate Attends(r: P.Run, h: Handling) {
    && WellSized(h.bid.signature)
    && h.id < |r.s.bids| && h.bid.digest == Some(r.s.bids[h.id].digest)
    && (h.w.decision.Some? ==> r.s.bids[h.id].ch.sent != [] && h.w.decision.value == r.s.bids[h.id].ch.sent[0])
  }

  predicate Reveals(sc: Scheme, key: Key, h: Handling, c: PreConfirmation)
    requires WellSized(h.bid.signature)
  {
    PreConfirmationWritten(c) in Pipeline(sc, key, h.peer, Some(h.bid), h.w)
  }

  /** A revealed preconfirmation is for the bid handled, and was accepted on its own channel. */
  lemma RevealedOnItsChannel(sc: Scheme, key: Key, r: P.Run, h: Handling, c: PreConfirmation)
    requires Attends(r, h) && Reveals(sc, key, h, c)
    ensures c.bid == h.bid && c.bid.digest == Some(r.s.bids[h.id].digest)
    ensures r.s.bids[h.id].ch.sent != [] && r.s.bids[h.id].ch.sent[0] == Accepted
  {
    RevealedInFull(sc, key, h.peer, Some(h.bid), h.w, c);
  }

  /** In every run, a preconfirmation is revealed only if the provider has sent an acceptance
      for the digest of the very bid it carries. */
  lemma RevealedWasAccepted(sc: Scheme, key: Key, events: seq<P.Event>, h: Handling, c: PreConfirmation)
    requires P.CanRun(P.Start, events)
    requires Attends(P.After(P.Start, events), h) && Reveals(sc, key, h, c)
    ensures c.bid == h.bid && c.bid.digest.Some?
    ensures (c.bid.digest.value, Accepted) in P.After(P.Start, events).said
  {
    var r := P.After(P.Start, events);
    RevealedOnItsChannel(sc, key, r, h, c);
    hide *;
    P.DeliveredWasSaid(events, h.id);
  }

  /** The terms of `b` are those of `c`, or a pair of preimages that the code hashed collides. */
  ghost predicate BoundTo(k: Keccak, b: Bid, c: Bid)
    requires ParseInt(b.amount).Some? && ParseInt(c.amount).Some?
  {
    var x, y := ParseInt(b.amount).value, ParseInt(c.amount).value;
    || SameTerms(b, c)
    || Collision(k, BidRaw(k, b, x), BidRaw(k, c, y))
    || Collision(k, BidData(k, b, x), BidData(k, c, y))
    || Collision(k, b.txHash, c.txHash)
  }

  /** Whatever verified bid the provider looked at when it accepted that digest, the terms it
      saw are those it is committed to, short of a named collision. */
  lemma CommittedToWhatWasSeen(sc: Scheme, key: Key, r: P.Run, h: Handling, c: PreConfirmation, seen: Bid)
    requires Attends(r, h) && Reveals(sc, key, h, c)
    requires WellSized(seen.signature) && CheckedBid(sc, seen).Ok? && seen.digest == c.bid.digest
    ensures ParseInt(seen.amount).Some? && ParseInt(c.bid.amount).Some?
    ensures BoundTo(sc.keccak, seen, c.bid)
  {
    RevealedInFull(sc, key, h.peer, Some(h.bid), h.w, c);
    hide Pipeline, ValidBid, ArgsFor, SignedPreConfirmation;
    VerifiedDigest(sc, seen);
    VerifiedDigest(sc, c.bid);
    hide CheckedBid;
    BidDigestBinds(sc.keccak, seen, c.bid);
  }

  lemma VerifiedDigest(sc: Scheme, b: Bid)
    requires WellSized(b.signature) && CheckedBid(sc, b).Ok?
    ensures BidHash(sc.keccak, b).Some? && b.digest.Some? && b.digest.value == BidHash(sc.keccak, b).value
    ensures ParseInt(b.amount).Some?
  {
  }

  /** No acceptance serves two bids: at most as many preconfirmations are revealed for a digest
      as acceptances were sent for it. */
  lemma AcceptanceNotReused(sc: Scheme, key: Key, events: seq<P.Event>, d: Digest, hs: seq<Handling>, cs: seq<PreConfirmation>)
    requires P.CanRun(P.Start, events) && |cs| == |hs|
    requires forall i, j :: 0 <= i < j < |hs| ==> hs[i].id != hs[j].id
    requires forall i :: 0 <= i < |hs| ==>
               && Attends(P.After(P.Start, events), hs[i]) && Reveals(sc, key, hs[i], cs[i])
               && hs[i].bid.digest == Some(d)
    ensures |hs| <= P.After(P.Start, events).said[(d, Accepted)]
  {
    var r := P.After(P.Start, events);
    var ids := seq(|hs|, i requires 0 <= i < |hs| => hs[i].id);
    forall i | 0 <= i < |ids|
      ensures ids[i] < |r.s.bids| && r.s.bids[ids[i]].digest == d
      ensures r.s.bids[ids[i]].ch.sent != [] && r.s.bids[ids[i]].ch.sent[0] == Accepted
    {
      RevealedOnItsChannel(sc, key, r, hs[i], cs[i]);
    }
    hide Pipeline, Reveals, Attends;
    P.AnsweredAtMost(events, d, Accepted, ids);
  }
}
