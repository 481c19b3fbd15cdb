/** Signing and verifying bids and commitments. */
module Signer {
  import opened Prelude
  import opened Encoding
  import opened Digests
  import opened P2P

  type Key = nat
  type PubKey = nat

  /** What a key makes: 64 bytes and the recovery byte V. */
  type Signature = s: Bytes | |s| == 65 witness seq(65, _ => 'a')

  /** What can be verified at all: the byte of V has to be there. */
  type Received = s: Bytes | |s| >= 65 witness seq(65, _ => 'a')

  /** The curve, the hash and the address derivation, none of them looked into. */
  datatype Scheme = Scheme(
    keccak: Keccak,
    sign: (Key, Word) -> Signature,
    pubOf: Key -> PubKey,
    recover: (Word, Bytes) -> Option<PubKey>,
    check: (PubKey, Word, string) -> bool,
    addressOf: PubKey -> Address)

  datatype Error = MissingFields | InvalidAmount | MissingHashSignature | InvalidHash | NotRecovered | InvalidSignature

  function V(s: Received): nat {
    s[64] as int
  }

  function WithV(s: Received, v: nat): (r: Received)
    requires v < 256
    ensures |r| == |s|
  {
    s[64 := v as char]
  }

  /** V goes out as 27 or 28. */
  function Outgoing(s: Received): (r: Received)
    ensures |r| == |s|
  {
    if V(s) == 0 || V(s) == 1 then WithV(s, V(s) + 27) else s
  }

  /** V is read as 0 or 1. */
  function Incoming(s: Received): (r: Received)
    ensures |r| == |s|
  {
    if 27 <= V(s) <= 28 then WithV(s, V(s) - 27) else s
  }

  /** The shift of V is undone for every signature; the other bytes never change. */
  lemma ShiftUndone(s: Received)
    ensures Incoming(Outgoing(s)) == Incoming(s)
    ensures Outgoing(s)[..64] == s[..64] && Incoming(s)[..64] == s[..64]
    ensures Outgoing(s)[65..] == s[65..] && Incoming(s)[65..] == s[65..]
    ensures V(Outgoing(s)) == if s[64] == 0 as char then 27 else if s[64] == 1 as char then 28 else V(s)
    ensures V(Incoming(s)) == if s[64] == 27 as char then 0 else if s[64] == 28 as char then 1 else V(s)
  {
    assert Outgoing(s)[64 := s[64]] == s;
  }

  /** What is assumed of the curve: a signature, its V normalised, leads back to the key that
      made it, and checks out under it. */
  ghost predicate Ideal(sc: Scheme) {
    forall key, h ::
      && sc.recover(h, Incoming(sc.sign(key, h))) == Some(sc.pubOf(key))
      && sc.check(sc.pubOf(key), h, sc.sign(key, h)[..64])
  }

  function Recovered(sc: Scheme, payload: Word, expected: string, sig: Received): Outcome<Address, Error> {
    if payload != expected then Err(InvalidHash)
    else
      match sc.recover(payload, Incoming(sig))
      case None => Err(NotRecovered)
      case Some(pub) =>
        if sc.check(pub, payload, Incoming(sig)[..|sig| - 1]) then Ok(sc.addressOf(pub)) else Err(InvalidSignature)
  }

  /** The code reads byte 64 of a signature without looking at its length. */
  predicate WellSized(sig: Option<Bytes>) {
    sig.Some? ==> |sig.value| >= 65
  }

  function CheckedBid(sc: Scheme, b: Bid): Outcome<Address, Error>
    requires WellSized(b.signature)
  {
    if b.digest.None? || b.signature.None? then Err(MissingHashSignature)
    else
      match BidHash(sc.keccak, b)
      case None => Err(InvalidAmount)
      case Some(h) => Recovered(sc, h, b.digest.value, b.signature.value)
  }

  function CheckedPreConfirmation(sc: Scheme, c: PreConfirmation): Outcome<Address, Error>
    requires WellSized(c.signature) && WellSized(c.bid.signature)
  {
    if c.digest.None? || c.signature.None? then Err(MissingHashSignature)
    else if CheckedBid(sc, c.bid).Err? then Err(CheckedBid(sc, c.bid).error)
    else
      match CommitmentHash(sc.keccak, c.bid)
      case None => Err(InvalidAmount)
      case Some(h) => Recovered(sc, h, c.digest.value, c.signature.value)
  }

  function SignedBid(sc: Scheme, key: Key, txHash: string, amount: string,
                     blockNumber: int64, decayStart: int64, decayEnd: int64): Outcome<Bid, Error>
  {
    if txHash == "" || amount == "" || blockNumber == 0 then Err(MissingFields)
    else
      var plain := Bid(txHash, amount, blockNumber, decayStart, decayEnd, None, None);
      match BidHash(sc.keccak, plain)
      case None => Err(InvalidAmount)
      case Some(h) => Ok(plain.(digest := Some(h), signature := Some(Outgoing(sc.sign(key, h)))))
  }

  function SignedPreConfirmation(sc: Scheme, key: Key, b: Bid): Outcome<PreConfirmation, Error>
    requires WellSized(b.signature)
  {
    if CheckedBid(sc, b).Err? then Err(CheckedBid(sc, b).error)
    else
      match CommitmentHash(sc.keccak, b)
      case None => Err(InvalidAmount)
      case Some(h) => Ok(PreConfirmation(b, Some(h), Some(Outgoing(sc.sign(key, h)))))
  }

  /** The signer object: signatures are byte buffers changed in place. */
  class PrivateKeySigner {
    const sc: Scheme
    const key: Key

    constructor (sc: Scheme, key: Key)
      ensures this.sc == sc && this.key == key
    {
      this.sc, this.key := sc, key;
    }

    method SignHash(h: Word) returns (sig: array<char>)
      ensures fresh(sig) && sig[..] == sc.sign(key, h)
    {
      var s := sc.sign(key, h);
      sig := new char[65](i requires 0 <= i < 65 => s[i]);
    }

    /** Moves V from 0 or 1 to 27 or 28, in the buffer. */
    method ShiftV(sig: array<char>, ghost s: Signature)
      requires sig[..] == s
      modifies sig
      ensures sig[..] == Outgoing(s)
    {
      if sig[64] as int == 0 || sig[64] as int == 1 {
        sig[64] := (sig[64] as int + 27) as char;
      }
    }

    method ConstructSignedBid(txHash: string, amount: string, blockNumber: int64, decayStart: int64, decayEnd: int64)
      returns (r: Outcome<Bid, Error>)
      ensures r == SignedBid(sc, key, txHash, amount, blockNumber, decayStart, decayEnd)
      ensures r.Ok? <==> txHash != "" && blockNumber != 0 && ParseInt(amount).Some?
      ensures r.Err? ==> r.error == if txHash == "" || amount == "" || blockNumber == 0 then MissingFields else InvalidAmount
    {
      if txHash == "" || amount == "" || blockNumber == 0 {
        return Err(MissingFields);
      }
      var bid := Bid(txHash, amount, blockNumber, decayStart, decayEnd, None, None);
      var h := BidHash(sc.keccak, bid);
      if h.None? {
        return Err(InvalidAmount);
      }
      var sig := SignHash(h.value);
      ShiftV(sig, sc.sign(key, h.value));
      bid := bid.(digest := Some(h.value));
      bid := bid.(signature := Some(sig[..]));
      r := Ok(bid);
    }

    method ConstructPreConfirmation(bid: Bid) returns (r: Outcome<PreConfirmation, Error>)
      requires WellSized(bid.signature)
      ensures r == SignedPreConfirmation(sc, key, bid)
    {
      var checked := VerifyBid(bid);
      if checked.Err? {
        return Err(checked.error);
      }
      var c := PreConfirmation(bid, None, None);
      var h := CommitmentHash(sc.keccak, c.bid);
      if h.None? {
        return Err(InvalidAmount);
      }
      var sig := SignHash(h.value);
      ShiftV(sig, sc.sign(key, h.value));
      c := c.(digest := Some(h.value));
      c := c.(signature := Some(sig[..]));
      r := Ok(c);
    }

    method VerifyBid(bid: Bid) returns (r: Outcome<Address, Error>)
      requires WellSized(bid.signature)
      ensures r == CheckedBid(sc, bid)
      ensures r == Err(MissingHashSignature) <==> bid.digest.None? || bid.signature.None?
      ensures r == Err(InvalidAmount) <==>
                bid.digest.Some? && bid.signature.Some? && ParseInt(bid.amount).None?
      ensures r == Err(InvalidHash) <==>
                bid.digest.Some? && bid.signature.Some? && ParseInt(bid.amount).Some? && BidHash(sc.keccak, bid) != bid.digest
    {
      if bid.digest.None? || bid.signature.None? {
        return Err(MissingHashSignature);
      }
      var h := BidHash(sc.keccak, bid);
      if h.None? {
        return Err(InvalidAmount);
      }
      r := EipVerify(h.value, bid.digest.value, bid.signature.value);
    }

    method VerifyPreConfirmation(c: PreConfirmation) returns (r: Outcome<Address, Error>)
      requires WellSized(c.signature) && WellSized(c.bid.signature)
      ensures r == CheckedPreConfirmation(sc, c)
      ensures c.digest.None? || c.signature.None? ==> r == Err(MissingHashSignature)
      ensures c.digest.Some? && c.signature.Some? && CheckedBid(sc, c.bid).Err? ==> r == Err(CheckedBid(sc, c.bid).error)
      ensures c.digest.Some? && c.signature.Some? && CheckedBid(sc, c.bid).Ok? && CommitmentHash(sc.keccak, c.bid) != c.digest ==>
                r == Err(InvalidHash)
    {
      if c.digest.None? || c.signature.None? {
        return Err(MissingHashSignature);
      }
      var checked := VerifyBid(c.bid);
      if checked.Err? {
        return Err(checked.error);
      }
      var h := CommitmentHash(sc.keccak, c.bid);
      if h.None? {
        return Err(InvalidAmount);
      }
      r := EipVerify(h.value, c.digest.value, c.signature.value);
    }

    /** The signature is normalised in a copy; the message keeps its own. */
    method EipVerify(payload: Word, expected: string, signature: Received) returns (r: Outcome<Address, Error>)
      ensures r == Recovered(sc, payload, expected, signature)
      ensures r == Err(InvalidHash) <==> payload != expected
      ensures r == Err(NotRecovered) <==> payload == expected && sc.recover(payload, Incoming(signature)).None?
      ensures r.Err? ==> r.error in {InvalidHash, NotRecovered, InvalidSignature}
    {
      if payload != expected {
        return Err(InvalidHash);
      }
      var n := |signature|;
      var sig := new char[n](i requires 0 <= i < n => signature[i]);
      assert sig[..] == signature;
      if 27 <= sig[64] as int <= 28 {
        sig[64] := (sig[64] as int - 27) as char;
      }
      assert sig[..] == Incoming(signature);
      var pub := sc.recover(payload, sig[..]);
      if pub.None? {
        return Err(NotRecovered);
      }
      if !sc.check(pub.value, payload, sig[..n - 1]) {
        return Err(InvalidSignature);
      }
      r := Ok(sc.addressOf(pub.value));
    }
  }

  // ---------------------------------------------------------------- what verification means

  lemma OwnSignatureVerifies(sc: Scheme, key: Key, h: Word)
    requires Ideal(sc)
    ensures Recovered(sc, h, h, Outgoing(sc.sign(key, h))) == Ok(sc.addressOf(sc.pubOf(key)))
  {
    ShiftUndone(sc.sign(key, h));
  }

  /** What a signature vouches for: the word it was made over, by the owner of an address. */
  ghost predicate Vouches(sc: Scheme, sig: Received, h: Word, a: Address) {
    exists pub ::
      && sc.recover(h, Incoming(sig)) == Some(pub) && sc.addressOf(pub) == a
      && sc.check(pub, h, Incoming(sig)[..|sig| - 1])
  }

  /** A commitment verifies as its provider's exactly when both digests are the hashes of what
      they come with, the outer signature is the provider's, and the inner one somebody's. */
  lemma VerifiedExactly(sc: Scheme, c: PreConfirmation, a: Address)
    requires WellSized(c.signature) && WellSized(c.bid.signature)
    ensures CheckedPreConfirmation(sc, c) == Ok(a) <==>
      && c.digest.Some? && c.signature.Some? && c.bid.digest.Some? && c.bid.signature.Some?
      && BidHash(sc.keccak, c.bid) == c.bid.digest
      && CommitmentHash(sc.keccak, c.bid) == c.digest
      && Vouches(sc, c.signature.value, CommitmentHash(sc.keccak, c.bid).value, a)
      && exists bidder: Address :: Vouches(sc, c.bid.signature.value, BidHash(sc.keccak, c.bid).value, bidder)
  {
    if c.signature.Some? && c.bid.signature.Some? && BidHash(sc.keccak, c.bid).Some? {
      var inner, outer := BidHash(sc.keccak, c.bid).value, CommitmentHash(sc.keccak, c.bid).value;
      RecoveredExactly(sc, outer, c.signature.value);
      RecoveredExactly(sc, inner, c.bid.signature.value);
      hide Vouches, BidRaw, CommitmentRaw;
    }
  }

  lemma RecoveredExactly(sc: Scheme, h: Word, sig: Received)
    ensures forall a: Address :: Recovered(sc, h, h, sig) == Ok(a) <==> Vouches(sc, sig, h, a)
    ensures Recovered(sc, h, h, sig).Ok? <==> exists a: Address :: Vouches(sc, sig, h, a)
  {
  }

  /** A check succeeds only for words that the key has signed. */
  ghost predicate Unforged(sc: Scheme, signed: set<(PubKey, Word)>) {
    forall pub: PubKey, h: Word, s: string :: sc.check(pub, h, s) ==> (pub, h) in signed
  }

  /** Then a verified bid was signed by a key of the address returned, over the digest of
      these very terms. */
  lemma VerifiedBidWasSigned(sc: Scheme, signed: set<(PubKey, Word)>, b: Bid)
    requires Unforged(sc, signed)
    requires WellSized(b.signature) && CheckedBid(sc, b).Ok?
    ensures BidHash(sc.keccak, b).Some?
    ensures exists pub: PubKey :: sc.addressOf(pub) == CheckedBid(sc, b).value && (pub, BidHash(sc.keccak, b).value) in signed
  {
    var h := BidHash(sc.keccak, b).value;
    var a := CheckedBid(sc, b).value;
    RecoveredExactly(sc, h, b.signature.value);
    hide BidHash, Recovered;
    assert Vouches(sc, b.signature.value, h, a);
    var pub: PubKey :| sc.addressOf(pub) == a && sc.check(pub, h, Incoming(b.signature.value)[..|b.signature.value| - 1]);
    assert (pub, h) in signed;
  }

  /** Signing succeeds exactly for a named transaction, an integer amount and a block number
      other than zero; then the digest is that of the terms, and the signature the key's. */
  lemma SigningExactly(sc: Scheme, key: Key, txHash: string, amount: string,
                       blockNumber: int64, decayStart: int64, decayEnd: int64)
    ensures var r := SignedBid(sc, key, txHash, amount, blockNumber, decayStart, decayEnd);
      && (r.Ok? <==> txHash != "" && blockNumber != 0 && ParseInt(amount).Some?)
      && (r.Ok? ==>
            && r.value.txHash == txHash && r.value.amount == amount && r.value.blockNumber == blockNumber
            && r.value.decayStart == decayStart && r.value.decayEnd == decayEnd
            && r.value.digest.Some? && r.value.digest == BidHash(sc.keccak, r.value)
            && r.value.signature == Some(Outgoing(sc.sign(key, BidHash(sc.keccak, r.value).value))))
      && (r == Err(MissingFields) <==> txHash == "" || amount == "" || blockNumber == 0)
      && (r.Err? && r != Err(MissingFields) ==> r == Err(InvalidAmount))
  {
    hide U256Bytes, RawData;
  }

  /** Signing then verifying gives back the bidder's address and leaves the terms as given. */
  lemma SignedBidVerifies(sc: Scheme, key: Key, txHash: string, amount: string,
                          blockNumber: int64, decayStart: int64, decayEnd: int64)
    requires Ideal(sc)
    requires SignedBid(sc, key, txHash, amount, blockNumber, decayStart, decayEnd).Ok?
    ensures var b := SignedBid(sc, key, txHash, amount, blockNumber, decayStart, decayEnd).value;
      && WellSized(b.signature)
      && CheckedBid(sc, b) == Ok(sc.addressOf(sc.pubOf(key)))
      && b.txHash == txHash && b.amount == amount
      && b.blockNumber == blockNumber && b.decayStart == decayStart && b.decayEnd == decayEnd
  {
    var b := SignedBid(sc, key, txHash, amount, blockNumber, decayStart, decayEnd).value;
    OwnSignatureVerifies(sc, key, b.digest.value);
  }

  /** A provider commits to exactly the bids that verify, and its commitment then verifies
      under its own address and carries the bid unchanged. */
  lemma PreConfirmationVerifies(sc: Scheme, key: Key, b: Bid)
    requires Ideal(sc) && WellSized(b.signature)
    ensures SignedPreConfirmation(sc, key, b).Ok? <==> CheckedBid(sc, b).Ok?
    ensures SignedPreConfirmation(sc, key, b).Ok? ==>
              var c := SignedPreConfirmation(sc, key, b).value;
              && c.bid == b && WellSized(c.signature)
              && CheckedPreConfirmation(sc, c) == Ok(sc.addressOf(sc.pubOf(key)))
  {
    if CheckedBid(sc, b).Ok? {
      OwnSignatureVerifies(sc, key, CommitmentHash(sc.keccak, b).value);
    }
  }

  /** A verified commitment binds its signer to the terms of the bid it carries. Two
      commitments with the same digest carry the same bid, short of a named collision. */
  lemma VerifiedCommitmentBinds(sc: Scheme, c: PreConfirmation, d: PreConfirmation)
    requires WellSized(c.signature) && WellSized(c.bid.signature) && WellSized(d.signature) && WellSized(d.bid.signature)
    requires CheckedPreConfirmation(sc, c).Ok? && CheckedPreConfirmation(sc, d).Ok? && c.digest == d.digest
    ensures var x, y := ParseInt(c.bid.amount).value, ParseInt(d.bid.amount).value;
      || (SameTerms(c.bid, d.bid) && c.bid.digest == d.bid.digest && c.bid.signature == d.bid.signature)
      || Collision(sc.keccak, CommitmentRaw(sc.keccak, c.bid, x), CommitmentRaw(sc.keccak, d.bid, y))
      || Collision(sc.keccak, CommitmentData(sc.keccak, c.bid, x), CommitmentData(sc.keccak, d.bid, y))
      || Collision(sc.keccak, c.bid.txHash, d.bid.txHash)
      || Collision(sc.keccak, HexOf(c.bid.digest), HexOf(d.bid.digest))
      || Collision(sc.keccak, HexOf(c.bid.signature), HexOf(d.bid.signature))
  {
    CommitmentDigestBinds(sc.keccak, c.bid, d.bid);
  }
}
