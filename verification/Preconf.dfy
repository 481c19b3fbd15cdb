/** The provider's side of a bid: the pipeline from a received bid to a stored and revealed
    commitment. */
module Preconf {
  import opened Prelude
  import opened Encoding
  import opened Digests
  import opened P2P
  import opened Signer

  // ---------------------------------------------------------------- validation and casts

  predicate IsTxHash(s: string) {
    |s| == 64 && forall i :: 0 <= i < 64 ==>
      '0' <= s[i] <= '9' || 'a' <= s[i] <= 'f' || 'A' <= s[i] <= 'F'
  }

  /** The validation rules for bids handed to the provider. */
  predicate ValidBid(b: Bid) {
    && (forall h :: h in Split(b.txHash) ==> IsTxHash(h))
    && Digits(b.amount) && 0 < Value(b.amount) < TWO_64
    && b.blockNumber > 0
    && b.digest.Some? && 1 <= |b.digest.value| <= 64
    && b.decayStart > 0
    && b.decayEnd > 0
  }

  /** 64 hexadecimal digits, of either case. */
  predicate HexHash(h: string) {
    |h| == 64 && forall i :: 0 <= i < 64 ==> h[i] in "0123456789abcdefABCDEF"
  }

  lemma HexHashExactly(h: string)
    ensures IsTxHash(h) <==> HexHash(h)
    ensures HexHash(h) ==> CommaFree(h)
  {
    var hex := "0123456789abcdefABCDEF";
    forall c: char
      ensures c in hex <==> '0' <= c <= '9' || 'a' <= c <= 'f' || 'A' <= c <= 'F'
    {
      HexChar(c);
    }
  }

  lemma HexChar(c: char)
    ensures c in "0123456789abcdefABCDEF" <==> '0' <= c <= '9' || 'a' <= c <= 'f' || 'A' <= c <= 'F'
  {
    var hex := "0123456789abcdefABCDEF";
    if '0' <= c <= '9' {
      assert hex[c as int - '0' as int] == c;
    } else if 'a' <= c <= 'f' {
      assert hex[c as int - 'a' as int + 10] == c;
    } else if 'A' <= c <= 'F' {
      assert hex[c as int - 'A' as int + 16] == c;
    }
  }

  ghost predicate HashesAreHex(hashes: seq<string>) {
    hashes != [] && forall h :: h in hashes ==> HexHash(h)
  }

  ghost predicate AmountFits(amount: string) {
    exists k: nat, n: nat :: amount == Zeros(k) + Decimal(n) && 0 < n < TWO_64
  }

  lemma AmountFitsExactly(amount: string)
    ensures AmountFits(amount) <==> Digits(amount) && 0 < Value(amount) < TWO_64
  {
    if Digits(amount) && 0 < Value(amount) < TWO_64 {
      var k := DigitsAreDecimal(amount);
      hide *;
      assert amount == Zeros(k) + Decimal(Value(amount)) && 0 < Value(amount) < TWO_64;
      AmountOf(amount, k, Value(amount));
    }
    if k: nat, n: nat :| amount == Zeros(k) + Decimal(n) && 0 < n < TWO_64 {
      DecimalValue(k, n);
    }
  }

  lemma AmountOf(amount: string, k: nat, n: nat)
    requires amount == Zeros(k) + Decimal(n) && 0 < n < TWO_64
    ensures AmountFits(amount)
  {
  }

  /** The bids that reach the provider: a comma-separated list of transaction hashes, a
      positive decimal amount of 64 bits, a positive block number and decay times, and a digest
      of 1 to 64 bytes. All others are refused. */
  lemma ValidBidExactly(b: Bid)
    ensures ValidBid(b) <==>
      && (exists hashes :: HashesAreHex(hashes) && b.txHash == Join(hashes))
      && AmountFits(b.amount)
      && b.blockNumber > 0 && b.decayStart > 0 && b.decayEnd > 0
      && b.digest.Some? && 0 < |b.digest.value| < 65
  {
    AmountFitsExactly(b.amount);
    hide Value, AmountFits, Digits;
    HashListExactly(b.txHash);
    hide Split, IsTxHash, HashesAreHex;
  }

  lemma HashListExactly(s: string)
    ensures (forall h :: h in Split(s) ==> IsTxHash(h)) <==> exists hashes :: HashesAreHex(hashes) && s == Join(hashes)
  {
    hide HexHash, IsTxHash;
    if forall h :: h in Split(s) ==> IsTxHash(h) {
      JoinSplit(s);
      forall h | h in Split(s) ensures HexHash(h) {
        HexHashExactly(h);
      }
      assert HashesAreHex(Split(s));
    }
    if hashes :| HashesAreHex(hashes) && s == Join(hashes) {
      forall h | h in hashes ensures CommaFree(h) && IsTxHash(h) {
        HexHashExactly(h);
      }
      SplitJoinExactly(hashes);
    }
  }

  /** Go's conversions between the two 64-bit integer types. */
  function ToInt64(w: uint64): int64 {
    if w < 0x8000_0000_0000_0000 then w else w - 0x1_0000_0000_0000_0000
  }

  function ToUint64(v: int64): uint64 {
    Wrap64(v)
  }

  /** `big.Int.Int64`: the low 64 bits of the magnitude, with the sign put back. */
  function BigToInt64(x: int): int64 {
    var low := ToInt64(Wrap64(if x < 0 then -x else x));
    if x < 0 then ToInt64(Wrap64(0 - low)) else low
  }

  /** The arguments of the contract call that stores a commitment. */
  datatype StoreArgs = StoreArgs(amount: uint64, blockNumber: uint64, txHash: string,
                                 decayStart: uint64, decayEnd: uint64, bidSig: Bytes, commitmentSig: Bytes)

  function ArgsFor(amount: int, c: PreConfirmation): StoreArgs
    requires c.bid.signature.Some? && c.signature.Some?
  {
    StoreArgs(ToUint64(BigToInt64(amount)), ToUint64(c.bid.blockNumber), c.bid.txHash,
              ToUint64(c.bid.decayStart), ToUint64(c.bid.decayEnd), c.bid.signature.value, c.signature.value)
  }

  /** Every number stored on chain for a valid bid equals the word its digest covers. */
  lemma CastsLossless(c: PreConfirmation)
    requires ValidBid(c.bid) && c.bid.signature.Some? && c.signature.Some?
    ensures ParseInt(c.bid.amount).Some?
    ensures var amount := ParseInt(c.bid.amount).value; var a := ArgsFor(amount, c);
      && U256Bytes(a.amount) == U256Bytes(amount)
      && U256Bytes(a.blockNumber) == U256Bytes(c.bid.blockNumber)
      && U256Bytes(a.decayStart) == U256Bytes(c.bid.decayStart)
      && U256Bytes(a.decayEnd) == U256Bytes(c.bid.decayEnd)
  {
    var amount := Value(c.bid.amount);
    var w := Wrap64(amount);
    assert w == amount;
    assert Wrap64(ToInt64(w)) == w;
  }

  /** The stored amount is the amount modulo 2^64, whatever its sign and size, and casting is
      lossless exactly for the amounts that fit. */
  lemma AmountCastExactly(amount: int)
    ensures ToUint64(BigToInt64(amount)) as int == amount % TWO_64
    ensures ToUint64(BigToInt64(amount)) as int == amount <==> 0 <= amount < TWO_64
  {
    if amount >= 0 {
      assert ToUint64(BigToInt64(amount)) as int == amount % TWO_64;
    } else {
      NegatedMod(-amount);
    }
  }

  lemma NegatedMod(m: nat)
    requires m > 0
    ensures (0 - m as int) % TWO_64 == if m % TWO_64 == 0 then 0 else TWO_64 - m % TWO_64
  {
    var q, r := m / TWO_64, m % TWO_64;
    assert m == q * TWO_64 + r;
    assert 0 - m as int == (0 - q as int - 1) * TWO_64 + (TWO_64 - r);
  }

  // ---------------------------------------------------------------- the pipeline

  datatype Status = Unspecified | Accepted | Rejected

  /** What the surroundings answer: whether a bidder has allowance, the provider's decision
      (None: it did not come in time), whether the commitment could be stored. */
  datatype World = World(allowance: Address -> bool, decision: Option<Status>, stores: StoreArgs -> bool)

  datatype Effect =
    | BidVerified(bidder: Address)
    | AllowanceFound(bidder: Address)
    | BidEnqueued(bid: Bid)
    | BidAccepted
    | CommitmentStored(args: StoreArgs)
    | PreConfirmationWritten(c: PreConfirmation)

  /** The effects of handling one bid, in order, each only after the ones before it. */
  function Pipeline(sc: Scheme, key: Key, peer: Peer, msg: Option<Bid>, w: World): seq<Effect>
    requires msg.Some? ==> WellSized(msg.value.signature)
  {
    if !peer.ptype.Bidder? || msg.None? then []
    else
      var b := msg.value;
      var who := CheckedBid(sc, b);
      if who.Err? then []
      else if !w.allowance(who.value) then [BidVerified(who.value)]
      else
        var e2 := [BidVerified(who.value), AllowanceFound(who.value)];
        if !ValidBid(b) then e2
        else if w.decision != Some(Accepted) then e2 + [BidEnqueued(b)]
        else
          var e4 := e2 + [BidEnqueued(b), BidAccepted];
          var c := SignedPreConfirmation(sc, key, b);
          if c.Err? then e4
          else
            var args := ArgsFor(ParseInt(b.amount).value, c.value);
            if !w.stores(args) then e4
            else e4 + [CommitmentStored(args), PreConfirmationWritten(c.value)]
  }

  class Handler {
    const signer: PrivateKeySigner
    var effects: seq<Effect>

    constructor (signer: PrivateKeySigner)
      ensures this.signer == signer && effects == []
    {
      this.signer, effects := signer, [];
    }

    /** True when the preconfirmation was revealed. */
    method HandleBid(peer: Peer, msg: Option<Bid>, w: World) returns (revealed: bool)
      requires msg.Some? ==> WellSized(msg.value.signature)
      modifies this`effects
      ensures effects == old(effects) + Pipeline(signer.sc, signer.key, peer, msg, w)
      ensures revealed <==> exists c :: PreConfirmationWritten(c) in Pipeline(signer.sc, signer.key, peer, msg, w)
    {
      hide ValidBid, ArgsFor, CommitmentRaw, BidRaw, Recovered, ParseInt;
      revealed := false;
      if !peer.ptype.Bidder? || msg.None? {
        return;
      }
      var bid := msg.value;
      var who := signer.VerifyBid(bid);
      if who.Err? {
        return;
      }
      effects := effects + [BidVerified(who.value)];
      if !w.allowance(who.value) {
        return;
      }
      effects := effects + [AllowanceFound(who.value)];
      var amount := ParseInt(bid.amount);
      if !ValidBid(bid) {
        return;
      }
      effects := effects + [BidEnqueued(bid)];
      if w.decision != Some(Accepted) {
        return;
      }
      effects := effects + [BidAccepted];
      var c := signer.ConstructPreConfirmation(bid);
      if c.Err? {
        return;
      }
      var args := ArgsFor(amount.value, c.value);
      if !w.stores(args) {
        return;
      }
      effects := effects + [CommitmentStored(args)];
      effects := effects + [PreConfirmationWritten(c.value)];
      assert PreConfirmationWritten(c.value) in Pipeline(signer.sc, signer.key, peer, msg, w);
      revealed := true;
    }
  }

  function Rank(e: Effect): nat {
    match e
    case BidVerified(_) => 0
    case AllowanceFound(_) => 1
    case BidEnqueued(_) => 2
    case BidAccepted => 3
    case CommitmentStored(_) => 4
    case PreConfirmationWritten(_) => 5
  }

  /** However far a bid gets, no stage is skipped, repeated or taken out of turn, and only a
      verified, valid bid of a bidder with allowance reaches the provider. */
  lemma StagesInOrder(sc: Scheme, key: Key, peer: Peer, msg: Option<Bid>, w: World, i: nat)
    requires msg.Some? ==> WellSized(msg.value.signature)
    requires i < |Pipeline(sc, key, peer, msg, w)|
    ensures Rank(Pipeline(sc, key, peer, msg, w)[i]) == i
    ensures peer.ptype.Bidder? && msg.Some? && CheckedBid(sc, msg.value) == Ok(Pipeline(sc, key, peer, msg, w)[0].bidder)
    ensures i >= 1 ==> w.allowance(Pipeline(sc, key, peer, msg, w)[0].bidder)
    ensures i >= 2 ==> ValidBid(msg.value) && Pipeline(sc, key, peer, msg, w)[2] == BidEnqueued(msg.value)
  {
    hide ValidBid, ArgsFor, CheckedBid, SignedPreConfirmation, ParseInt;
  }

  /** How far a bid gets, in both directions. */
  lemma ReachesExactly(sc: Scheme, key: Key, peer: Peer, msg: Option<Bid>, w: World)
    requires msg.Some? ==> WellSized(msg.value.signature)
    ensures var reached := |Pipeline(sc, key, peer, msg, w)|;
      && (reached >= 1 <==> peer.ptype.Bidder? && msg.Some? && CheckedBid(sc, msg.value).Ok?)
      && (reached >= 2 <==> reached >= 1 && w.allowance(CheckedBid(sc, msg.value).value))
      && (reached >= 3 <==> reached >= 2 && ValidBid(msg.value))
      && (reached >= 4 <==> reached >= 3 && w.decision == Some(Accepted))
      && (reached >= 5 <==> reached >= 4 && SignedPreConfirmation(sc, key, msg.value).Ok?
                            && w.stores(ArgsFor(ParseInt(msg.value.amount).value, SignedPreConfirmation(sc, key, msg.value).value)))
      && (reached >= 5 <==> reached == 6)
  {
    hide ValidBid, ArgsFor, ParseInt;
  }

  /** A run that reveals a preconfirmation went through every stage. */
  lemma RevealedInFull(sc: Scheme, key: Key, peer: Peer, msg: Option<Bid>, w: World, c: PreConfirmation)
    requires msg.Some? ==> WellSized(msg.value.signature)
    requires PreConfirmationWritten(c) in Pipeline(sc, key, peer, msg, w)
    ensures peer.ptype.Bidder? && msg == Some(c.bid)
    ensures CheckedBid(sc, c.bid).Ok? && w.allowance(CheckedBid(sc, c.bid).value)
    ensures ValidBid(c.bid) && w.decision == Some(Accepted)
    ensures SignedPreConfirmation(sc, key, c.bid) == Ok(c)
    ensures c.bid.signature.Some? && c.signature.Some? && ParseInt(c.bid.amount).Some?
    ensures w.stores(ArgsFor(ParseInt(c.bid.amount).value, c))
    ensures var who := CheckedBid(sc, c.bid).value;
      Pipeline(sc, key, peer, msg, w) ==
        [BidVerified(who), AllowanceFound(who), BidEnqueued(c.bid), BidAccepted,
         CommitmentStored(ArgsFor(ParseInt(c.bid.amount).value, c)), PreConfirmationWritten(c)]
  {
    hide ValidBid, ArgsFor, CommitmentRaw, BidRaw, Recovered, ParseInt;
  }

  /** What it takes for `c` to be revealed for the message `msg`. */
  ghost predicate Earned(sc: Scheme, key: Key, peer: Peer, msg: Option<Bid>, w: World, c: PreConfirmation)
    requires msg.Some? ==> WellSized(msg.value.signature)
  {
    && peer.ptype.Bidder? && msg == Some(c.bid)
    && CheckedBid(sc, c.bid).Ok? && w.allowance(CheckedBid(sc, c.bid).value)
    && ValidBid(c.bid) && w.decision == Some(Accepted)
    && SignedPreConfirmation(sc, key, c.bid) == Ok(c)
    && c.bid.signature.Some? && c.signature.Some? && ParseInt(c.bid.amount).Some?
    && w.stores(ArgsFor(ParseInt(c.bid.amount).value, c))
  }

  /** A preconfirmation is revealed if and only if it is the one signed for a verified, valid
      bid of a bidder with allowance that was accepted, and it could be stored. */
  lemma RevealedExactly(sc: Scheme, key: Key, peer: Peer, msg: Option<Bid>, w: World, c: PreConfirmation)
    requires msg.Some? ==> WellSized(msg.value.signature)
    ensures PreConfirmationWritten(c) in Pipeline(sc, key, peer, msg, w) <==> Earned(sc, key, peer, msg, w, c)
  {
    if PreConfirmationWritten(c) in Pipeline(sc, key, peer, msg, w) {
      RevealedInFull(sc, key, peer, msg, w, c);
    }
    if Earned(sc, key, peer, msg, w, c) {
      EarnedIsRevealed(sc, key, peer, msg, w, c);
    }
    hide Pipeline, Earned;
  }

  lemma EarnedIsRevealed(sc: Scheme, key: Key, peer: Peer, msg: Option<Bid>, w: World, c: PreConfirmation)
    requires msg.Some? ==> WellSized(msg.value.signature)
    requires Earned(sc, key, peer, msg, w, c)
    ensures PreConfirmationWritten(c) in Pipeline(sc, key, peer, msg, w)
  {
    hide ValidBid, ArgsFor, CheckedBid, SignedPreConfirmation, ParseInt;
    assert Pipeline(sc, key, peer, msg, w)[5] == PreConfirmationWritten(c);
  }

  /** A preconfirmation is revealed at most once, as the last effect; by then the bid of a
      bidder was verified and had allowance, was accepted by the provider, and the commitment
      was stored. */
  lemma CommitBeforeReveal(sc: Scheme, key: Key, peer: Peer, msg: Option<Bid>, w: World, i: nat)
    requires msg.Some? ==> WellSized(msg.value.signature)
    requires i < |Pipeline(sc, key, peer, msg, w)| && Pipeline(sc, key, peer, msg, w)[i].PreConfirmationWritten?
    ensures var e := Pipeline(sc, key, peer, msg, w);
      && i == |e| - 1
      && forall j :: 0 <= j < i ==> !e[j].PreConfirmationWritten?
    ensures var e := Pipeline(sc, key, peer, msg, w); var c := e[i].c;
      && CheckedBid(sc, c.bid).Ok?
      && BidVerified(CheckedBid(sc, c.bid).value) in e[..i]
      && AllowanceFound(CheckedBid(sc, c.bid).value) in e[..i]
      && BidAccepted in e[..i]
      && exists args :: CommitmentStored(args) in e[..i]
  {
    var e := Pipeline(sc, key, peer, msg, w);
    RevealedInFull(sc, key, peer, msg, w, e[i].c);
    hide Pipeline;
    assert e[..5] == [e[0], e[1], e[2], e[3], e[4]];
    assert CommitmentStored(e[4].args) in e[..5];
  }

  /** What is stored on chain is the revealed commitment: its own signatures and hash list, and
      numbers whose words are those the bidder's digest covers. */
  lemma StoredAsSigned(sc: Scheme, key: Key, peer: Peer, msg: Option<Bid>, w: World, args: StoreArgs)
    requires msg.Some? ==> WellSized(msg.value.signature)
    requires CommitmentStored(args) in Pipeline(sc, key, peer, msg, w)
    ensures exists c ::
      && PreConfirmationWritten(c) in Pipeline(sc, key, peer, msg, w)
      && c.bid.signature == Some(args.bidSig) && c.signature == Some(args.commitmentSig)
      && args.txHash == c.bid.txHash
      && ParseInt(c.bid.amount).Some?
      && U256Bytes(args.amount) == U256Bytes(ParseInt(c.bid.amount).value)
      && U256Bytes(args.blockNumber) == U256Bytes(c.bid.blockNumber)
      && U256Bytes(args.decayStart) == U256Bytes(c.bid.decayStart)
      && U256Bytes(args.decayEnd) == U256Bytes(c.bid.decayEnd)
  {
    hide CheckedBid, SignedPreConfirmation, ValidBid, U256Bytes, ParseInt;
    var e := Pipeline(sc, key, peer, msg, w);
    var c := e[5].c;
    RevealedInFull(sc, key, peer, msg, w, c);
    hide Pipeline;
    CastsLossless(c);
  }
}
