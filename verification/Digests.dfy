/** EIP-712 digests of bids and commitments. Keccak is any function to 32-byte words; it is
    not assumed to be injective, so binding is stated up to a named pair of colliding
    preimages. */
module Digests {
  import opened Prelude
  import opened Encoding

  type Keccak = string -> Word

  datatype Bid = Bid(txHash: string, amount: string, blockNumber: int64, decayStart: int64, decayEnd: int64,
                     digest: Option<Bytes>, signature: Option<Bytes>)

  datatype PreConfirmation = PreConfirmation(bid: Bid, digest: Option<Bytes>, signature: Option<Bytes>)

  ghost predicate Collision(k: Keccak, x: string, y: string) {
    x != y && k(x) == k(y)
  }

  const BID_NAME := "PreConfBid"
  const COMMITMENT_NAME := "PreConfCommitment"

  /** The type strings, cut at the members. */
  const TERMS_TEXT :=
    "string txnHash" + "," + ("uint64 bid" + "," + ("uint64 blockNumber" + "," +
    ("uint64 decayStartTimeStamp" + "," + "uint64 decayEndTimeStamp")))
  const SOURCE_TEXT := "string bidHash" + "," + "string signature"
  const DOMAIN_TYPE := "EIP712Domain" + "(" + ("string name" + "," + "string version") + ")"
  const BID_TYPE := BID_NAME + "(" + TERMS_TEXT + ")"
  const COMMITMENT_TYPE := COMMITMENT_NAME + "(" + (TERMS_TEXT + "," + SOURCE_TEXT) + ")"
  const PREFIX := "\U{19}\U{1}"

  function DomainData(k: Keccak, name: string): string {
    k(DOMAIN_TYPE) + k(name) + k("1")
  }

  /** The five fields of a bid, one word each, behind the type hash. */
  function FieldData(k: Keccak, typeName: string, b: Bid, amount: int): string {
    k(typeName) + k(b.txHash) + U256Bytes(amount) + U256Bytes(b.blockNumber) +
    U256Bytes(b.decayStart) + U256Bytes(b.decayEnd)
  }

  function RawData(k: Keccak, name: string, data: string): string {
    PREFIX + (k(DomainData(k, name)) + k(data))
  }

  function BidData(k: Keccak, b: Bid, amount: int): string {
    FieldData(k, BID_TYPE, b, amount)
  }

  function BidRaw(k: Keccak, b: Bid, amount: int): string {
    RawData(k, BID_NAME, BidData(k, b, amount))
  }

  /** None if the amount is not an integer. */
  function BidHash(k: Keccak, b: Bid): Option<Word> {
    match ParseInt(b.amount)
    case None => None
    case Some(amount) => Some(k(BidRaw(k, b, amount)))
  }

  /** A missing digest or signature hashes like an empty one. */
  function HexOf(b: Option<Bytes>): string {
    match b
    case None => ""
    case Some(bytes) => Hex(bytes)
  }

  /** The bytes of an optional field: none if it is missing. */
  function BytesOf(b: Option<Bytes>): Bytes {
    match b
    case None => []
    case Some(bytes) => bytes
  }

  lemma HexOfBytes(b: Option<Bytes>)
    ensures HexOf(b) == Hex(BytesOf(b))
  {
  }

  function CommitmentData(k: Keccak, b: Bid, amount: int): string {
    FieldData(k, COMMITMENT_TYPE, b, amount) + k(HexOf(b.digest)) + k(HexOf(b.signature))
  }

  function CommitmentRaw(k: Keccak, b: Bid, amount: int): string {
    RawData(k, COMMITMENT_NAME, CommitmentData(k, b, amount))
  }

  function CommitmentHash(k: Keccak, b: Bid): Option<Word> {
    match ParseInt(b.amount)
    case None => None
    case Some(amount) => Some(k(CommitmentRaw(k, b, amount)))
  }

  // ---------------------------------------------------------------- binding

  /** What a signed digest fixes of a bid. */
  ghost predicate SameTerms(b: Bid, c: Bid) {
    && b.txHash == c.txHash
    && ParseInt(b.amount).Some? && ParseInt(c.amount).Some?
    && ParseInt(b.amount).value % TWO_256 == ParseInt(c.amount).value % TWO_256
    && b.blockNumber == c.blockNumber
    && b.decayStart == c.decayStart
    && b.decayEnd == c.decayEnd
  }

  lemma FieldsBind(k: Keccak, t: string, b: Bid, x: int, c: Bid, y: int)
    requires FieldData(k, t, b, x) == FieldData(k, t, c, y)
    ensures k(b.txHash) == k(c.txHash)
    ensures x % TWO_256 == y % TWO_256
    ensures b.blockNumber == c.blockNumber && b.decayStart == c.decayStart && b.decayEnd == c.decayEnd
  {
    var b1, c1 := k(t) + k(b.txHash), k(t) + k(c.txHash);
    var b2, c2 := b1 + U256Bytes(x), c1 + U256Bytes(y);
    var b3, c3 := b2 + U256Bytes(b.blockNumber), c2 + U256Bytes(c.blockNumber);
    var b4, c4 := b3 + U256Bytes(b.decayStart), c3 + U256Bytes(c.decayStart);
    AppendInjective(b4, U256Bytes(b.decayEnd), c4, U256Bytes(c.decayEnd));
    AppendInjective(b3, U256Bytes(b.decayStart), c3, U256Bytes(c.decayStart));
    AppendInjective(b2, U256Bytes(b.blockNumber), c2, U256Bytes(c.blockNumber));
    AppendInjective(b1, U256Bytes(x), c1, U256Bytes(y));
    AppendInjective(k(t), k(b.txHash), k(t), k(c.txHash));
    U256Injective(x, y);
    WordOfInt64Injective(b.blockNumber, c.blockNumber);
    WordOfInt64Injective(b.decayStart, c.decayStart);
    WordOfInt64Injective(b.decayEnd, c.decayEnd);
  }

  lemma RawBinds(k: Keccak, name: string, d: string, name': string, d': string)
    requires RawData(k, name, d) == RawData(k, name', d')
    ensures k(DomainData(k, name)) == k(DomainData(k, name'))
    ensures k(d) == k(d')
  {
    AppendInjective(PREFIX, k(DomainData(k, name)) + k(d), PREFIX, k(DomainData(k, name')) + k(d'));
    AppendInjective(k(DomainData(k, name)), k(d), k(DomainData(k, name')), k(d'));
  }

  /** Equal bid digests mean equal terms, or one of three pairs of preimages that the code
      itself hashed is a collision. */
  lemma BidDigestBinds(k: Keccak, b: Bid, c: Bid)
    requires BidHash(k, b).Some? && BidHash(k, b) == BidHash(k, c)
    ensures var x, y := ParseInt(b.amount).value, ParseInt(c.amount).value;
      || SameTerms(b, c)
      || Collision(k, BidRaw(k, b, x), BidRaw(k, c, y))
      || Collision(k, BidData(k, b, x), BidData(k, c, y))
      || Collision(k, b.txHash, c.txHash)
  {
    var x, y := ParseInt(b.amount).value, ParseInt(c.amount).value;
    if BidRaw(k, b, x) == BidRaw(k, c, y) {
      RawBinds(k, BID_NAME, BidData(k, b, x), BID_NAME, BidData(k, c, y));
      if BidData(k, b, x) == BidData(k, c, y) {
        FieldsBind(k, BID_TYPE, b, x, c, y);
      }
    }
  }

  lemma HexOfBinds(a: Option<Bytes>, b: Option<Bytes>)
    requires HexOf(a) == HexOf(b)
    ensures BytesOf(a) == BytesOf(b)
  {
    HexOfBytes(a);
    HexOfBytes(b);
    HexInjective(BytesOf(a), BytesOf(b));
  }

  /** Equal commitment digests also fix the digest and the signature of the bid, a missing one
      counting as empty. */
  lemma CommitmentDigestBinds(k: Keccak, b: Bid, c: Bid)
    requires CommitmentHash(k, b).Some? && CommitmentHash(k, b) == CommitmentHash(k, c)
    ensures var x, y := ParseInt(b.amount).value, ParseInt(c.amount).value;
      || (SameTerms(b, c) && BytesOf(b.digest) == BytesOf(c.digest) && BytesOf(b.signature) == BytesOf(c.signature))
      || Collision(k, CommitmentRaw(k, b, x), CommitmentRaw(k, c, y))
      || Collision(k, CommitmentData(k, b, x), CommitmentData(k, c, y))
      || Collision(k, b.txHash, c.txHash)
      || Collision(k, HexOf(b.digest), HexOf(c.digest))
      || Collision(k, HexOf(b.signature), HexOf(c.signature))
  {
    var x, y := ParseInt(b.amount).value, ParseInt(c.amount).value;
    if CommitmentRaw(k, b, x) == CommitmentRaw(k, c, y) {
      RawBinds(k, COMMITMENT_NAME, CommitmentData(k, b, x), COMMITMENT_NAME, CommitmentData(k, c, y));
      if CommitmentData(k, b, x) == CommitmentData(k, c, y) {
        var fb, fc := FieldData(k, COMMITMENT_TYPE, b, x), FieldData(k, COMMITMENT_TYPE, c, y);
        AppendInjective(fb + k(HexOf(b.digest)), k(HexOf(b.signature)), fc + k(HexOf(c.digest)), k(HexOf(c.signature)));
        AppendInjective(fb, k(HexOf(b.digest)), fc, k(HexOf(c.digest)));
        FieldsBind(k, COMMITMENT_TYPE, b, x, c, y);
        if HexOf(b.digest) == HexOf(c.digest) && HexOf(b.signature) == HexOf(c.signature) {
          HexOfBinds(b.digest, c.digest);
          HexOfBinds(b.signature, c.signature);
        }
      }
    }
  }

  /** A bid digest is no commitment digest, short of a collision of the raw data, of the two
      domains, or of the two names. */
  lemma DomainsSeparate(k: Keccak, b: Bid, c: Bid)
    requires BidHash(k, b).Some? && BidHash(k, b) == CommitmentHash(k, c)
    ensures var x, y := ParseInt(b.amount).value, ParseInt(c.amount).value;
      || Collision(k, BidRaw(k, b, x), CommitmentRaw(k, c, y))
      || Collision(k, DomainData(k, BID_NAME), DomainData(k, COMMITMENT_NAME))
      || Collision(k, BID_NAME, COMMITMENT_NAME)
  {
    var x, y := ParseInt(b.amount).value, ParseInt(c.amount).value;
    if BidRaw(k, b, x) == CommitmentRaw(k, c, y) {
      RawBinds(k, BID_NAME, BidData(k, b, x), COMMITMENT_NAME, CommitmentData(k, c, y));
      if DomainData(k, BID_NAME) == DomainData(k, COMMITMENT_NAME) {
        AppendInjective(k(DOMAIN_TYPE) + k(BID_NAME), k("1"), k(DOMAIN_TYPE) + k(COMMITMENT_NAME), k("1"));
        AppendInjective(k(DOMAIN_TYPE), k(BID_NAME), k(DOMAIN_TYPE), k(COMMITMENT_NAME));
        assert |BID_NAME| != |COMMITMENT_NAME|;
      }
    }
  }
}
