/** The EIP-712 encoding as the standard defines it, driven by a list of typed members
    (sections 'Definition of encodeType', 'Definition of encodeData' and 'Definition of
    domainSeparator'), and the proof that the hand-written digests follow it. */
module Eip712 {
  import opened Prelude
  import opened Encoding
  import opened Digests

  datatype Name = AppName | Version | TxnHash | BidAmount | BlockNumber | DecayStart | DecayEnd | BidHashHex | BidSignature

  function Spelling(n: Name): string {
    match n
    case AppName => "name"
    case Version => "version"
    case TxnHash => "txnHash"
    case BidAmount => "bid"
    case BlockNumber => "blockNumber"
    case DecayStart => "decayStartTimeStamp"
    case DecayEnd => "decayEndTimeStamp"
    case BidHashHex => "bidHash"
    case BidSignature => "signature"
  }

  datatype Kind = Str | Uint64

  datatype Member = Member(kind: Kind, name: Name)

  /** Dynamic values are hashed, numbers fill a word. */
  datatype Val = Text(s: string) | Number(n: int)

  /** A structure gives every member a value. */
  type Struct = Name -> Val

  function Declaration(m: Member): string {
    (if m.kind.Str? then "string " else "uint64 ") + Spelling(m.name)
  }

  function Declarations(members: seq<Member>): string {
    if members == [] then ""
    else if |members| == 1 then Declaration(members[0])
    else Declaration(members[0]) + "," + Declarations(members[1..])
  }

  function EncodeType(name: string, members: seq<Member>): string {
    name + "(" + Declarations(members) + ")"
  }

  function EncodeValue(k: Keccak, v: Val): Word {
    match v
    case Text(s) => k(s)
    case Number(n) => U256Bytes(n)
  }

  /** The members' words, in the order of their declaration. */
  function EncodeData(k: Keccak, members: seq<Member>, value: Struct): string {
    if members == [] then ""
    else EncodeValue(k, value(members[0].name)) + EncodeData(k, members[1..], value)
  }

  function HashStruct(k: Keccak, name: string, members: seq<Member>, value: Struct): Word {
    k(k(EncodeType(name, members)) + EncodeData(k, members, value))
  }

  function TypedDigest(k: Keccak, domain: Word, message: Word): Word {
    k("\U{19}\U{1}" + (domain + message))
  }

  const DOMAIN_MEMBERS := [Member(Str, AppName), Member(Str, Version)]

  const TERMS := [
    Member(Str, TxnHash), Member(Uint64, BidAmount), Member(Uint64, BlockNumber),
    Member(Uint64, DecayStart), Member(Uint64, DecayEnd)]

  const SOURCE := [Member(Str, BidHashHex), Member(Str, BidSignature)]

  const COMMITMENT_MEMBERS := TERMS + SOURCE

  function Domain(name: string): Struct {
    (member: Name) => if member.AppName? then Text(name) else Text("1")
  }

  function Terms(b: Bid, amount: int): Struct {
    (member: Name) =>
      match member
      case TxnHash => Text(b.txHash)
      case BidAmount => Number(amount)
      case BlockNumber => Number(b.blockNumber)
      case DecayStart => Number(b.decayStart)
      case DecayEnd => Number(b.decayEnd)
      case BidHashHex => Text(Hex(BytesOf(b.digest)))
      case BidSignature => Text(Hex(BytesOf(b.signature)))
      case _ => Text("")
  }

  lemma Spellings()
    ensures Declaration(Member(Str, AppName)) == "string name"
    ensures Declaration(Member(Str, Version)) == "string version"
    ensures Declaration(Member(Str, TxnHash)) == "string txnHash"
    ensures Declaration(Member(Uint64, BidAmount)) == "uint64 bid"
  {
  }

  lemma LongSpellings()
    ensures Declaration(Member(Uint64, BlockNumber)) == "uint64 blockNumber"
    ensures Declaration(Member(Uint64, DecayStart)) == "uint64 decayStartTimeStamp"
    ensures Declaration(Member(Uint64, DecayEnd)) == "uint64 decayEndTimeStamp"
  {
  }

  lemma SourceSpellings()
    ensures Declaration(Member(Str, BidHashHex)) == "string bidHash"
    ensures Declaration(Member(Str, BidSignature)) == "string signature"
  {
  }

  lemma TermsDeclared()
    ensures Declarations(TERMS) == TERMS_TEXT
    ensures Declarations(SOURCE) == SOURCE_TEXT
    ensures Declarations(DOMAIN_MEMBERS) == "string name" + "," + "string version"
  {
    Spellings();
    LongSpellings();
    SourceSpellings();
    hide Declaration;
    var t2, t3, t4, t5 := TERMS[1..], TERMS[2..], TERMS[3..], TERMS[4..];
    assert t2[1..] == t3 && t3[1..] == t4 && t4[1..] == t5 && t5 == [Member(Uint64, DecayEnd)];
    assert SOURCE[1..] == [Member(Str, BidSignature)] && DOMAIN_MEMBERS[1..] == [Member(Str, Version)];
    assert Declarations(t4) == "uint64 decayStartTimeStamp" + "," + "uint64 decayEndTimeStamp";
  }

  lemma {:induction false} DeclarationsConcat(a: seq<Member>, b: seq<Member>)
    requires a != [] && b != []
    ensures Declarations(a + b) == Declarations(a) + "," + Declarations(b)
  {
    hide Declaration;
    assert (a + b)[1..] == a[1..] + b;
    if |a| == 1 {
      assert a[1..] + b == b;
    } else {
      DeclarationsConcat(a[1..], b);
    }
  }

  /** The type strings of the code are the encodings of these member lists. */
  lemma TypeStrings()
    ensures EncodeType("EIP712Domain", DOMAIN_MEMBERS) == DOMAIN_TYPE
    ensures EncodeType(BID_NAME, TERMS) == BID_TYPE
    ensures EncodeType(COMMITMENT_NAME, COMMITMENT_MEMBERS) == COMMITMENT_TYPE
  {
    TermsDeclared();
    DeclarationsConcat(TERMS, SOURCE);
  }

  lemma {:induction false} EncodeDataConcat(k: Keccak, a: seq<Member>, b: seq<Member>, value: Struct)
    ensures EncodeData(k, a + b, value) == EncodeData(k, a, value) + EncodeData(k, b, value)
  {
    if a == [] {
      assert a + b == b;
    } else {
      assert (a + b)[1..] == a[1..] + b;
      EncodeDataConcat(k, a[1..], b, value);
    }
  }

  lemma Rebracket(t: string, a: string, b: string, c: string, d: string, e: string)
    ensures t + (a + (b + (c + (d + (e + ""))))) == t + a + b + c + d + e
  {
  }

  lemma TermsEncoded(k: Keccak, t: string, b: Bid, amount: int)
    ensures k(t) + EncodeData(k, TERMS, Terms(b, amount)) == FieldData(k, t, b, amount)
  {
    var v := Terms(b, amount);
    hide U256Bytes;
    var t2, t3, t4, t5 := TERMS[1..], TERMS[2..], TERMS[3..], TERMS[4..];
    assert t2[1..] == t3 && t3[1..] == t4 && t4[1..] == t5 && t5[1..] == [];
    assert EncodeData(k, t5, v) == U256Bytes(b.decayEnd) + "";
    assert EncodeData(k, t4, v) == U256Bytes(b.decayStart) + EncodeData(k, t5, v);
    assert EncodeData(k, t3, v) == U256Bytes(b.blockNumber) + EncodeData(k, t4, v);
    assert EncodeData(k, t2, v) == U256Bytes(amount) + EncodeData(k, t3, v);
    assert EncodeData(k, TERMS, v) == k(b.txHash) + EncodeData(k, t2, v);
    Rebracket(k(t), k(b.txHash), U256Bytes(amount), U256Bytes(b.blockNumber), U256Bytes(b.decayStart), U256Bytes(b.decayEnd));
  }

  /** Two words side by side. */
  lemma EncodeTwo(k: Keccak, m: Member, n: Member, value: Struct)
    ensures EncodeData(k, [m, n], value) == EncodeValue(k, value(m.name)) + EncodeValue(k, value(n.name))
  {
    assert [m, n][1..] == [n];
    assert EncodeData(k, [n], value) == EncodeValue(k, value(n.name));
  }

  lemma DomainEncoded(k: Keccak, name: string)
    ensures HashStruct(k, "EIP712Domain", DOMAIN_MEMBERS, Domain(name)) == k(DomainData(k, name))
  {
    TypeStrings();
    hide EncodeType;
    EncodeTwo(k, Member(Str, AppName), Member(Str, Version), Domain(name));
    assert k(DOMAIN_TYPE) + (k(name) + k("1")) == DomainData(k, name);
  }

  /** The bid digest is the EIP-712 digest of the bid's terms in the domain "PreConfBid". */
  lemma BidDigestConforms(k: Keccak, b: Bid, amount: int)
    requires ParseInt(b.amount) == Some(amount)
    ensures BidHash(k, b) == Some(TypedDigest(k,
              HashStruct(k, "EIP712Domain", DOMAIN_MEMBERS, Domain("PreConfBid")),
              HashStruct(k, "PreConfBid", TERMS, Terms(b, amount))))
  {
    TypeStrings();
    TermsEncoded(k, BID_TYPE, b, amount);
    DomainEncoded(k, BID_NAME);
    hide EncodeType, EncodeData, FieldData, DomainData, ParseInt;
  }

  lemma Regroup(t: string, fields: string, terms: string, d: string, s: string)
    requires t + terms == fields
    ensures t + (terms + (d + s)) == fields + d + s
  {
  }

  lemma CommitmentEncoded(k: Keccak, b: Bid, amount: int)
    ensures k(COMMITMENT_TYPE) + EncodeData(k, COMMITMENT_MEMBERS, Terms(b, amount)) == CommitmentData(k, b, amount)
  {
    var v := Terms(b, amount);
    TermsEncoded(k, COMMITMENT_TYPE, b, amount);
    HexOfBytes(b.digest);
    HexOfBytes(b.signature);
    EncodeDataConcat(k, TERMS, SOURCE, v);
    EncodeTwo(k, Member(Str, BidHashHex), Member(Str, BidSignature), v);
    hide EncodeData, FieldData;
    Regroup(k(COMMITMENT_TYPE), FieldData(k, COMMITMENT_TYPE, b, amount), EncodeData(k, TERMS, v),
            k(HexOf(b.digest)), k(HexOf(b.signature)));
  }

  /** The commitment digest is the EIP-712 digest of the terms, the bid's digest and the bid's
      signature, both in hexadecimal, in the domain "PreConfCommitment". */
  lemma CommitmentDigestConforms(k: Keccak, b: Bid, amount: int)
    requires ParseInt(b.amount) == Some(amount)
    ensures CommitmentHash(k, b) == Some(TypedDigest(k,
              HashStruct(k, "EIP712Domain", DOMAIN_MEMBERS, Domain("PreConfCommitment")),
              HashStruct(k, "PreConfCommitment", COMMITMENT_MEMBERS, Terms(b, amount))))
  {
    TypeStrings();
    CommitmentEncoded(k, b, amount);
    DomainEncoded(k, COMMITMENT_NAME);
    hide EncodeType, EncodeData, CommitmentData, DomainData, ParseInt;
  }
}
