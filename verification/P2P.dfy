/** Peers, their types and addresses. */
module P2P {
  /** An Ethereum address; only its identity matters. */
  type Address = nat

  datatype PeerType = Bootnode | Provider | Bidder | Unrecognised

  datatype Peer = Peer(addr: Address, ptype: PeerType)

  function TypeName(t: PeerType): string {
    match t
    case Bootnode => "bootnode"
    case Provider => "provider"
    case Bidder => "bidder"
    case Unrecognised => "unknown"
  }

  function FromName(s: string): PeerType {
    if s == "bootnode" then Bootnode
    else if s == "provider" then Provider
    else if s == "bidder" then Bidder
    else Unrecognised
  }

  /** A type survives the wire, where it is spelled as the protocol has it. */
  lemma TypeRoundTrip(t: PeerType)
    ensures FromName(TypeName(t)) == t
    ensures t.Provider? <==> TypeName(t) == "provider"
    ensures t.Bidder? <==> TypeName(t) == "bidder"
    ensures t.Bootnode? <==> TypeName(t) == "bootnode"
    ensures FromName(TypeName(t)).Provider? <==> TypeName(t) == "provider"
  {
    var b, p, d, u := "bootnode", "provider", "bidder", "unknown";
    assert b[0] == 'b' && p[0] == 'p' && d[0] == 'b' && u[0] == 'u' && b[1] == 'o' && d[1] == 'i';
  }
}
