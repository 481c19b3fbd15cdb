/** The node's connection handling: the handshake decides, and the registry, the blocklist
    and the topology follow. */
module Libp2p {
  import opened Prelude
  import opened P2P
  import opened PeerRegistry
  import opened Handshake
  import opened Blocklist
  import Topology

  const MINUTE: int := 60_000_000_000

  /** How long a failed handshake blocks the other side; None if it does not. Zero is for
      good. Only an unregistered provider may come back, sooner if it was the one to call. */
  function Penalty(e: Error, inbound: bool): Option<(int, string)> {
    match e
    case SignatureVerificationFailed => Some((0, "signature verification failed"))
    case ObservedAddressMismatch => Some((0, "address mismatch during handshake"))
    case InsufficientStake => Some((if inbound then 2 * MINUTE else 5 * MINUTE, "insufficient stake"))
    case _ => None
  }

  function Penalised(m: BlockMap, e: Error, inbound: bool, id: PeerID, now: int): BlockMap {
    match Penalty(e, inbound)
    case None => m
    case Some((duration, reason)) => m[id := BlockInfo(reason, now, duration)]
  }

  /** The block list after a request was looked at: a bad signature and a foreign address block
      for good, a provider without stake for the `probation` in nanoseconds, nothing else. */
  function Sentenced(env: Env, m: BlockMap, signer: Verdict, typeName: string, id: PeerID, probation: int, now: int): BlockMap {
    if !signer.Verified? then m[id := BlockInfo("signature verification failed", now, 0)]
    else if env.addrOf(id).None? then m
    else if env.addrOf(id).value != signer.addr then m[id := BlockInfo("address mismatch during handshake", now, 0)]
    else if typeName == "provider" && !env.registered(signer.addr) then m[id := BlockInfo("insufficient stake", now, probation)]
    else m
  }

  class Node {
    const hs: Handshake.Service
    const peers: Registry
    const blocks: Blocks
    const topology: Topology.Topology

    constructor (hs: Handshake.Service, peers: Registry, blocks: Blocks, topology: Topology.Topology)
      ensures this.hs == hs && this.peers == peers && this.blocks == blocks && this.topology == topology
    {
      this.hs, this.peers, this.blocks, this.topology := hs, peers, blocks, topology;
    }

    method Block(e: Error, inbound: bool, id: PeerID, now: int)
      modifies blocks
      ensures blocks.blockMap == Penalised(old(blocks.blockMap), e, inbound, id, now)
    {
      match Penalty(e, inbound)
      case None =>
      case Some((duration, reason)) => blocks.BlockPeer(id, duration, reason, now);
    }

    /** An inbound connection. A refused peer is blocked and enters neither table; an accepted
        one is registered under the address of its peer ID, and the topology hears of it
        unless it was registered before: then its announcements are those of `Connected`. */
    method HandleConnectReq(stream: MsgStream, c: Conn, id: PeerID, now: int, book: Peer -> Option<nat>)
      returns (r: Outcome<Peer, Error>)
      requires topology.Valid()
      modifies stream, peers, blocks, topology
      ensures topology.Valid()
      ensures var seen := old(stream.incoming);
        seen != [] && seen[0].ReqMsg? ==>
          var signer := hs.env.verify(seen[0].req.sig, seen[0].req.peerType + seen[0].req.token);
          blocks.blockMap == Sentenced(hs.env, old(blocks.blockMap), signer, seen[0].req.peerType, id, 120_000_000_000, now)
      ensures r.Err? ==>
        && blocks.blockMap == Penalised(old(blocks.blockMap), r.error, true, id, now)
        && peers.View() == old(peers.View())
        && topology.providers == old(topology.providers) && topology.bidders == old(topology.bidders)
        && topology.log == old(topology.log)
      ensures r.Ok? ==>
        && hs.env.addrOf(id) == Some(r.value.addr)
        && (r.value.ptype.Provider? ==> hs.env.registered(r.value.addr))
        && blocks.blockMap == old(blocks.blockMap)
        && peers.View() == PeerAdded(old(peers.View()), c, id, r.value).0
      ensures r.Ok? ==>
        var known := r.value.addr in old(peers.underlays);
        && topology.providers == (if !known && r.value.ptype.Provider? then old(topology.providers)[r.value.addr := r.value]
                                  else old(topology.providers))
        && topology.bidders == (if !known && r.value.ptype.Bidder? then old(topology.bidders)[r.value.addr := r.value]
                                else old(topology.bidders))
      ensures r.Ok? && (r.value.addr in old(peers.underlays) || !topology.announcing) ==> topology.log == old(topology.log)
      ensures r.Ok? && r.value.addr !in old(peers.underlays) && topology.announcing ==>
        Topology.Told(topology.log) == old(Topology.Told(topology.log))
          + Topology.ToldToNewcomer(r.value, topology.providers, book)
          + Topology.ToldToBidders(r.value, topology.bidders, book)
    {
      r := hs.Handle(stream, id);
      if r.Err? {
        Block(r.error, true, id, now);
        return;
      }
      var known := peers.AddPeer(c, id, r.value);
      if known {
        return;
      }
      topology.Connected(r.value, book);
    }

    /** An outbound connection: a connected peer is returned as it is; otherwise the handshake
        decides. The topology is not told. */
    method Connect(stream: MsgStream, c: Conn, id: PeerID, now: int) returns (r: Outcome<Peer, Error>)
      requires Agree(peers.View())
      modifies stream, peers, blocks
      ensures id in old(peers.overlays) ==>
        r == Ok(old(peers.overlays)[id]) && peers.View() == old(peers.View()) && blocks.blockMap == old(blocks.blockMap)
      ensures var seen := old(stream.incoming);
        && id !in old(peers.overlays) && old(stream.room) > 0 && |seen| >= 2 && seen[0].RespMsg? && seen[1].ReqMsg?
        && seen[0].resp.observed == hs.own && seen[0].resp.peerType == TypeName(hs.ptype) ==>
          var signer := hs.env.verify(seen[1].req.sig, seen[1].req.peerType + seen[1].req.token);
          blocks.blockMap == Sentenced(hs.env, old(blocks.blockMap), signer, seen[1].req.peerType, id, 300_000_000_000, now)
      ensures r.Err? ==>
        && blocks.blockMap == Penalised(old(blocks.blockMap), r.error, false, id, now)
        && peers.View() == old(peers.View())
      ensures id !in old(peers.overlays) && r.Ok? ==>
        && hs.env.addrOf(id) == Some(r.value.addr)
        && (r.value.ptype.Provider? ==> hs.env.registered(r.value.addr))
        && blocks.blockMap == old(blocks.blockMap)
        && peers.View() == PeerAdded(old(peers.View()), c, id, r.value).0
    {
      var found := peers.IsConnected(id);
      if found.Some? {
        return Ok(found.value);
      }
      r := hs.Handshake(id, stream);
      if r.Err? {
        Block(r.error, false, id, now);
        return;
      }
      var known := peers.AddPeer(c, id, r.value);
    }
  }
}
